/** The table of mounts: how it is built from the configuration, and how a request finds its mount. */
module Routing {
  import opened Wrappers
  import opened Config
  import opened Permutations
  import opened Sorting

  datatype Mount = Mount(prefix: string, stripPrefix: bool, app: Application, backend: Handler, allowInsecureHTTP: bool)

  type MountList = seq<Mount>

  const LONGEST_FIRST: (Mount, Mount) -> bool := (a: Mount, b: Mount) => |a.prefix| > |b.prefix|

  /** Go's `strings.TrimRight(s, "/")`. */
  function TrimSlashes(s: string): (t: string)
    ensures t <= s && (t == "" || t[|t| - 1] != '/')
    ensures forall k :: |t| <= k < |s| ==> s[k] == '/'
  {
    if s == "" || s[|s| - 1] != '/' then s else TrimSlashes(s[..|s| - 1])
  }

  predicate PathMatches(prefix: string, path: string) {
    prefix == "/" || path == TrimSlashes(prefix) || TrimSlashes(prefix) + "/" <= path
  }

  /** What the platform decides: the backend of an application, if it can be made, whether a
      hostname pattern compiles, and whether a compiled one matches a hostname. */
  datatype Platform = Platform(
    backendOf: Application -> Option<Handler>,
    compiles: string -> bool,
    matches: (string, string) -> bool)

  datatype BuildError = NoBackend(appID: string) | BadPattern(pattern: string) | UnsupportedKind(kind: string)

  // --- specification: where a frontend puts its mount ---

  datatype Place = Global | Host(hostname: string) | Pattern(pattern: string)

  datatype Placed = Placed(place: Place, mount: Mount)

  function PlaceOf(p: Platform, f: Frontend): Result<Place, BuildError> {
    if f.kind == HOSTNAME then Ok(Host(f.hostname))
    else if f.kind == HOSTNAME_REGEXP then
      if p.compiles(f.hostnameRegexp) then Ok(Pattern(f.hostnameRegexp)) else Err(BadPattern(f.hostnameRegexp))
    else if f.kind == PATH_PREFIX then Ok(Global)
    else Err(UnsupportedKind(f.kind))
  }

  function MountOf(app: Application, backend: Handler, f: Frontend): Mount {
    Mount(f.pathPrefix, f.stripPathPrefix, app, backend, f.allowInsecureHTTP)
  }

  /** The first `n` frontends of an application, in order, or the first error among them. */
  function PlaceFrontends(p: Platform, app: Application, backend: Handler, n: nat): Result<seq<Placed>, BuildError>
    requires n <= |app.frontends|
  {
    if n == 0 then Ok([])
    else
      match PlaceFrontends(p, app, backend, n - 1)
      case Err(e) => Err(e)
      case Ok(before) =>
        var f := app.frontends[n - 1];
        match PlaceOf(p, f)
        case Err(e) => Err(e)
        case Ok(place) => Ok(before + [Placed(place, MountOf(app, backend, f))])
  }

  function PlaceApp(p: Platform, app: Application): Result<seq<Placed>, BuildError> {
    match p.backendOf(app)
    case None => Err(NoBackend(app.id))
    case Some(backend) => PlaceFrontends(p, app, backend, |app.frontends|)
  }

  function PlaceAll(p: Platform, apps: seq<Application>): Result<seq<Placed>, BuildError> {
    if apps == [] then Ok([])
    else
      match PlaceAll(p, apps[..|apps| - 1])
      case Err(e) => Err(e)
      case Ok(before) =>
        match PlaceApp(p, apps[|apps| - 1])
        case Err(e) => Err(e)
        case Ok(placed) => Ok(before + placed)
  }

  /** The mounts at one place, in the order of the configuration. */
  function MountsAt(all: seq<Placed>, place: Place): MountList {
    if all == [] then []
    else
      var last := all[|all| - 1];
      MountsAt(all[..|all| - 1], place) + if last.place == place then [last.mount] else []
  }

  /** Those behind patterns, with the pattern, in the order of the configuration. */
  function Patterns(all: seq<Placed>): seq<Placed> {
    if all == [] then []
    else
      var last := all[|all| - 1];
      Patterns(all[..|all| - 1]) + if last.place.Pattern? then [last] else []
  }

  // --- the table, built in place ---

  class FrontendMatchers {
    var hostname: map<string, MountList>
    var hostnameRegexp: seq<Placed>
    var pathPrefix: MountList

    constructor ()
      ensures hostname == map[] && hostnameRegexp == [] && pathPrefix == []
    {
      hostname, hostnameRegexp, pathPrefix := map[], [], [];
    }

    function Contents(): Table
      reads this
    {
      Table(hostname, hostnameRegexp, pathPrefix)
    }

    method AddMount(place: Place, mount: Mount, ghost all: seq<Placed>)
      requires IsTableOf(all, Contents())
      modifies this
      ensures IsTableOf(all + [Placed(place, mount)], Contents())
    {
      ghost var t := Contents();
      LongestFirstIsOrder();
      match place
      case Host(h) =>
        if h !in hostname {
          hostname := hostname[h := []];
        }
        var mountList := SortSlice(hostname[h] + [mount], LONGEST_FIRST);
        hostname := hostname[h := mountList];
        assert hostname == t.hostname[h := mountList];
        TableWithHost(all, t, h, mount, mountList);
      case Pattern(pattern) =>
        hostnameRegexp := hostnameRegexp + [Placed(place, mount)];
        TableWithPattern(all, t, pattern, mount);
      case Global =>
        pathPrefix := SortSlice(pathPrefix + [mount], LONGEST_FIRST);
        TableWithGlobal(all, t, mount, pathPrefix);
    }

    /** Adds the mounts of one application, up to the first frontend that is in error. */
    method AddApp(p: Platform, app: Application, backend: Handler, ghost all: seq<Placed>) returns (error: Option<BuildError>)
      requires IsTableOf(all, Contents())
      modifies this
      ensures var placed := PlaceFrontends(p, app, backend, |app.frontends|);
              if error.Some? then placed == Err(error.value)
              else placed.Ok? && IsTableOf(all + placed.value, Contents())
    {
      ghost var placed: seq<Placed>, now: seq<Placed> := [], all;
      for j := 0 to |app.frontends|
        invariant PlaceFrontends(p, app, backend, j) == Ok(placed)
        invariant now == all + placed
        invariant IsTableOf(now, Contents())
      {
        var frontend := app.frontends[j];
        var mount := MountOf(app, backend, frontend);
        var place := PlaceOf(p, frontend);
        OneMoreFrontend(p, app, backend, j, placed);
        if place.Err? {
          PlaceFrontendsFails(p, app, backend, j + 1, |app.frontends|);
          return Some(place.error);
        }
        ghost var x := Placed(place.value, mount);
        AddMount(place.value, mount, now);
        JoinLeft(all, placed, [x]);
        placed, now := placed + [x], now + [x];
      }
      error := None;
    }
  }

  /** The contents of the matchers. */
  datatype Table = Table(hostname: map<string, MountList>, hostnameRegexp: seq<Placed>, pathPrefix: MountList)
  {
    function Hostname(h: string): MountList {
      if h in hostname then hostname[h] else []
    }
  }

  /** Each list holds the mounts of its place, longest prefix first; patterns keep their order. */
  ghost predicate IsTableOf(all: seq<Placed>, t: Table) {
    && IsSortOf(LONGEST_FIRST, MountsAt(all, Global), t.pathPrefix)
    && (forall h :: HostOk(all, t, h))
    && t.hostnameRegexp == Patterns(all)
  }

  ghost predicate HostOk(all: seq<Placed>, t: Table, h: string) {
    IsSortOf(LONGEST_FIRST, MountsAt(all, Host(h)), t.Hostname(h))
  }

  lemma LongestFirstIsOrder()
    ensures StrictWeakOrder(LONGEST_FIRST)
  {
  }

  lemma AddedToSorted(l: MountList, sorted: MountList, mount: Mount, sorted': MountList)
    requires IsSortOf(LONGEST_FIRST, l, sorted) && IsSortOf(LONGEST_FIRST, sorted + [mount], sorted')
    ensures IsSortOf(LONGEST_FIRST, l + [mount], sorted')
  {
  }

  lemma OneMorePlaced(all: seq<Placed>, x: Placed, place: Place)
    ensures MountsAt(all + [x], place) == MountsAt(all, place) + if x.place == place then [x.mount] else []
    ensures Patterns(all + [x]) == Patterns(all) + if x.place.Pattern? then [x] else []
  {
    assert (all + [x])[..|all|] == all;
  }

  /** A mount elsewhere leaves a list as it is. */
  lemma OtherListStays(all: seq<Placed>, x: Placed, place: Place, sorted: MountList)
    requires IsSortOf(LONGEST_FIRST, MountsAt(all, place), sorted) && x.place != place
    ensures IsSortOf(LONGEST_FIRST, MountsAt(all + [x], place), sorted)
  {
    OneMorePlaced(all, x, place);
  }

  lemma OwnListGrows(all: seq<Placed>, place: Place, mount: Mount, sorted: MountList, sorted': MountList)
    requires IsSortOf(LONGEST_FIRST, MountsAt(all, place), sorted) && IsSortOf(LONGEST_FIRST, sorted + [mount], sorted')
    ensures IsSortOf(LONGEST_FIRST, MountsAt(all + [Placed(place, mount)], place), sorted')
  {
    OneMorePlaced(all, Placed(place, mount), place);
    AddedToSorted(MountsAt(all, place), sorted, mount, sorted');
  }

  lemma OtherHostsStay(all: seq<Placed>, t: Table, x: Placed, t': Table, h: string)
    requires HostOk(all, t, h) && x.place != Host(h) && t'.Hostname(h) == t.Hostname(h)
    ensures HostOk(all + [x], t', h)
  {
    OtherListStays(all, x, Host(h), t.Hostname(h));
  }

  lemma TableWithHost(all: seq<Placed>, t: Table, h: string, mount: Mount, list: MountList)
    requires IsTableOf(all, t) && IsSortOf(LONGEST_FIRST, t.Hostname(h) + [mount], list)
    ensures IsTableOf(all + [Placed(Host(h), mount)], t.(hostname := t.hostname[h := list]))
  {
    var x, t' := Placed(Host(h), mount), t.(hostname := t.hostname[h := list]);
    OtherListStays(all, x, Global, t.pathPrefix);
    OneMorePlaced(all, x, Global);
    forall k
      ensures HostOk(all + [x], t', k)
    {
      assert HostOk(all, t, k);
      HostWithHost(all, t, h, mount, list, k);
    }
  }

  lemma HostWithHost(all: seq<Placed>, t: Table, h: string, mount: Mount, list: MountList, k: string)
    requires HostOk(all, t, h) && HostOk(all, t, k) && IsSortOf(LONGEST_FIRST, t.Hostname(h) + [mount], list)
    ensures HostOk(all + [Placed(Host(h), mount)], t.(hostname := t.hostname[h := list]), k)
  {
    if k == h {
      OwnListGrows(all, Host(h), mount, t.Hostname(h), list);
    } else {
      OtherHostsStay(all, t, Placed(Host(h), mount), t.(hostname := t.hostname[h := list]), k);
    }
  }

  lemma TableWithPattern(all: seq<Placed>, t: Table, pattern: string, mount: Mount)
    requires IsTableOf(all, t)
    ensures IsTableOf(all + [Placed(Pattern(pattern), mount)],
                      t.(hostnameRegexp := t.hostnameRegexp + [Placed(Pattern(pattern), mount)]))
  {
    var x := Placed(Pattern(pattern), mount);
    var t' := t.(hostnameRegexp := t.hostnameRegexp + [x]);
    OneMorePlaced(all, x, Global);
    forall k
      ensures HostOk(all + [x], t', k)
    {
      OtherHostsStay(all, t, x, t', k);
    }
  }

  lemma TableWithGlobal(all: seq<Placed>, t: Table, mount: Mount, list: MountList)
    requires IsTableOf(all, t) && IsSortOf(LONGEST_FIRST, t.pathPrefix + [mount], list)
    ensures IsTableOf(all + [Placed(Global, mount)], t.(pathPrefix := list))
  {
    var x, t' := Placed(Global, mount), t.(pathPrefix := list);
    OneMorePlaced(all, x, Global);
    OwnListGrows(all, Global, mount, t.pathPrefix, list);
    forall k
      ensures HostOk(all + [x], t', k)
    {
      OtherHostsStay(all, t, x, t', k);
    }
  }

  method BuildMatchers(p: Platform, apps: seq<Application>) returns (r: Result<FrontendMatchers, BuildError>)
    ensures r.Ok? <==> Accepted(p, apps)
    ensures r.Ok? <==> PlaceAll(p, apps).Ok?
    ensures r.Ok? ==> fresh(r.value) && IsTableOf(PlaceAll(p, apps).value, r.value.Contents())
    ensures r.Ok? ==> forall hostname, path :: AsConfigured(p, apps, Resolve(p, r.value.Contents(), hostname, path), hostname, path)
    ensures r.Err? ==> r.error == PlaceAll(p, apps).error && IsRejected(p, apps, r.error)
  {
    AcceptedIff(p, apps);
    var fem := new FrontendMatchers();
    ghost var all: seq<Placed> := [];
    for i := 0 to |apps|
      invariant PlaceAll(p, apps[..i]) == Ok(all)
      invariant IsTableOf(all, fem.Contents())
    {
      assert apps[..i + 1][..i] == apps[..i];
      var app := apps[i];
      var backend := p.backendOf(app);
      if backend.None? {
        PlaceAllFails(p, apps, i + 1);
        return Err(NoBackend(app.id));
      }
      var error := fem.AddApp(p, app, backend.value, all);
      if error.Some? {
        PlaceAllFails(p, apps, i + 1);
        return Err(error.value);
      }
      all := all + PlaceApp(p, app).value;
    }
    assert apps[..|apps|] == apps;
    TableAsConfigured(p, apps, fem.Contents());
    r := Ok(fem);
  }

  lemma OneMoreFrontend(p: Platform, app: Application, backend: Handler, n: nat, placed: seq<Placed>)
    requires n < |app.frontends| && PlaceFrontends(p, app, backend, n) == Ok(placed)
    ensures var f := app.frontends[n];
            PlaceFrontends(p, app, backend, n + 1) ==
            match PlaceOf(p, f) case Err(e) => Err(e) case Ok(place) => Ok(placed + [Placed(place, MountOf(app, backend, f))])
  {
  }

  lemma {:induction false} PlaceFrontendsFails(p: Platform, app: Application, backend: Handler, i: nat, n: nat)
    requires i <= n <= |app.frontends| && PlaceFrontends(p, app, backend, i).Err?
    ensures PlaceFrontends(p, app, backend, n) == PlaceFrontends(p, app, backend, i)
  {
    if i < n {
      PlaceFrontendsFails(p, app, backend, i, n - 1);
    }
  }

  lemma {:induction false} PlaceAllFails(p: Platform, apps: seq<Application>, i: nat)
    requires i <= |apps| && PlaceAll(p, apps[..i]).Err?
    ensures PlaceAll(p, apps) == PlaceAll(p, apps[..i])
    decreases |apps|
  {
    if i < |apps| {
      assert apps[..|apps| - 1][..i] == apps[..i];
      PlaceAllFails(p, apps[..|apps| - 1], i);
    } else {
      assert apps[..i] == apps;
    }
  }

  // --- finding the mount of a request ---

  /** The index of the first mount whose prefix matches, or the length. */
  function FirstIndex(l: MountList, path: string): (i: nat)
    ensures i <= |l|
    ensures i < |l| ==> PathMatches(l[i].prefix, path)
    ensures forall k :: 0 <= k < i ==> !PathMatches(l[k].prefix, path)
  {
    if l == [] || PathMatches(l[0].prefix, path) then 0 else 1 + FirstIndex(l[1..], path)
  }

  function FirstMatch(l: MountList, path: string): Option<Mount> {
    var i := FirstIndex(l, path);
    if i < |l| then Some(l[i]) else None
  }

  function FirstPattern(p: Platform, patterns: seq<Placed>, hostname: string, path: string): Option<Mount> {
    if patterns == [] then None
    else if Applies(p, patterns[0], hostname, path) then Some(patterns[0].mount)
    else FirstPattern(p, patterns[1..], hostname, path)
  }

  /** Whether a configured mount is for this request at all. */
  predicate Applies(p: Platform, x: Placed, hostname: string, path: string) {
    && PathMatches(x.mount.prefix, path)
    && match x.place
       case Global => true
       case Host(h) => h == hostname
       case Pattern(pattern) => p.matches(pattern, hostname)
  }

  function Resolve(p: Platform, t: Table, hostname: string, path: string): Option<Mount> {
    if FirstMatch(t.pathPrefix, path).Some? then FirstMatch(t.pathPrefix, path)
    else if FirstMatch(t.Hostname(hostname), path).Some? then FirstMatch(t.Hostname(hostname), path)
    else FirstPattern(p, t.hostnameRegexp, hostname, path)
  }

  method ScanMounts(l: MountList, path: string) returns (r: Option<Mount>)
    ensures r == FirstMatch(l, path)
  {
    for i := 0 to |l|
      invariant forall k :: 0 <= k < i ==> !PathMatches(l[k].prefix, path)
    {
      if PathMatches(l[i].prefix, path) {
        assert FirstIndex(l, path) == i;
        return Some(l[i]);
      }
    }
    r := None;
  }

  method ResolveMount(p: Platform, matchers: FrontendMatchers, hostname: string, path: string) returns (r: Option<Mount>)
    ensures r == Resolve(p, matchers.Contents(), hostname, path)
  {
    r := ScanMounts(matchers.pathPrefix, path);
    if r.Some? {
      return;
    }
    if hostname in matchers.hostname {
      r := ScanMounts(matchers.hostname[hostname], path);
      if r.Some? {
        return;
      }
    }
    var patterns := matchers.hostnameRegexp;
    for i := 0 to |patterns|
      invariant FirstPattern(p, patterns, hostname, path) == FirstPattern(p, patterns[i..], hostname, path)
    {
      assert patterns[i..][0] == patterns[i] && patterns[i..][1..] == patterns[i + 1..];
      if Applies(p, patterns[i], hostname, path) {
        return Some(patterns[i].mount);
      }
    }
    r := None;
  }

  // --- the table finds what the configuration says ---

  lemma {:induction false} MountsAtHasAll(all: seq<Placed>, place: Place)
    ensures forall m :: m in MountsAt(all, place) <==> Placed(place, m) in all
  {
    if all != [] {
      MountsAtHasAll(all[..|all| - 1], place);
      assert all == all[..|all| - 1] + [all[|all| - 1]];
    }
  }

  lemma {:induction false} FirstPatternIs(p: Platform, patterns: seq<Placed>, hostname: string, path: string)
    requires forall x :: x in patterns ==> x.place.Pattern?
    ensures var r := FirstPattern(p, patterns, hostname, path);
            if r.None? then forall i :: 0 <= i < |patterns| ==> !Applies(p, patterns[i], hostname, path)
            else exists i :: 0 <= i < |patterns| && Applies(p, patterns[i], hostname, path) && patterns[i].mount == r.value
                             && forall k :: 0 <= k < i ==> !Applies(p, patterns[k], hostname, path)
  {
    if patterns == [] || Applies(p, patterns[0], hostname, path) {
    } else {
      FirstPatternIs(p, patterns[1..], hostname, path);
      var r := FirstPattern(p, patterns, hostname, path);
      if r.Some? {
        var i :| 0 <= i < |patterns[1..]| && Applies(p, patterns[1..][i], hostname, path)
                 && patterns[1..][i].mount == r.value
                 && forall k :: 0 <= k < i ==> !Applies(p, patterns[1..][k], hostname, path);
        assert Applies(p, patterns[i + 1], hostname, path);
        forall k | 0 <= k < i + 1
          ensures !Applies(p, patterns[k], hostname, path)
        {
          assert k > 0 ==> patterns[k] == patterns[1..][k - 1];
        }
      }
    }
  }

  lemma {:induction false} PatternsHasAll(all: seq<Placed>)
    ensures forall x :: x in Patterns(all) <==> x in all && x.place.Pattern?
  {
    if all != [] {
      PatternsHasAll(all[..|all| - 1]);
      assert all == all[..|all| - 1] + [all[|all| - 1]];
    }
  }

  lemma SortedHasAll(l: MountList, sorted: MountList)
    requires IsSortOf(LONGEST_FIRST, l, sorted)
    ensures forall m :: m in l <==> m in sorted
  {
    assert forall m :: m in l <==> m in multiset(l);
    assert forall m :: m in sorted <==> m in multiset(sorted);
  }

  /** The rank of the three kinds of rule: global ones win over hostnames, hostnames over patterns. */
  function Tier(place: Place): nat {
    match place
    case Global => 0
    case Host(_) => 1
    case Pattern(_) => 2
  }

  /** A scan of one place's list finds a mount of that place that applies, if there is one. */
  lemma ScanFinds(p: Platform, all: seq<Placed>, place: Place, sorted: MountList, hostname: string, path: string)
    requires IsSortOf(LONGEST_FIRST, MountsAt(all, place), sorted)
    requires place == Global || place == Host(hostname)
    ensures var r := FirstMatch(sorted, path);
            && (r.None? <==> forall x :: x in all && x.place == place ==> !Applies(p, x, hostname, path))
            && (r.Some? ==> Placed(place, r.value) in all && Applies(p, Placed(place, r.value), hostname, path))
  {
    MountsAtHasAll(all, place);
    SortedHasAll(MountsAt(all, place), sorted);
    var i := FirstIndex(sorted, path);
    if i < |sorted| {
      assert sorted[i] in sorted;
      assert Placed(place, sorted[i]) in all && Applies(p, Placed(place, sorted[i]), hostname, path);
    } else {
      forall x | x in all && x.place == place
        ensures !Applies(p, x, hostname, path)
      {
        assert x == Placed(place, x.mount);
        assert x.mount in sorted;
      }
    }
  }

  lemma OnlyPatterns(p: Platform, all: seq<Placed>, t: Table, hostname: string, path: string)
    requires t.hostnameRegexp == Patterns(all)
    requires FirstMatch(t.pathPrefix, path).None? && FirstMatch(t.Hostname(hostname), path).None?
    requires forall x :: x in all && (x.place == Global || x.place == Host(hostname)) ==> !Applies(p, x, hostname, path)
    ensures var r := Resolve(p, t, hostname, path);
            if r.None? then forall x :: x in all ==> !Applies(p, x, hostname, path)
            else exists x :: x in all && x.mount == r.value && Applies(p, x, hostname, path)
                             && forall y :: y in all && Applies(p, y, hostname, path) ==> Tier(x.place) <= Tier(y.place)
  {
    PatternsHasAll(all);
    FirstPatternIs(p, t.hostnameRegexp, hostname, path);
    var r := Resolve(p, t, hostname, path);
    forall x | x in all && Applies(p, x, hostname, path)
      ensures x.place.Pattern? && x in t.hostnameRegexp
    {
      assert x.place.Host? ==> x.place == Host(hostname);
    }
    if r.Some? {
      var i :| 0 <= i < |t.hostnameRegexp| && Applies(p, t.hostnameRegexp[i], hostname, path) && t.hostnameRegexp[i].mount == r.value;
      assert t.hostnameRegexp[i] in all;
    }
  }

  /** A request gets a mount exactly if some configured frontend is for it, and then one of the best
      kind there is. */
  lemma ResolvesIff(p: Platform, all: seq<Placed>, t: Table, hostname: string, path: string)
    requires IsTableOf(all, t)
    ensures var r := Resolve(p, t, hostname, path);
            if r.None? then forall x :: x in all ==> !Applies(p, x, hostname, path)
            else exists x :: x in all && x.mount == r.value && Applies(p, x, hostname, path)
                             && forall y :: y in all && Applies(p, y, hostname, path) ==> Tier(x.place) <= Tier(y.place)
  {
    assert HostOk(all, t, hostname);
    ScanFinds(p, all, Global, t.pathPrefix, hostname, path);
    ScanFinds(p, all, Host(hostname), t.Hostname(hostname), hostname, path);
    if FirstMatch(t.pathPrefix, path).Some? {
      assert Tier(Placed(Global, Resolve(p, t, hostname, path).value).place) == 0;
    } else if FirstMatch(t.Hostname(hostname), path).Some? {
      assert Tier(Placed(Host(hostname), Resolve(p, t, hostname, path).value).place) == 1;
    } else {
      OnlyPatterns(p, all, t, hostname, path);
    }
  }

  // --- ... in the configuration's own terms: applications and their frontends ---

  /** Whether a frontend is for a request. */
  predicate Concerns(p: Platform, f: Frontend, hostname: string, path: string) {
    && PathMatches(f.pathPrefix, path)
    && (f.kind == "path_prefix"
        || (f.kind == "hostname" && f.hostname == hostname)
        || (f.kind == "hostname_regexp" && p.matches(f.hostnameRegexp, hostname)))
  }

  /** Rules without a hostname come first, then exact hostnames, then patterns. */
  function Rank(f: Frontend): nat {
    if f.kind == "path_prefix" then 0 else if f.kind == "hostname" then 1 else 2
  }

  /** The mount has all settings of the frontend, and leads to the backend of its application. */
  predicate IsMountOf(p: Platform, m: Mount, app: Application, f: Frontend) {
    && m.prefix == f.pathPrefix && m.stripPrefix == f.stripPathPrefix && m.allowInsecureHTTP == f.allowInsecureHTTP
    && m.app == app && p.backendOf(app) == Some(m.backend)
  }

  predicate IsConfigured(apps: seq<Application>, app: Application, f: Frontend) {
    app in apps && f in app.frontends
  }

  /** No frontend is of a better kind for the request. */
  ghost predicate NoneBetter(p: Platform, apps: seq<Application>, f: Frontend, hostname: string, path: string) {
    forall app', f' :: IsConfigured(apps, app', f') && Concerns(p, f', hostname, path) ==> Rank(f) <= Rank(f')
  }

  /** What a request must get: nothing exactly if no frontend is for it, else what a frontend of the best
      kind says. */
  ghost predicate AsConfigured(p: Platform, apps: seq<Application>, r: Option<Mount>, hostname: string, path: string) {
    if r.None? then forall app, f :: IsConfigured(apps, app, f) ==> !Concerns(p, f, hostname, path)
    else
      exists app, f :: IsConfigured(apps, app, f) && Concerns(p, f, hostname, path) && IsMountOf(p, r.value, app, f)
                       && NoneBetter(p, apps, f, hostname, path)
  }

  predicate FrontendOk(p: Platform, f: Frontend) {
    || f.kind == "path_prefix" || f.kind == "hostname"
    || (f.kind == "hostname_regexp" && p.compiles(f.hostnameRegexp))
  }

  /** Every application has a backend, every kind of frontend is known, and every pattern compiles. */
  ghost predicate Accepted(p: Platform, apps: seq<Application>) {
    forall app :: app in apps ==> p.backendOf(app).Some? && forall f :: f in app.frontends ==> FrontendOk(p, f)
  }

  /** Something in the configuration is wrong in the reported way. */
  ghost predicate IsRejected(p: Platform, apps: seq<Application>, e: BuildError) {
    match e
    case NoBackend(appID) => exists app :: app in apps && app.id == appID && p.backendOf(app).None?
    case BadPattern(pattern) =>
      !p.compiles(pattern)
      && exists app, f :: IsConfigured(apps, app, f) && f.kind == "hostname_regexp" && f.hostnameRegexp == pattern
    case UnsupportedKind(kind) =>
      kind !in {"path_prefix", "hostname", "hostname_regexp"} && exists app, f :: IsConfigured(apps, app, f) && f.kind == kind
  }

  /** `x` stands for the frontend. */
  predicate StandsFor(p: Platform, x: Placed, app: Application, f: Frontend) {
    && IsMountOf(p, x.mount, app, f)
    && match x.place
       case Global => f.kind == "path_prefix"
       case Host(h) => f.kind == "hostname" && h == f.hostname
       case Pattern(pattern) => f.kind == "hostname_regexp" && pattern == f.hostnameRegexp
  }

  lemma StandsForRequest(p: Platform, x: Placed, app: Application, f: Frontend, hostname: string, path: string)
    requires StandsFor(p, x, app, f)
    ensures Applies(p, x, hostname, path) <==> Concerns(p, f, hostname, path)
    ensures Tier(x.place) == Rank(f)
  {
  }

  ghost predicate FrontendError(p: Platform, f: Frontend, e: BuildError) {
    match e
    case NoBackend(_) => false
    case BadPattern(pattern) => f.kind == "hostname_regexp" && f.hostnameRegexp == pattern && !p.compiles(pattern)
    case UnsupportedKind(kind) => f.kind == kind && kind !in {"path_prefix", "hostname", "hostname_regexp"}
  }

  lemma PlaceOfFrontend(p: Platform, app: Application, backend: Handler, f: Frontend)
    requires p.backendOf(app) == Some(backend)
    ensures PlaceOf(p, f).Ok? <==> FrontendOk(p, f)
    ensures PlaceOf(p, f).Ok? ==> StandsFor(p, Placed(PlaceOf(p, f).value, MountOf(app, backend, f)), app, f)
    ensures PlaceOf(p, f).Err? ==> FrontendError(p, f, PlaceOf(p, f).error)
  {
  }

  /** The frontends one by one. */
  lemma {:induction false} FrontendsPlaced(p: Platform, app: Application, backend: Handler, n: nat)
    requires n <= |app.frontends| && p.backendOf(app) == Some(backend)
    ensures var r := PlaceFrontends(p, app, backend, n);
            && (r.Ok? <==> forall i :: 0 <= i < n ==> FrontendOk(p, app.frontends[i]))
            && (r.Ok? ==> |r.value| == n && forall i :: 0 <= i < n ==> StandsFor(p, r.value[i], app, app.frontends[i]))
            && (r.Err? ==> exists i :: 0 <= i < n && FrontendError(p, app.frontends[i], r.error))
  {
    if n > 0 {
      FrontendsPlaced(p, app, backend, n - 1);
      PlaceOfFrontend(p, app, backend, app.frontends[n - 1]);
    }
  }

  /** Every placed mount stands for a frontend of `apps`, and every frontend has one. */
  ghost predicate AllPlaced(p: Platform, apps: seq<Application>, all: seq<Placed>) {
    && (forall x :: x in all ==> IsPlacedFor(p, apps, x))
    && (forall app, f :: IsConfigured(apps, app, f) ==> HasPlace(p, all, app, f))
  }

  ghost predicate IsPlacedFor(p: Platform, apps: seq<Application>, x: Placed) {
    exists app, f :: IsConfigured(apps, app, f) && StandsFor(p, x, app, f)
  }

  ghost predicate HasPlace(p: Platform, all: seq<Placed>, app: Application, f: Frontend) {
    exists x :: x in all && StandsFor(p, x, app, f)
  }

  lemma AppPlaced(p: Platform, app: Application)
    requires PlaceApp(p, app).Ok?
    ensures AllPlaced(p, [app], PlaceApp(p, app).value)
  {
    var placed := PlaceApp(p, app).value;
    FrontendsPlaced(p, app, p.backendOf(app).value, |app.frontends|);
    forall x | x in placed
      ensures IsPlacedFor(p, [app], x)
    {
      var i :| 0 <= i < |placed| && placed[i] == x;
      assert IsConfigured([app], app, app.frontends[i]);
    }
    forall a, f | IsConfigured([app], a, f)
      ensures HasPlace(p, placed, a, f)
    {
      var i :| 0 <= i < |app.frontends| && app.frontends[i] == f;
      assert placed[i] in placed;
    }
  }

  lemma {:induction false} AppsPlaced(p: Platform, apps: seq<Application>)
    requires PlaceAll(p, apps).Ok?
    ensures AllPlaced(p, apps, PlaceAll(p, apps).value)
  {
    if apps != [] {
      var rest, last := apps[..|apps| - 1], apps[|apps| - 1];
      AppsPlaced(p, rest);
      AppPlaced(p, last);
      JoinPlaced(p, rest, last, PlaceAll(p, rest).value, PlaceApp(p, last).value);
      assert apps == rest + [last];
    }
  }

  lemma JoinPlaced(p: Platform, rest: seq<Application>, last: Application, a: seq<Placed>, b: seq<Placed>)
    requires AllPlaced(p, rest, a) && AllPlaced(p, [last], b)
    ensures AllPlaced(p, rest + [last], a + b)
  {
    forall x | x in a + b
      ensures IsPlacedFor(p, rest + [last], x)
    {
      var apps := if x in a then rest else [last];
      assert IsPlacedFor(p, apps, x);
      var app, f :| IsConfigured(apps, app, f) && StandsFor(p, x, app, f);
      assert IsConfigured(rest + [last], app, f);
    }
    forall app, f | IsConfigured(rest + [last], app, f)
      ensures HasPlace(p, a + b, app, f)
    {
      if app in rest {
        assert IsConfigured(rest, app, f) && HasPlace(p, a, app, f);
      } else {
        assert IsConfigured([last], app, f) && HasPlace(p, b, app, f);
      }
    }
  }

  /** Which configurations are accepted, and what an error tells. */
  lemma {:induction false} AcceptedIff(p: Platform, apps: seq<Application>)
    ensures PlaceAll(p, apps).Ok? <==> Accepted(p, apps)
    ensures PlaceAll(p, apps).Err? ==> IsRejected(p, apps, PlaceAll(p, apps).error)
  {
    if apps != [] {
      var rest, last := apps[..|apps| - 1], apps[|apps| - 1];
      AcceptedIff(p, rest);
      AppAcceptedIff(p, last);
      assert apps == rest + [last];
      if PlaceAll(p, rest).Err? {
        StillRejected(p, rest, apps, PlaceAll(p, rest).error);
      } else if PlaceApp(p, last).Err? {
        StillRejected(p, [last], apps, PlaceApp(p, last).error);
      }
    }
  }

  lemma AppAcceptedIff(p: Platform, app: Application)
    ensures PlaceApp(p, app).Ok? <==> p.backendOf(app).Some? && forall f :: f in app.frontends ==> FrontendOk(p, f)
    ensures PlaceApp(p, app).Err? ==> IsRejected(p, [app], PlaceApp(p, app).error)
  {
    if p.backendOf(app).Some? {
      FrontendsPlaced(p, app, p.backendOf(app).value, |app.frontends|);
      if PlaceApp(p, app).Err? {
        var e := PlaceApp(p, app).error;
        var i :| 0 <= i < |app.frontends| && FrontendError(p, app.frontends[i], e);
        assert IsConfigured([app], app, app.frontends[i]);
      }
    } else {
      assert app in [app];
    }
  }

  lemma StillRejected(p: Platform, some: seq<Application>, apps: seq<Application>, e: BuildError)
    requires IsRejected(p, some, e) && forall app :: app in some ==> app in apps
    ensures IsRejected(p, apps, e)
  {
    if !e.NoBackend? {
      var app, f :| IsConfigured(some, app, f)
                    && if e.BadPattern? then f.kind == "hostname_regexp" && f.hostnameRegexp == e.pattern else f.kind == e.kind;
      assert IsConfigured(apps, app, f);
    }
  }

  /** A table of an accepted configuration gives every request what the configuration says. */
  lemma TableAsConfigured(p: Platform, apps: seq<Application>, t: Table)
    requires PlaceAll(p, apps).Ok? && IsTableOf(PlaceAll(p, apps).value, t)
    ensures forall hostname, path :: AsConfigured(p, apps, Resolve(p, t, hostname, path), hostname, path)
  {
    var all := PlaceAll(p, apps).value;
    AppsPlaced(p, apps);
    forall hostname, path
      ensures AsConfigured(p, apps, Resolve(p, t, hostname, path), hostname, path)
    {
      ResolvesIff(p, all, t, hostname, path);
      FromPlacesToFrontends(p, apps, all, Resolve(p, t, hostname, path), hostname, path);
    }
  }

  lemma FromPlacesToFrontends(p: Platform, apps: seq<Application>, all: seq<Placed>, r: Option<Mount>, hostname: string, path: string)
    requires AllPlaced(p, apps, all)
    requires if r.None? then forall x :: x in all ==> !Applies(p, x, hostname, path)
             else exists x :: x in all && x.mount == r.value && Applies(p, x, hostname, path)
                              && forall y :: y in all && Applies(p, y, hostname, path) ==> Tier(x.place) <= Tier(y.place)
    ensures AsConfigured(p, apps, r, hostname, path)
  {
    if r.None? {
      forall app, f | IsConfigured(apps, app, f)
        ensures !Concerns(p, f, hostname, path)
      {
        assert HasPlace(p, all, app, f);
        var x :| x in all && StandsFor(p, x, app, f);
        StandsForRequest(p, x, app, f, hostname, path);
      }
    } else {
      var x :| x in all && x.mount == r.value && Applies(p, x, hostname, path)
               && forall y :: y in all && Applies(p, y, hostname, path) ==> Tier(x.place) <= Tier(y.place);
      assert IsPlacedFor(p, apps, x);
      var app, f :| IsConfigured(apps, app, f) && StandsFor(p, x, app, f);
      StandsForRequest(p, x, app, f, hostname, path);
      forall app', f' | IsConfigured(apps, app', f') && Concerns(p, f', hostname, path)
        ensures Rank(f) <= Rank(f')
      {
        assert HasPlace(p, all, app', f');
        var y :| y in all && StandsFor(p, y, app', f');
        StandsForRequest(p, y, app', f', hostname, path);
      }
    }
  }
}
