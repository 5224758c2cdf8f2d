/** Making backends from their configuration, with one cached instance per application. */
module Backends {
  import opened Wrappers
  import opened Strings
  import opened Config

  datatype BackendError = NotMarshalled | Unsupported(kind: string) | NotConstructed

  /** Kinds whose constructors may fail, and those that always succeed. */
  const FALLIBLE := {"s3_static_website", "reverse_proxy", "aws_lambda", "turbocharger", "edgerouter_admin"}
  const INFALLIBLE := {"redirect", "prom_metrics"}

  /** An instance: for which application, from which configuration, and in front of which other one. */
  datatype Instance = Instance(appID: string, conf: Backend, inner: Option<Handler>)

  /** `constructs` says which constructors succeed at the time of a call. */
  type Outcomes = Backend -> bool

  datatype CacheEntry = CacheEntry(backend: Handler, configDigest: Bytes)

  type Cache = map<string, CacheEntry>

  // --- specification ---

  /** The instances made for one configuration, innermost first, even if an outer one fails. */
  function Build(built: seq<Instance>, appID: string, conf: Backend, constructs: Outcomes)
    : (r: (seq<Instance>, Result<Handler, BackendError>))
    ensures built <= r.0
    ensures r.1.Ok? ==> |built| <= r.1.value < |r.0|
  {
    match conf
    case Plain(kind, _) =>
      if kind in INFALLIBLE || (kind in FALLIBLE && constructs(conf)) then
        (built + [Instance(appID, conf, None)], Ok(|built|))
      else (built, Err(if kind in FALLIBLE then NotConstructed else Unsupported(kind)))
    case AuthV0(_, authorized) =>
      var (built', inner) := Build(built, appID, authorized, constructs);
      if inner.Err? then (built', inner)
      else (built' + [Instance(appID, conf, Some(inner.value))], Ok(|built'|))
    case AuthSso(_, authorized) =>
      var (built', inner) := Build(built, appID, authorized, constructs);
      if inner.Err? then (built', inner)
      else if constructs(conf) then (built' + [Instance(appID, conf, Some(inner.value))], Ok(|built'|))
      else (built', Err(NotConstructed))
  }

  function Find(cache: Cache, appID: string, configDigest: Bytes): Option<CacheEntry> {
    if appID in cache && cache[appID].configDigest == configDigest then Some(cache[appID]) else None
  }

  datatype Call = Call(appID: string, conf: Backend, constructs: Outcomes)

  datatype BState = BState(cache: Cache, built: seq<Instance>)

  function Make(marshal: Backend -> Option<Bytes>, s: BState, call: Call): (BState, Result<Handler, BackendError>) {
    match marshal(call.conf)
    case None => (s, Err(NotMarshalled))
    case Some(digest) =>
      match Find(s.cache, call.appID, digest)
      case Some(entry) => (s, Ok(entry.backend))
      case None =>
        var (built, r) := Build(s.built, call.appID, call.conf, call.constructs);
        if r.Err? then (s.(built := built), r)
        else (BState(s.cache[call.appID := CacheEntry(r.value, digest)], built), r)
  }

  // --- the cache object ---

  class BackendCache {
    var perAppID: Cache
    ghost var built: seq<Instance>   // every instance ever made

    constructor ()
      ensures perAppID == map[] && built == []
    {
      perAppID, built := map[], [];
    }

    ghost function State(): BState
      reads this
    {
      BState(perAppID, built)
    }

    method FindEntry(appID: string, configDigest: Bytes) returns (entry: Option<CacheEntry>)
      ensures entry == Find(perAppID, appID, configDigest)
    {
      if appID !in perAppID {
        return None;
      }
      var cached := perAppID[appID];
      if configDigest != cached.configDigest {
        return None;
      }
      entry := Some(cached);
    }

    /** `next` counts the instances made so far. */
    method MakeBackendInternal(appID: string, conf: Backend, constructs: Outcomes, next: nat)
      returns (r: Result<Handler, BackendError>, next': nat)
      requires next == |built|
      modifies this`built
      ensures next' == |built| && (built, r) == Build(old(built), appID, conf, constructs)
      decreases conf
    {
      match conf
      case Plain(kind, _) =>
        if kind in INFALLIBLE || (kind in FALLIBLE && constructs(conf)) {
          built := built + [Instance(appID, conf, None)];
          return Ok(next), next + 1;
        }
        return Err(if kind in FALLIBLE then NotConstructed else Unsupported(kind)), next;
      case AuthV0(_, authorized) =>
        r, next' := MakeBackendInternal(appID, authorized, constructs, next);
        if r.Err? {
          return;
        }
        built := built + [Instance(appID, conf, Some(r.value))];
        r, next' := Ok(next'), next' + 1;
      case AuthSso(_, authorized) =>
        r, next' := MakeBackendInternal(appID, authorized, constructs, next);
        if r.Err? {
          return;
        }
        if !constructs(conf) {
          return Err(NotConstructed), next';
        }
        built := built + [Instance(appID, conf, Some(r.value))];
        r, next' := Ok(next'), next' + 1;
    }

    method MakeBackend(marshal: Backend -> Option<Bytes>, appID: string, conf: Backend, constructs: Outcomes, next: nat)
      returns (r: Result<Handler, BackendError>, next': nat)
      requires next == |built|
      modifies this
      ensures next' == |built| && (State(), r) == Make(marshal, old(State()), Call(appID, conf, constructs))
    {
      var configDigest := marshal(conf);
      if configDigest.None? {
        return Err(NotMarshalled), next;
      }
      var cached := FindEntry(appID, configDigest.value);
      if cached.Some? {
        return Ok(cached.value.backend), next;
      }
      r, next' := MakeBackendInternal(appID, conf, constructs, next);
      if r.Ok? {
        perAppID := perAppID[appID := CacheEntry(r.value, configDigest.value)];
      }
    }
  }

  // --- what an instance is made of ---

  /** `h` is the instance of `conf` for `appID`, with every layer that the configuration nests in
      front of the instance of the next layer. */
  predicate IsBuilt(built: seq<Instance>, h: Handler, appID: string, conf: Backend)
    decreases conf
  {
    && h < |built| && built[h].appID == appID && built[h].conf == conf
    && match conf
       case Plain(_, _) => built[h].inner.None?
       case AuthV0(_, authorized) => built[h].inner.Some? && IsBuilt(built, built[h].inner.value, appID, authorized)
       case AuthSso(_, authorized) => built[h].inner.Some? && IsBuilt(built, built[h].inner.value, appID, authorized)
  }

  lemma {:induction false} StaysBuilt(built: seq<Instance>, built': seq<Instance>, h: Handler, appID: string, conf: Backend)
    requires IsBuilt(built, h, appID, conf) && built <= built'
    ensures IsBuilt(built', h, appID, conf)
    decreases conf
  {
    match conf
    case Plain(_, _) =>
    case AuthV0(_, authorized) => StaysBuilt(built, built', built[h].inner.value, appID, authorized);
    case AuthSso(_, authorized) => StaysBuilt(built, built', built[h].inner.value, appID, authorized);
  }

  /** Every layer's constructor succeeds. */
  predicate Constructible(conf: Backend, constructs: Outcomes) {
    match conf
    case Plain(kind, _) =>
      || kind == "redirect" || kind == "prom_metrics"
      || (constructs(conf)
          && (kind == "s3_static_website" || kind == "reverse_proxy" || kind == "aws_lambda" || kind == "turbocharger"
              || kind == "edgerouter_admin"))
    case AuthV0(_, authorized) => Constructible(authorized, constructs)
    case AuthSso(_, authorized) => constructs(conf) && Constructible(authorized, constructs)
  }

  lemma {:induction false} BuildMakesAllLayers(built: seq<Instance>, appID: string, conf: Backend, constructs: Outcomes)
    ensures var (built', r) := Build(built, appID, conf, constructs);
            && (r.Ok? <==> Constructible(conf, constructs))
            && (r.Ok? ==> IsBuilt(built', r.value, appID, conf))
            && forall k :: |built| <= k < |built'| ==> built'[k].appID == appID
    decreases conf
  {
    var (built', r) := Build(built, appID, conf, constructs);
    if !conf.Plain? {
      var authorized := if conf.AuthV0? then conf.authorizedV0 else conf.authorizedSso;
      BuildMakesAllLayers(built, appID, authorized, constructs);
      var (built1, inner) := Build(built, appID, authorized, constructs);
      if r.Ok? {
        StaysBuilt(built1, built', inner.value, appID, authorized);
      }
    }
  }

  // --- any number of calls ---

  function After(marshal: Backend -> Option<Bytes>, calls: seq<Call>): BState {
    if calls == [] then BState(map[], [])
    else Make(marshal, After(marshal, calls[..|calls| - 1]), calls[|calls| - 1]).0
  }

  function ResultAt(marshal: Backend -> Option<Bytes>, calls: seq<Call>, i: nat): Result<Handler, BackendError>
    requires i < |calls|
  {
    Make(marshal, After(marshal, calls[..i]), calls[i]).1
  }

  /** The last call before `n` that got a backend for the application. */
  function LastSuccess(marshal: Backend -> Option<Bytes>, calls: seq<Call>, n: nat, appID: string): (r: Option<nat>)
    requires n <= |calls|
    ensures r.Some? ==> r.value < n && calls[r.value].appID == appID && ResultAt(marshal, calls, r.value).Ok?
    ensures forall k :: 0 <= k < n && calls[k].appID == appID && ResultAt(marshal, calls, k).Ok? ==> r.Some? && k <= r.value
  {
    if n == 0 then None
    else if calls[n - 1].appID == appID && ResultAt(marshal, calls, n - 1).Ok? then Some(n - 1)
    else LastSuccess(marshal, calls, n - 1, appID)
  }

  /** What the cache has for an application after `n` calls is what its last successful call got. */
  ghost predicate CacheIsLast(marshal: Backend -> Option<Bytes>, calls: seq<Call>, n: nat, appID: string)
    requires n <= |calls|
  {
    var s, last := After(marshal, calls[..n]), LastSuccess(marshal, calls, n, appID);
    if last.None? then appID !in s.cache
    else
      && appID in s.cache
      && ResultAt(marshal, calls, last.value) == Ok(s.cache[appID].backend)
      && marshal(calls[last.value].conf) == Some(s.cache[appID].configDigest)
  }

  lemma {:induction false} CacheHoldsLast(marshal: Backend -> Option<Bytes>, calls: seq<Call>, n: nat, appID: string)
    requires n <= |calls|
    ensures CacheIsLast(marshal, calls, n, appID)
  {
    if n == 0 {
      assert calls[..0] == [];
    } else {
      CacheHoldsLast(marshal, calls, n - 1, appID);
      assert calls[..n][..n - 1] == calls[..n - 1];
      CacheStep(marshal, After(marshal, calls[..n - 1]), calls[n - 1], appID);
    }
  }

  /** A call changes the cache entry of its own application only, and only by success. */
  lemma CacheStep(marshal: Backend -> Option<Bytes>, s: BState, call: Call, appID: string)
    ensures var (s', r) := Make(marshal, s, call);
            if appID == call.appID && r.Ok? then
              && appID in s'.cache && s'.cache[appID].backend == r.value
              && marshal(call.conf) == Some(s'.cache[appID].configDigest)
            else
              (appID in s'.cache <==> appID in s.cache) && (appID in s.cache ==> s'.cache[appID] == s.cache[appID])
  {
  }

  predicate Hit(marshal: Backend -> Option<Bytes>, s: BState, call: Call) {
    marshal(call.conf).Some? && Find(s.cache, call.appID, marshal(call.conf).value).Some?
  }

  lemma MakeOutcome(marshal: Backend -> Option<Bytes>, s: BState, call: Call)
    ensures var (s', r) := Make(marshal, s, call);
            if Hit(marshal, s, call) then s' == s && r == Ok(s.cache[call.appID].backend)
            else
              && (r.Ok? <==> marshal(call.conf).Some? && Constructible(call.conf, call.constructs))
              && (r.Ok? ==> r.value >= |s.built|)
              && (r.Err? ==> s'.cache == s.cache)
  {
    BuildMakesAllLayers(s.built, call.appID, call.conf, call.constructs);
  }

  /** The configuration's JSON is that of the application's last success. */
  predicate Unchanged(marshal: Backend -> Option<Bytes>, calls: seq<Call>, i: nat)
    requires i < |calls|
  {
    var last := LastSuccess(marshal, calls, i, calls[i].appID);
    last.Some? && marshal(calls[i].conf) == marshal(calls[last.value].conf)
  }

  lemma HitIffUnchanged(marshal: Backend -> Option<Bytes>, calls: seq<Call>, i: nat)
    requires i < |calls|
    ensures Hit(marshal, After(marshal, calls[..i]), calls[i]) <==> Unchanged(marshal, calls, i)
    ensures Unchanged(marshal, calls, i) ==>
              ResultAt(marshal, calls, LastSuccess(marshal, calls, i, calls[i].appID).value)
              == Ok(After(marshal, calls[..i]).cache[calls[i].appID].backend)
  {
    CacheHoldsLast(marshal, calls, i, calls[i].appID);
    assert CacheIsLast(marshal, calls, i, calls[i].appID);
  }

  /** A failure leaves the cache as it was; a new instance is made exactly if the configuration's JSON
      differs from that of the application's last success; otherwise that very instance is reused. */
  lemma NewIffChanged(marshal: Backend -> Option<Bytes>, calls: seq<Call>, i: nat)
    requires i < |calls|
    ensures var s, s', r := After(marshal, calls[..i]), After(marshal, calls[..i + 1]), ResultAt(marshal, calls, i);
            if Unchanged(marshal, calls, i) then
              s' == s && r == ResultAt(marshal, calls, LastSuccess(marshal, calls, i, calls[i].appID).value)
            else
              && (r.Ok? <==> marshal(calls[i].conf).Some? && Constructible(calls[i].conf, calls[i].constructs))
              && (r.Ok? ==> r.value >= |s.built|)
              && (r.Err? ==> s'.cache == s.cache)
  {
    assert calls[..i + 1][..i] == calls[..i];
    HitIffUnchanged(marshal, calls, i);
    MakeOutcome(marshal, After(marshal, calls[..i]), calls[i]);
  }

  lemma {:induction false} BuiltGrows(marshal: Backend -> Option<Bytes>, calls: seq<Call>, i: nat, j: nat)
    requires i <= j <= |calls|
    ensures After(marshal, calls[..i]).built <= After(marshal, calls[..j]).built
    decreases j
  {
    if i < j {
      BuiltGrows(marshal, calls, i, j - 1);
      assert calls[..j][..j - 1] == calls[..j - 1];
    }
  }

  lemma NewIsConfigured(marshal: Backend -> Option<Bytes>, calls: seq<Call>, i: nat)
    requires i < |calls| && ResultAt(marshal, calls, i).Ok? && !Unchanged(marshal, calls, i)
    ensures IsBuilt(After(marshal, calls[..i + 1]).built, ResultAt(marshal, calls, i).value, calls[i].appID, calls[i].conf)
  {
    assert calls[..i + 1][..i] == calls[..i];
    HitIffUnchanged(marshal, calls, i);
    BuildMakesAllLayers(After(marshal, calls[..i]).built, calls[i].appID, calls[i].conf, calls[i].constructs);
  }

  /** Whatever is returned was made for the same application, layer by layer, from a configuration
      with the same JSON. */
  lemma {:induction false} ReturnedIsConfigured(marshal: Backend -> Option<Bytes>, calls: seq<Call>, i: nat)
    returns (origin: nat)
    requires i < |calls| && ResultAt(marshal, calls, i).Ok?
    ensures origin <= i && calls[origin].appID == calls[i].appID
    ensures marshal(calls[origin].conf) == marshal(calls[i].conf)
    ensures IsBuilt(After(marshal, calls[..i + 1]).built, ResultAt(marshal, calls, i).value, calls[i].appID, calls[origin].conf)
    decreases i
  {
    var call := calls[i];
    NewIffChanged(marshal, calls, i);
    if Unchanged(marshal, calls, i) {
      var last := LastSuccess(marshal, calls, i, call.appID);
      origin := ReturnedIsConfigured(marshal, calls, last.value);
      BuiltGrows(marshal, calls, last.value + 1, i + 1);
      StaysBuilt(After(marshal, calls[..last.value + 1]).built, After(marshal, calls[..i + 1]).built,
                 ResultAt(marshal, calls, i).value, call.appID, calls[origin].conf);
    } else {
      origin := i;
      NewIsConfigured(marshal, calls, i);
    }
  }

  /** Two applications never share an instance. */
  lemma NeverShared(marshal: Backend -> Option<Bytes>, calls: seq<Call>, i: nat, j: nat)
    requires i < |calls| && j < |calls| && ResultAt(marshal, calls, i).Ok?
    requires ResultAt(marshal, calls, i) == ResultAt(marshal, calls, j)
    ensures calls[i].appID == calls[j].appID
  {
    var a := ReturnedIsConfigured(marshal, calls, i);
    var b := ReturnedIsConfigured(marshal, calls, j);
    if i <= j { BuiltGrows(marshal, calls, i + 1, j + 1); } else { BuiltGrows(marshal, calls, j + 1, i + 1); }
  }
}
