/** Which mount wins when several match: exactly when it is the most specific one, and exactly when
    the order of the configuration does not matter. */
module MostSpecific {
  import opened Wrappers
  import opened Config
  import opened Permutations
  import opened Sorting
  import opened Routing

  function Norm(m: Mount): string {
    TrimSlashes(m.prefix)
  }

  /** Paths of requests begin with a slash. */
  predicate Rooted(path: string) {
    "/" <= path
  }

  predicate Matches(m: Mount, path: string) {
    PathMatches(m.prefix, path)
  }

  /** For a rooted path only the normal form of a prefix matters. */
  lemma MatchesByNorm(m: Mount, path: string)
    requires Rooted(path)
    ensures Matches(m, path) <==> path == Norm(m) || Norm(m) + "/" <= path
  {
    if m.prefix == "/" {
      assert TrimSlashes("/") == "";
    }
  }

  /** The parts between slashes. */
  function Segments(s: string): (parts: seq<string>)
    ensures parts != []
  {
    if s == "" then [""]
    else if s[0] == '/' then [""] + Segments(s[1..])
    else Glue(s[0], Segments(s[1..]))
  }

  function Glue(c: char, parts: seq<string>): seq<string>
    requires parts != []
  {
    [[c] + parts[0]] + parts[1..]
  }

  lemma GluePrefix(c: char, a: seq<string>, b: seq<string>)
    requires a != [] && b != []
    ensures Glue(c, a) <= Glue(c, b) <==> a <= b
  {
    assert Glue(c, a)[0][1..] == a[0] && Glue(c, b)[0][1..] == b[0];
    assert Glue(c, a)[1..] == a[1..] && Glue(c, b)[1..] == b[1..];
    assert a == [a[0]] + a[1..] && b == [b[0]] + b[1..];
  }

  lemma {:induction false} SegmentsPrefix(n: string, path: string)
    ensures Segments(n) <= Segments(path) <==> path == n || n + "/" <= path
  {
    if n != "" && path != "" && n[0] == path[0] {
      var n', path' := n[1..], path[1..];
      SegmentsPrefix(n', path');
      assert n == [n[0]] + n' && path == [n[0]] + path' && n + "/" == [n[0]] + (n' + "/");
      if n[0] == '/' {
        assert Segments(n)[1..] == Segments(n') && Segments(path)[1..] == Segments(path');
      } else {
        GluePrefix(n[0], Segments(n'), Segments(path'));
      }
    } else {
      OtherBeginning(n, path);
    }
  }

  lemma FirstSegment(s: string)
    ensures Segments(s)[0] == "" <==> s == "" || s[0] == '/'
    ensures s != "" && s[0] == '/' ==> |Segments(s)| > 1
    ensures s != "" && s[0] != '/' ==> Segments(s)[0] != "" && Segments(s)[0][0] == s[0]
  {
  }

  lemma OtherBeginning(n: string, path: string)
    requires n == "" || path == "" || n[0] != path[0]
    ensures Segments(n) <= Segments(path) <==> path == n || n + "/" <= path
  {
    FirstSegment(n);
    FirstSegment(path);
    if n == "" {
      assert Segments(path) == [Segments(path)[0]] + Segments(path)[1..];
      assert "" + "/" == "/";
    } else {
      assert (n + "/")[0] == n[0];
      assert Segments(n)[0] == Segments(path)[0] || !(Segments(n) <= Segments(path));
    }
  }

  /** A mount is for the paths whose first segments are those of its prefix: "/foo" is for "/foo" and
      "/foo/bar" but not for "/foobar", and trailing slashes of the prefix are ignored. */
  lemma MatchesBySegments(m: Mount, path: string)
    requires Rooted(path)
    ensures Matches(m, path) <==> Segments(Norm(m)) <= Segments(path)
  {
    MatchesByNorm(m, path);
    SegmentsPrefix(Norm(m), path);
  }

  /** The first match for every rooted path has the longest normal form of all that match. */
  ghost predicate LongestWins(l: MountList) {
    forall path :: Rooted(path) ==> LongestWinsFor(l, path)
  }

  ghost predicate LongestWinsFor(l: MountList, path: string) {
    var i := FirstIndex(l, path);
    i < |l| ==> forall m :: m in l && Matches(m, path) ==> |Norm(m)| <= |Norm(l[i])|
  }

  /** `m` serves a part of what `outer` serves. */
  predicate Nested(outer: Mount, m: Mount) {
    Rooted(Norm(m)) && Norm(outer) + "/" <= Norm(m)
  }

  /** No mount comes after one that serves more, unless a mount with the same normal form came earlier. */
  ghost predicate NoneShadowed(l: MountList) {
    forall i, j :: 0 <= i < j < |l| && Nested(l[i], l[j]) ==> exists k :: 0 <= k < i && Norm(l[k]) == Norm(l[j])
  }

  lemma LongestInListIff(l: MountList)
    ensures LongestWins(l) <==> NoneShadowed(l)
  {
    if LongestWins(l) {
      forall i, j | 0 <= i < j < |l| && Nested(l[i], l[j])
        ensures exists k :: 0 <= k < i && Norm(l[k]) == Norm(l[j])
      {
        EarlierTwin(l, i, j);
      }
    }
    if NoneShadowed(l) {
      forall path | Rooted(path)
        ensures LongestWinsFor(l, path)
      {
        NoneLonger(l, path);
      }
    }
  }

  lemma EarlierTwin(l: MountList, i: nat, j: nat)
    requires LongestWins(l) && i < j < |l| && Nested(l[i], l[j])
    ensures exists k :: 0 <= k < i && Norm(l[k]) == Norm(l[j])
  {
    var path := Norm(l[j]);
    assert LongestWinsFor(l, path);
    var f := FirstIndex(l, path);
    MatchesByNorm(l[i], path);
    MatchesByNorm(l[j], path);
    assert f <= i && l[j] in l;
    MatchesByNorm(l[f], path);
    assert Norm(l[f]) == path;
  }

  lemma NoneLonger(l: MountList, path: string)
    requires NoneShadowed(l) && Rooted(path)
    ensures LongestWinsFor(l, path)
  {
    var i := FirstIndex(l, path);
    if i < |l| {
      forall m | m in l && Matches(m, path)
        ensures |Norm(m)| <= |Norm(l[i])|
      {
        var j :| 0 <= j < |l| && l[j] == m;
        NotLonger(l, path, j);
      }
    }
  }

  lemma NotLonger(l: MountList, path: string, j: nat)
    requires NoneShadowed(l) && Rooted(path) && j < |l| && Matches(l[j], path)
    ensures FirstIndex(l, path) <= j && |Norm(l[j])| <= |Norm(l[FirstIndex(l, path)])|
  {
    var i := FirstIndex(l, path);
    EarlierMatches(l, l[j], path, i);
    if i < j && |Norm(l[j])| > |Norm(l[i])| {
      LongerIsNested(l[i], l[j], path);
    }
  }

  /** No mount before the first match has the normal form of one that matches. */
  lemma EarlierMatches(l: MountList, m: Mount, path: string, i: nat)
    requires Rooted(path) && Matches(m, path) && i <= FirstIndex(l, path)
    ensures forall k :: 0 <= k < i ==> Norm(l[k]) != Norm(m)
  {
    MatchesByNorm(m, path);
    forall k | 0 <= k < i
      ensures Norm(l[k]) != Norm(m)
    {
      MatchesByNorm(l[k], path);
    }
  }

  lemma LongerIsNested(outer: Mount, m: Mount, path: string)
    requires Rooted(path) && Matches(outer, path) && Matches(m, path) && |Norm(m)| > |Norm(outer)|
    ensures Nested(outer, m)
  {
    MatchesByNorm(outer, path);
    MatchesByNorm(m, path);
    assert Norm(m) <= path;
  }

  // --- ... for what is configured, however the unstable sort leaves it ---

  /** Whatever serves more is spelled shorter than some mount with the same normal form. */
  ghost predicate OuterIsShorter(s: MountList) {
    forall o, m :: o in s && m in s && Nested(o, m) ==> HasLonger(s, m, o)
  }

  ghost predicate HasLonger(s: MountList, m: Mount, o: Mount) {
    exists z :: z in s && Norm(z) == Norm(m) && |z.prefix| > |o.prefix|
  }

  lemma LongerTwinIsEarlier(s: MountList, a: MountList, i: nat, j: nat)
    requires IsSortOf(LONGEST_FIRST, s, a) && i < |a| && j < |a| && HasLonger(s, a[j], a[i])
    ensures exists k :: 0 <= k < i && Norm(a[k]) == Norm(a[j])
  {
    var z :| z in s && Norm(z) == Norm(a[j]) && |z.prefix| > |a[i].prefix|;
    var k := PlaceIn(s, a, z);
    assert forall q :: i < q < |a| ==> !LONGEST_FIRST(a[q], a[i]);
    assert k < i;
  }

  lemma OuterIsShorterSuffices(s: MountList, a: MountList)
    requires OuterIsShorter(s) && IsSortOf(LONGEST_FIRST, s, a)
    ensures LongestWins(a)
  {
    SortedHasAll(s, a);
    forall i, j | 0 <= i < j < |a| && Nested(a[i], a[j])
      ensures exists k :: 0 <= k < i && Norm(a[k]) == Norm(a[j])
    {
      assert a[i] in a && a[j] in a;
      LongerTwinIsEarlier(s, a, i, j);
    }
    LongestInListIff(a);
  }

  /** Some sort puts `a[i]` before all others of its length. */
  lemma {:induction false} AheadOfEquals(a: MountList, i: nat) returns (b: MountList, f: nat)
    requires SortedBy(LONGEST_FIRST, a) && i < |a|
    ensures SortedBy(LONGEST_FIRST, b) && multiset(b) == multiset(a)
    ensures f < |b| && b[f] == a[i] && forall k :: 0 <= k < f ==> |b[k].prefix| > |a[i].prefix|
    decreases i
  {
    b, f := a, i;
    if i > 0 && |a[i - 1].prefix| == |a[i].prefix| {
      var c := a[i - 1 := a[i]][i := a[i - 1]];
      assert SortedBy(LONGEST_FIRST, c) && multiset(c) == multiset(a) by {
        LongestFirstIsOrder();
        SwapKeepsSorted(LONGEST_FIRST, a, i - 1, i);
      }
      b, f := AheadOfEquals(c, i - 1);
    } else if i > 0 {
      forall k | 0 <= k < i
        ensures |a[k].prefix| > |a[i].prefix|
      {
        assert !LONGEST_FIRST(a[i], a[i - 1]);
        assert k < i - 1 ==> !LONGEST_FIRST(a[i - 1], a[k]);
      }
    }
  }

  lemma OuterCanWin(s: MountList, o: Mount, m: Mount) returns (b: MountList)
    requires o in s && m in s && Nested(o, m) && !HasLonger(s, m, o)
    ensures IsSortOf(LONGEST_FIRST, s, b) && !LongestWins(b)
  {
    var a := SortedListExists(s);
    var i := PlaceIn(s, a, o);
    var f;
    b, f := AheadOfEquals(a, i);
    assert IsSortOf(LONGEST_FIRST, s, b);
    FrontShadows(s, b, f, m);
  }

  lemma FrontShadows(s: MountList, b: MountList, f: nat, m: Mount)
    requires IsSortOf(LONGEST_FIRST, s, b) && f < |b| && m in s && Nested(b[f], m) && !HasLonger(s, m, b[f])
    requires forall k :: 0 <= k < f ==> |b[k].prefix| > |b[f].prefix|
    ensures !LongestWins(b)
  {
    SortedHasAll(s, b);
    var j := PlaceIn(s, b, m);
    forall k | 0 <= k < f
      ensures Norm(b[k]) != Norm(m)
    {
      assert b[k] in b;
    }
    assert f < j by {
      assert Norm(b[f]) != Norm(m);
    }
    LongestInListIff(b);
  }

  /** However the sort leaves mounts of equal length, the most specific one wins for every rooted path,
      if and only if whatever serves more paths is spelled shorter. */
  lemma LongestWinsIff(s: MountList)
    ensures (forall a :: IsSortOf(LONGEST_FIRST, s, a) ==> LongestWins(a)) <==> OuterIsShorter(s)
  {
    if OuterIsShorter(s) {
      forall a | IsSortOf(LONGEST_FIRST, s, a)
        ensures LongestWins(a)
      {
        OuterIsShorterSuffices(s, a);
      }
    } else {
      var o, m :| o in s && m in s && Nested(o, m) && !HasLonger(s, m, o);
      var b := OuterCanWin(s, o, m);
    }
  }

  /** At most one trailing slash. */
  predicate Tidy(m: Mount) {
    |m.prefix| <= |Norm(m)| + 1
  }

  ghost predicate AllTidy(l: MountList) {
    forall m :: m in l ==> Tidy(m)
  }

  /** A nested normal form is longer by two at least, which one trailing slash cannot make up for. */
  lemma NestedIsLonger(outer: Mount, m: Mount)
    requires Tidy(outer) && Nested(outer, m)
    ensures |m.prefix| > |outer.prefix|
  {
    assert Norm(m)[|Norm(outer)|] == '/';
    assert |Norm(m)| > |Norm(outer)| + 1;
  }

  /** Sorting by the length of the raw prefix is enough for prefixes with at most one trailing slash. */
  lemma TidyLongestWins(s: MountList, a: MountList)
    requires AllTidy(s) && IsSortOf(LONGEST_FIRST, s, a)
    ensures LongestWins(a)
  {
    forall o, m | o in s && m in s && Nested(o, m)
      ensures HasLonger(s, m, o)
    {
      NestedIsLonger(o, m);
    }
    OuterIsShorterSuffices(s, a);
  }

  /** With more slashes it is not: "/a///" is longer than "/a/b" and takes its requests. */
  lemma UntidyCanShadow(app: Application, backend: Handler)
    ensures var outer, inner := Mount("/a///", false, app, backend, false), Mount("/a/b", false, app, backend, false);
            && SortedBy(LONGEST_FIRST, [outer, inner])
            && FirstMatch([outer, inner], "/a/b") == Some(outer) && Matches(inner, "/a/b") && !LongestWins([outer, inner])
  {
    var outer, inner := Mount("/a///", false, app, backend, false), Mount("/a/b", false, app, backend, false);
    assert TrimSlashes("/a/b") == "/a/b";
    assert TrimSlashes("/a///") == "/a" by {
      assert "/a///"[..4] == "/a//" && "/a//"[..3] == "/a/" && "/a/"[..2] == "/a";
      assert TrimSlashes("/a") == "/a" && TrimSlashes("/a/") == "/a" && TrimSlashes("/a//") == "/a";
    }
    assert "/a" + "/" <= "/a/b";
    assert FirstIndex([outer, inner], "/a/b") == 0;
    assert inner in [outer, inner] && !LongestWinsFor([outer, inner], "/a/b");
  }

  // --- what a request gets ---

  /** Among the rules of the kind that decides, the most specific one does, as long as that kind is
      not "pattern" and what serves more is spelled shorter. */
  lemma MostSpecificWins(p: Platform, all: seq<Placed>, t: Table, place: Place, hostname: string, path: string)
    requires IsTableOf(all, t) && Rooted(path) && OuterIsShorter(MountsAt(all, place))
    requires place == Global || (place == Host(hostname) && FirstMatch(t.pathPrefix, path).None?)
    requires exists x :: x in all && x.place == place && Applies(p, x, hostname, path)
    ensures var r := Resolve(p, t, hostname, path);
            && r.Some? && Placed(place, r.value) in all && Applies(p, Placed(place, r.value), hostname, path)
            && forall y :: y in all && y.place == place && Applies(p, y, hostname, path) ==> |Norm(y.mount)| <= |Norm(r.value)|
  {
    assert HostOk(all, t, hostname);
    var l := if place == Global then t.pathPrefix else t.Hostname(hostname);
    ScanFinds(p, all, place, l, hostname, path);
    MountsAtHasAll(all, place);
    SortedHasAll(MountsAt(all, place), l);
    OuterIsShorterSuffices(MountsAt(all, place), l);
    assert LongestWinsFor(l, path);
    forall y | y in all && y.place == place && Applies(p, y, hostname, path)
      ensures y.mount in l && Matches(y.mount, path)
    {
      assert y == Placed(place, y.mount);
    }
  }

  // --- the order of the configuration ---

  /** `z` is for every rooted path that `y` is for. */
  predicate Covers(z: Mount, y: Mount) {
    Norm(z) == Norm(y) || Norm(z) + "/" <= Norm(y)
  }

  /** The shortest rooted path that `y` is for, if it is for any. */
  function OwnPath(y: Mount): string {
    if Norm(y) == "" then "/" else Norm(y)
  }

  /** Two different mounts that are sorted arbitrarily and are both for the own path of `y`, for which
      no mount with a longer prefix is. */
  ghost predicate Contest(s: MountList, x: Mount, y: Mount) {
    && x in s && y in s && x != y && |x.prefix| == |y.prefix|
    && Rooted(OwnPath(y)) && Covers(x, y)
    && forall z :: z in s && Covers(z, y) ==> |z.prefix| <= |x.prefix|
  }

  ghost predicate Uncontested(s: MountList) {
    forall x, y :: !Contest(s, x, y)
  }

  ghost predicate SameWinner(s: MountList, path: string) {
    forall a, b :: IsSortOf(LONGEST_FIRST, s, a) && IsSortOf(LONGEST_FIRST, s, b) ==> FirstMatch(a, path) == FirstMatch(b, path)
  }

  lemma CoversIff(z: Mount, y: Mount)
    requires Rooted(OwnPath(y))
    ensures Matches(z, OwnPath(y)) <==> Covers(z, y)
  {
    MatchesByNorm(z, OwnPath(y));
  }

  lemma CoveredPath(z: Mount, y: Mount, path: string)
    requires Rooted(path) && Matches(y, path) && Covers(z, y)
    ensures Matches(z, path)
  {
    MatchesByNorm(z, path);
    MatchesByNorm(y, path);
    assert Norm(y) <= path;
  }

  lemma OneCovers(x: Mount, y: Mount, path: string)
    requires Rooted(path) && Matches(x, path) && Matches(y, path)
    ensures Covers(x, y) || Covers(y, x)
    ensures Rooted(OwnPath(x)) && Rooted(OwnPath(y))
  {
    MatchesByNorm(x, path);
    MatchesByNorm(y, path);
    assert Norm(x) <= path && Norm(y) <= path;
  }

  /** A winner has the longest prefix of all that match. */
  lemma WinnerIsLongest(s: MountList, a: MountList, path: string, m: Mount)
    requires IsSortOf(LONGEST_FIRST, s, a) && m in s && Matches(m, path)
    ensures var w := FirstMatch(a, path);
            w.Some? && w.value in s && Matches(w.value, path) && |m.prefix| <= |w.value.prefix|
  {
    SortedHasAll(s, a);
    var j := PlaceIn(s, a, m);
    var i := FirstIndex(a, path);
    assert i <= j;
    assert i < j ==> !LONGEST_FIRST(a[j], a[i]);
    assert a[i] in a;
  }

  lemma WinnersContest(s: MountList, a: MountList, b: MountList, path: string)
    requires Rooted(path) && IsSortOf(LONGEST_FIRST, s, a) && IsSortOf(LONGEST_FIRST, s, b)
    requires FirstMatch(a, path).Some? && FirstMatch(b, path).Some?
    ensures var x, y := FirstMatch(a, path).value, FirstMatch(b, path).value; x == y || Contest(s, x, y) || Contest(s, y, x)
  {
    var x, y := FirstMatch(a, path).value, FirstMatch(b, path).value;
    SortedHasAll(s, a);
    SortedHasAll(s, b);
    assert x in a && y in b;
    WinnerIsLongest(s, b, path, x);
    WinnerIsLongest(s, a, path, y);
    OneCovers(x, y, path);
    forall z | z in s && (Covers(z, x) || Covers(z, y))
      ensures |z.prefix| <= |x.prefix|
    {
      if Covers(z, x) { CoveredPath(z, x, path); } else { CoveredPath(z, y, path); }
      WinnerIsLongest(s, a, path, z);
    }
  }

  lemma UncontestedSameWinner(s: MountList, a: MountList, b: MountList, path: string)
    requires Rooted(path) && Uncontested(s)
    requires IsSortOf(LONGEST_FIRST, s, a) && IsSortOf(LONGEST_FIRST, s, b)
    ensures FirstMatch(a, path) == FirstMatch(b, path)
  {
    SortedHasAll(s, a);
    SortedHasAll(s, b);
    var x, y := FirstMatch(a, path), FirstMatch(b, path);
    if x.Some? {
      assert x.value in a;
      WinnerIsLongest(s, b, path, x.value);
      WinnersContest(s, a, b, path);
    } else if y.Some? {
      assert y.value in b;
      WinnerIsLongest(s, a, path, y.value);
    }
  }

  lemma SwappedWinner(s: MountList, a: MountList, path: string, k: nat)
    requires IsSortOf(LONGEST_FIRST, s, a) && FirstIndex(a, path) < k < |a|
    requires Matches(a[k], path) && a[k] != a[FirstIndex(a, path)]
    requires |a[k].prefix| == |a[FirstIndex(a, path)].prefix|
    ensures !SameWinner(s, path)
  {
    var f := FirstIndex(a, path);
    var b := a[f := a[k]][k := a[f]];
    assert SortedBy(LONGEST_FIRST, b) && multiset(b) == multiset(a) by {
      LongestFirstIsOrder();
      SwapKeepsSorted(LONGEST_FIRST, a, f, k);
    }
    assert IsSortOf(LONGEST_FIRST, s, b);
    FirstIndexAfterSwap(a, path, k);
    assert FirstMatch(a, path) != FirstMatch(b, path);
  }

  lemma FirstIndexAfterSwap(a: MountList, path: string, k: nat)
    requires FirstIndex(a, path) < k < |a| && Matches(a[k], path)
    ensures var f := FirstIndex(a, path); FirstIndex(a[f := a[k]][k := a[f]], path) == f
  {
    var f := FirstIndex(a, path);
    var b := a[f := a[k]][k := a[f]];
    assert b[f] == a[k] && forall i :: 0 <= i < f ==> b[i] == a[i];
  }

  lemma SortedListExists(s: MountList) returns (a: MountList)
    ensures IsSortOf(LONGEST_FIRST, s, a)
  {
    LongestFirstIsOrder();
    a := SortExists(LONGEST_FIRST, s);
  }

  lemma PlaceIn(s: MountList, a: MountList, m: Mount) returns (k: nat)
    requires IsSortOf(LONGEST_FIRST, s, a) && m in s
    ensures k < |a| && a[k] == m
  {
    SortedHasAll(s, a);
    k :| k < |a| && a[k] == m;
  }

  /** The first match for the contested path is as long as the contestants, which match too. */
  lemma ContestMatches(s: MountList, a: MountList, x: Mount, y: Mount)
    requires Contest(s, x, y) && IsSortOf(LONGEST_FIRST, s, a)
    ensures var path, f := OwnPath(y), FirstIndex(a, OwnPath(y));
            Matches(x, path) && Matches(y, path) && f < |a| && |a[f].prefix| == |x.prefix|
  {
    CoversIff(x, y);
    CoversIff(y, y);
    WinnerIsLongest(s, a, OwnPath(y), x);
    var f := FirstIndex(a, OwnPath(y));
    SortedHasAll(s, a);
    assert a[f] in a;
    CoversIff(a[f], y);
  }

  /** A contest makes the winner depend on how the unstable sort leaves the list. */
  lemma ContestTwoWinners(s: MountList, x: Mount, y: Mount)
    requires Contest(s, x, y)
    ensures !SameWinner(s, OwnPath(y))
  {
    var a := SortedListExists(s);
    ContestMatches(s, a, x, y);
    var other := if a[FirstIndex(a, OwnPath(y))] == x then y else x;
    var k := PlaceIn(s, a, other);
    SwappedWinner(s, a, OwnPath(y), k);
  }

  /** What an unstable sort leaves open never shows, exactly if there is no contest. */
  lemma SameWinnerIff(s: MountList)
    ensures (forall path :: Rooted(path) ==> SameWinner(s, path)) <==> Uncontested(s)
  {
    if Uncontested(s) {
      forall path | Rooted(path)
        ensures SameWinner(s, path)
      {
        forall a, b | IsSortOf(LONGEST_FIRST, s, a) && IsSortOf(LONGEST_FIRST, s, b)
          ensures FirstMatch(a, path) == FirstMatch(b, path)
        {
          UncontestedSameWinner(s, a, b, path);
        }
      }
    } else {
      var x, y :| Contest(s, x, y);
      ContestTwoWinners(s, x, y);
    }
  }

  /** Equal prefixes are not the only contest: "/a//" and "/a/b" are as long as each other. */
  lemma UntidyContest(app: Application, backend: Handler)
    ensures var x, y := Mount("/a//", false, app, backend, false), Mount("/a/b", false, app, backend, false);
            Contest([x, y], x, y)
  {
    var x, y := Mount("/a//", false, app, backend, false), Mount("/a/b", false, app, backend, false);
    assert TrimSlashes("/a/b") == "/a/b";
    assert TrimSlashes("/a//") == "/a" by {
      assert "/a//"[..3] == "/a/" && "/a/"[..2] == "/a";
      assert TrimSlashes("/a") == "/a" && TrimSlashes("/a/") == "/a";
    }
    assert "/a" + "/" <= "/a/b";
    assert x in [x, y] && y in [x, y] && x.prefix[2] != y.prefix[3];
  }

  /** A condition that can be read off a configuration: one trailing slash at most, and no two mounts
      for the same place but for that slash. */
  lemma TidyAndDistinctUncontested(s: MountList)
    requires AllTidy(s) && forall x, y :: x in s && y in s && x != y ==> Norm(x) != Norm(y)
    ensures Uncontested(s)
  {
    forall x, y
      ensures !Contest(s, x, y)
    {
      if Contest(s, x, y) {
        NestedIsLonger(x, y);
      }
    }
  }

  lemma {:induction false} MountsAtConcat(a: seq<Placed>, b: seq<Placed>, place: Place)
    ensures MountsAt(a + b, place) == MountsAt(a, place) + MountsAt(b, place)
  {
    if b == [] {
      assert a + b == a;
    } else {
      var n := |b| - 1;
      assert (a + b)[..|a + b| - 1] == a + b[..n];
      MountsAtConcat(a, b[..n], place);
    }
  }

  /** What one application contributes at a place. */
  function AppMounts(p: Platform, app: Application, place: Place): MountList {
    match PlaceApp(p, app)
    case Err(_) => []
    case Ok(placed) => MountsAt(placed, place)
  }

  /** How often an application contributes `m` at a place. */
  function Contributes(p: Platform, place: Place, m: Mount): Application -> nat {
    app => multiset(AppMounts(p, app, place))[m]
  }

  lemma {:induction false} PlaceAllOk(p: Platform, apps: seq<Application>)
    ensures PlaceAll(p, apps).Ok? <==> forall app :: app in apps ==> PlaceApp(p, app).Ok?
  {
    if apps != [] {
      assert apps == apps[..|apps| - 1] + [apps[|apps| - 1]];
      PlaceAllOk(p, apps[..|apps| - 1]);
    }
  }

  lemma {:induction false} PlaceAllMounts(p: Platform, apps: seq<Application>, place: Place, m: Mount)
    requires PlaceAll(p, apps).Ok?
    ensures multiset(MountsAt(PlaceAll(p, apps).value, place))[m] == Total(Contributes(p, place, m), apps)
  {
    if apps != [] {
      var rest, last := apps[..|apps| - 1], apps[|apps| - 1];
      PlaceAllMounts(p, rest, place, m);
      MountsAtConcat(PlaceAll(p, rest).value, PlaceApp(p, last).value, place);
    }
  }

  /** Listing the applications in another order gives a table again, with the same mounts everywhere. */
  lemma PermutedTable(p: Platform, a: seq<Application>, b: seq<Application>, place: Place)
    requires multiset(a) == multiset(b) && PlaceAll(p, a).Ok?
    ensures PlaceAll(p, b).Ok?
    ensures multiset(MountsAt(PlaceAll(p, a).value, place)) == multiset(MountsAt(PlaceAll(p, b).value, place))
  {
    SameElements(a, b);
    PlaceAllOk(p, a);
    PlaceAllOk(p, b);
    forall m: Mount
      ensures multiset(MountsAt(PlaceAll(p, a).value, place))[m] == multiset(MountsAt(PlaceAll(p, b).value, place))[m]
    {
      PlaceAllMounts(p, a, place, m);
      PlaceAllMounts(p, b, place, m);
      TotalPermuted(Contributes(p, place, m), a, b);
    }
  }

  lemma SameScan(s: MountList, s': MountList, a: MountList, b: MountList, path: string)
    requires multiset(s) == multiset(s') && Uncontested(s) && Rooted(path)
    requires IsSortOf(LONGEST_FIRST, s, a) && IsSortOf(LONGEST_FIRST, s', b)
    ensures FirstMatch(a, path) == FirstMatch(b, path)
  {
    UncontestedSameWinner(s, a, b, path);
  }

  lemma SameScanFound(s: MountList, s': MountList, a: MountList, b: MountList, path: string)
    requires multiset(s) == multiset(s')
    requires IsSortOf(LONGEST_FIRST, s, a) && IsSortOf(LONGEST_FIRST, s', b)
    ensures FirstMatch(a, path).Some? <==> FirstMatch(b, path).Some?
  {
    assert IsSortOf(LONGEST_FIRST, s, b);
    SortedHasAll(s, a);
    SortedHasAll(s, b);
    if FirstMatch(a, path).Some? {
      assert FirstMatch(a, path).value in a;
      WinnerIsLongest(s, b, path, FirstMatch(a, path).value);
    } else if FirstMatch(b, path).Some? {
      assert FirstMatch(b, path).value in b;
      WinnerIsLongest(s, a, path, FirstMatch(b, path).value);
    }
  }

  /** A request that a global or exact-hostname rule decides goes to the same mount however the
      applications are listed, if the mounts at the place that decides do not contest. */
  lemma OrderIndependent(p: Platform, apps: seq<Application>, apps': seq<Application>, t: Table, t': Table,
                         hostname: string, path: string)
    requires multiset(apps) == multiset(apps') && Rooted(path)
    requires PlaceAll(p, apps).Ok? && IsTableOf(PlaceAll(p, apps).value, t)
    requires PlaceAll(p, apps').Ok? ==> IsTableOf(PlaceAll(p, apps').value, t')
    requires FirstMatch(t.pathPrefix, path).Some? || FirstMatch(t.Hostname(hostname), path).Some?
    requires Uncontested(MountsAt(PlaceAll(p, apps).value,
                                  if FirstMatch(t.pathPrefix, path).Some? then Global else Host(hostname)))
    ensures PlaceAll(p, apps').Ok? && Resolve(p, t', hostname, path) == Resolve(p, t, hostname, path)
  {
    PermutedTable(p, apps, apps', Global);
    PermutedTable(p, apps, apps', Host(hostname));
    var all, all' := PlaceAll(p, apps).value, PlaceAll(p, apps').value;
    assert HostOk(all, t, hostname) && HostOk(all', t', hostname);
    if FirstMatch(t.pathPrefix, path).Some? {
      SameScan(MountsAt(all, Global), MountsAt(all', Global), t.pathPrefix, t'.pathPrefix, path);
    } else {
      SameScanFound(MountsAt(all, Global), MountsAt(all', Global), t.pathPrefix, t'.pathPrefix, path);
      SameScan(MountsAt(all, Host(hostname)), MountsAt(all', Host(hostname)), t.Hostname(hostname), t'.Hostname(hostname), path);
    }
  }

  /** The same for the global rules as an exact condition: all tables that one configuration may get
      agree on them if and only if these do not contest. */
  ghost predicate GlobalRulesAgree(p: Platform, all: seq<Placed>) {
    forall t, t', hostname, path ::
      IsTableOf(all, t) && IsTableOf(all, t') && Rooted(path) && FirstMatch(t.pathPrefix, path).Some? ==>
        Resolve(p, t, hostname, path) == Resolve(p, t', hostname, path)
  }

  lemma GlobalRulesAgreeIff(p: Platform, all: seq<Placed>, t: Table)
    requires IsTableOf(all, t)
    ensures GlobalRulesAgree(p, all) <==> Uncontested(MountsAt(all, Global))
  {
    var s := MountsAt(all, Global);
    if Uncontested(s) {
      forall t, t', hostname, path | IsTableOf(all, t) && IsTableOf(all, t') && Rooted(path) && FirstMatch(t.pathPrefix, path).Some?
        ensures Resolve(p, t, hostname, path) == Resolve(p, t', hostname, path)
      {
        UncontestedSameWinner(s, t.pathPrefix, t'.pathPrefix, path);
      }
    } else {
      var x, y :| Contest(s, x, y);
      ContestShows(p, all, t, x, y);
    }
  }

  /** A contest, as two sorts with different winners. */
  lemma TwoWinners(s: MountList, x: Mount, y: Mount) returns (a: MountList, b: MountList)
    requires Contest(s, x, y)
    ensures IsSortOf(LONGEST_FIRST, s, a) && IsSortOf(LONGEST_FIRST, s, b) && Rooted(OwnPath(y))
    ensures FirstMatch(a, OwnPath(y)).Some? && FirstMatch(b, OwnPath(y)).Some?
    ensures FirstMatch(a, OwnPath(y)) != FirstMatch(b, OwnPath(y))
  {
    var path := OwnPath(y);
    ContestTwoWinners(s, x, y);
    a, b :| IsSortOf(LONGEST_FIRST, s, a) && IsSortOf(LONGEST_FIRST, s, b) && FirstMatch(a, path) != FirstMatch(b, path);
    CoversIff(y, y);
    WinnerIsLongest(s, a, path, y);
    WinnerIsLongest(s, b, path, y);
  }

  lemma ContestShows(p: Platform, all: seq<Placed>, t: Table, x: Mount, y: Mount)
    requires IsTableOf(all, t) && Contest(MountsAt(all, Global), x, y)
    ensures !GlobalRulesAgree(p, all)
  {
    var path := OwnPath(y);
    var a, b := TwoWinners(MountsAt(all, Global), x, y);
    WithGlobalRules(all, t, a);
    WithGlobalRules(all, t, b);
    assert Resolve(p, t.(pathPrefix := a), "", path) != Resolve(p, t.(pathPrefix := b), "", path);
  }

  // --- and for the rules of one hostname, which count only where no global rule does ---

  ghost predicate HostRulesAgree(p: Platform, all: seq<Placed>, h: string) {
    forall t, t', path ::
      IsTableOf(all, t) && IsTableOf(all, t') && Rooted(path) && DecidedByHost(t, h, path) ==>
        Resolve(p, t, h, path) == Resolve(p, t', h, path)
  }

  predicate DecidedByHost(t: Table, h: string, path: string) {
    FirstMatch(t.pathPrefix, path).None? && FirstMatch(t.Hostname(h), path).Some?
  }

  /** Some global mount takes all requests that `y` is for. */
  ghost predicate CoveredGlobally(all: seq<Placed>, y: Mount) {
    exists g :: g in MountsAt(all, Global) && Covers(g, y)
  }

  ghost predicate ContestsAreCovered(all: seq<Placed>, h: string) {
    forall x, y :: Contest(MountsAt(all, Host(h)), x, y) ==> CoveredGlobally(all, y)
  }

  /** All tables that one configuration may get agree on what hostname `h` decides, if and only if the
      mounts of `h` contest for nothing but what a global rule takes away. */
  lemma HostRulesAgreeIff(p: Platform, all: seq<Placed>, t: Table, h: string)
    requires IsTableOf(all, t)
    ensures HostRulesAgree(p, all, h) <==> ContestsAreCovered(all, h)
  {
    if ContestsAreCovered(all, h) {
      forall t, t', path | IsTableOf(all, t) && IsTableOf(all, t') && Rooted(path) && DecidedByHost(t, h, path)
        ensures Resolve(p, t, h, path) == Resolve(p, t', h, path)
      {
        CoveredContestsAgree(p, all, t, t', h, path);
      }
    } else {
      var x, y :| Contest(MountsAt(all, Host(h)), x, y) && !CoveredGlobally(all, y);
      HostContestShows(p, all, t, h, x, y);
    }
  }

  lemma CoveredContestsAgree(p: Platform, all: seq<Placed>, t: Table, t': Table, h: string, path: string)
    requires IsTableOf(all, t) && IsTableOf(all, t') && Rooted(path) && DecidedByHost(t, h, path)
    requires ContestsAreCovered(all, h)
    ensures Resolve(p, t, h, path) == Resolve(p, t', h, path)
  {
    assert HostOk(all, t, h) && HostOk(all, t', h);
    var s, a, b := MountsAt(all, Host(h)), t.Hostname(h), t'.Hostname(h);
    SameScanFound(MountsAt(all, Global), MountsAt(all, Global), t.pathPrefix, t'.pathPrefix, path);
    SameScanFound(s, s, a, b, path);
    WinnersContest(s, a, b, path);
    var x, y := FirstMatch(a, path).value, FirstMatch(b, path).value;
    FirstMatches(a, path);
    FirstMatches(b, path);
    if Contest(s, x, y) {
      NotCovered(all, t, y, path);
    } else if Contest(s, y, x) {
      NotCovered(all, t, x, path);
    }
  }

  lemma FirstMatches(a: MountList, path: string)
    requires FirstMatch(a, path).Some?
    ensures Matches(FirstMatch(a, path).value, path)
  {
  }

  /** Where no global rule matches, no matching mount is covered by one. */
  lemma NotCovered(all: seq<Placed>, t: Table, y: Mount, path: string)
    requires IsTableOf(all, t) && Rooted(path) && FirstMatch(t.pathPrefix, path).None? && Matches(y, path)
    ensures !CoveredGlobally(all, y)
  {
    forall g | g in MountsAt(all, Global) && Covers(g, y)
      ensures false
    {
      CoveredPath(g, y, path);
      WinnerIsLongest(MountsAt(all, Global), t.pathPrefix, path, g);
    }
  }

  lemma HostContestShows(p: Platform, all: seq<Placed>, t: Table, h: string, x: Mount, y: Mount)
    requires IsTableOf(all, t) && Contest(MountsAt(all, Host(h)), x, y) && !CoveredGlobally(all, y)
    ensures !HostRulesAgree(p, all, h)
  {
    var path := OwnPath(y);
    var a, b := TwoWinners(MountsAt(all, Host(h)), x, y);
    NoGlobalMatch(all, t, y);
    var t1 := WithHostRules(all, t, h, a);
    var t2 := WithHostRules(all, t, h, b);
    DecidedDifferently(p, t1, t2, h, path);
  }

  lemma DecidedDifferently(p: Platform, t: Table, t': Table, h: string, path: string)
    requires t.pathPrefix == t'.pathPrefix && DecidedByHost(t, h, path) && FirstMatch(t'.Hostname(h), path).Some?
    requires FirstMatch(t.Hostname(h), path) != FirstMatch(t'.Hostname(h), path)
    ensures Resolve(p, t, h, path) != Resolve(p, t', h, path)
  {
  }

  lemma NoGlobalMatch(all: seq<Placed>, t: Table, y: Mount)
    requires IsTableOf(all, t) && Rooted(OwnPath(y)) && !CoveredGlobally(all, y)
    ensures FirstMatch(t.pathPrefix, OwnPath(y)).None?
  {
    var path := OwnPath(y);
    if FirstMatch(t.pathPrefix, path).Some? {
      var g := FirstMatch(t.pathPrefix, path).value;
      FirstMatches(t.pathPrefix, path);
      SortedHasAll(MountsAt(all, Global), t.pathPrefix);
      assert g in t.pathPrefix;
      CoversIff(g, y);
    }
  }

  lemma WithHostRules(all: seq<Placed>, t: Table, h: string, a: MountList) returns (t': Table)
    requires IsTableOf(all, t) && IsSortOf(LONGEST_FIRST, MountsAt(all, Host(h)), a)
    ensures IsTableOf(all, t') && t' == t.(hostname := t.hostname[h := a])
  {
    t' := t.(hostname := t.hostname[h := a]);
    forall k
      ensures HostOk(all, t', k)
    {
      assert HostOk(all, t, k);
    }
  }

  lemma WithGlobalRules(all: seq<Placed>, t: Table, a: MountList)
    requires IsTableOf(all, t) && IsSortOf(LONGEST_FIRST, MountsAt(all, Global), a)
    ensures IsTableOf(all, t.(pathPrefix := a))
  {
    forall h
      ensures HostOk(all, t.(pathPrefix := a), h)
    {
      assert HostOk(all, t, h);
    }
  }

  // --- taking the prefix off ---

  /** The path the application sees, or None where the slice is out of range. */
  function Strip(m: Mount, path: string): (r: Option<string>)
    ensures r.Some? ==> Rooted(r.value)
  {
    if |m.prefix| > |path| then None
    else
      var rest := path[|m.prefix|..];
      Some(if Rooted(rest) then rest else "/" + rest)
  }

  /** The prefix and the stripped path are the path again; for the prefix itself, it is "/". */
  predicate GivesBack(m: Mount, path: string) {
    && Strip(m, path).Some?
    && if path == Norm(m) then Strip(m, path).value == "/" else Norm(m) + Strip(m, path).value == path
  }

  /** The prefix has no trailing slash; or it has one, which the path has too, but not twice. */
  predicate StripsWell(m: Mount, path: string)
    requires Norm(m) <= path
  {
    Norm(m) == m.prefix || (Tidy(m) && path != Norm(m) && !("//" <= path[|Norm(m)|..]))
  }

  lemma StripsPlain(m: Mount, path: string)
    requires Rooted(path) && (path == m.prefix || m.prefix + "/" <= path)
    requires Norm(m) == m.prefix
    ensures GivesBack(m, path)
  {
    if path != m.prefix {
      assert path[|m.prefix|] == (m.prefix + "/")[|m.prefix|];
      assert path == m.prefix + path[|m.prefix|..];
    }
  }

  lemma StripsSlash(m: Mount, path: string)
    requires m.prefix == Norm(m) + "/" && m.prefix <= path
    ensures GivesBack(m, path) <==> !("//" <= path[|Norm(m)|..])
  {
    var rest := path[|m.prefix|..];
    assert path[|Norm(m)|] == m.prefix[|Norm(m)|] == '/';
    assert path[|Norm(m)|..] == "/" + rest;
    assert path == Norm(m) + ("/" + rest);
    if Rooted(rest) {
      assert |Norm(m) + rest| < |path|;
      assert "//" <= "/" + rest;
    } else {
      assert rest == "" || ("/" + rest)[1] == rest[0];
    }
  }

  /** For a mount that matched, exactly when stripping takes off the prefix and nothing else. */
  lemma StripGivesBackIff(m: Mount, path: string)
    requires Rooted(path) && Matches(m, path)
    ensures Norm(m) <= path && (GivesBack(m, path) <==> StripsWell(m, path))
  {
    MatchesByNorm(m, path);
    if Norm(m) == m.prefix {
      StripsPlain(m, path);
    } else if !Tidy(m) {
      LosesMore(m, path);
    } else if path != Norm(m) {
      assert m.prefix == Norm(m) + "/";
      StripsSlash(m, path);
    }
  }

  lemma LosesMore(m: Mount, path: string)
    requires !Tidy(m)
    ensures !GivesBack(m, path)
  {
    if Strip(m, path).Some? && path != Norm(m) {
      assert |Norm(m) + Strip(m, path).value| <= |Norm(m)| + |path| - |m.prefix| + 1 < |path|;
    }
  }

  /** ... and, with one trailing slash at most, when the slice is out of range. */
  lemma StripOutOfRangeIff(m: Mount, path: string)
    requires Rooted(path) && Matches(m, path)
    ensures Tidy(m) ==> (Strip(m, path).None? <==> path == Norm(m) && Norm(m) != m.prefix)
  {
    MatchesByNorm(m, path);
  }

  /** With two slashes, a request for "/a/bcd" reaches the application as "/cd", and one for "/a/" fails. */
  lemma UntidyStripLoses(app: Application, backend: Handler)
    ensures var m := Mount("/a//", true, app, backend, false);
            && Matches(m, "/a/bcd") && Strip(m, "/a/bcd") == Some("/cd") && !GivesBack(m, "/a/bcd")
            && Matches(m, "/a/") && Strip(m, "/a/") == None && "/a/" != Norm(m)
  {
    var m := Mount("/a//", true, app, backend, false);
    assert TrimSlashes("/a//") == "/a" by {
      assert "/a//"[..3] == "/a/" && "/a/"[..2] == "/a";
      assert TrimSlashes("/a") == "/a" && TrimSlashes("/a/") == "/a";
    }
    assert "/a" + "/" <= "/a/bcd" && "/a" + "/" <= "/a/";
    assert "/a/bcd"[4..] == "cd" && "cd"[0] != '/' && "/" + "cd" == "/cd" && |"/a/"| < |m.prefix|;
    LosesMore(m, "/a/bcd");
  }
}
