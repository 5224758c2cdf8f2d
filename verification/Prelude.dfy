/** Option and Result, used for Go's `(value, ok)` and `(value, error)` returns. */
module Wrappers {
  datatype Option<+T> = None | Some(value: T)

  datatype Result<+T, +E> = Ok(value: T) | Err(error: E)
}

/** The byte strings and the string operations of Go's library that the modelled code calls. */
module Strings {
  type byte = i: int | 0 <= i < 256

  type Bytes = seq<byte>

  /** Go's `a < b` on strings: lexicographic order. */
  predicate Less(a: string, b: string) {
    if b == "" then false
    else if a == "" then true
    else a[0] < b[0] || (a[0] == b[0] && Less(a[1..], b[1..]))
  }

  lemma OtherStart(a: string, b: string)
    requires a != "" && b != "" && a[0] != b[0]
    ensures forall k :: 0 < k <= |a| && k <= |b| ==> a[..k] != b[..k]
  {
    forall k | 0 < k <= |a| && k <= |b|
      ensures a[..k] != b[..k]
    {
      assert a[..k][0] != b[..k][0];
    }
  }

  /** The first difference decides, and a proper prefix comes first. */
  lemma {:induction false} LessIff(a: string, b: string)
    ensures Less(a, b) <==>
            exists k :: 0 <= k < |b| && k <= |a| && a[..k] == b[..k] && (k == |a| || a[k] < b[k])
  {
    if a != "" && b != "" && a[0] == b[0] {
      LessIff(a[1..], b[1..]);
      if k :| 0 <= k < |b[1..]| && k <= |a[1..]| && a[1..][..k] == b[1..][..k] && (k == |a[1..]| || a[1..][k] < b[1..][k]) {
        assert a[..k + 1] == [a[0]] + a[1..][..k] && b[..k + 1] == [b[0]] + b[1..][..k];
      }
      if k :| 0 <= k < |b| && k <= |a| && a[..k] == b[..k] && (k == |a| || a[k] < b[k]) {
        assert a[1..][..k - 1] == a[..k][1..] && b[1..][..k - 1] == b[..k][1..];
      }
    } else if b != "" {
      assert a[..0] == b[..0];
      if a != "" { OtherStart(a, b); }
    }
  }

  lemma {:induction false} LessTrichotomy(a: string, b: string)
    ensures Less(a, b) || a == b || Less(b, a)
    ensures !(Less(a, b) && Less(b, a))
    ensures a == b ==> !Less(a, b)
  {
    if a != "" && b != "" {
      LessTrichotomy(a[1..], b[1..]);
      if a[0] == b[0] && a[1..] == b[1..] {
        assert a == [a[0]] + a[1..] == b;
      }
    }
  }

  lemma {:induction false} LessTransitive(a: string, b: string, c: string)
    requires Less(a, b) && Less(b, c)
    ensures Less(a, c)
  {
    if a != "" && a[0] == b[0] == c[0] {
      LessTransitive(a[1..], b[1..], c[1..]);
    }
  }

  /** Go's `strings.Contains`. */
  predicate Contains(s: string, sub: string) {
    sub <= s || (s != "" && Contains(s[1..], sub))
  }

  lemma {:induction false} ContainsIff(s: string, sub: string)
    ensures Contains(s, sub) <==> exists before, after :: s == before + sub + after
  {
    if sub <= s {
      assert s == "" + sub + s[|sub|..];
    } else if s == "" {
      assert forall before: string, after: string :: |before + sub + after| > 0;
    } else {
      ContainsIff(s[1..], sub);
      if before, after :| s[1..] == before + sub + after {
        assert s == ([s[0]] + before) + sub + after;
      }
      if before, after :| s == before + sub + after {
        assert before + sub <= s;
        assert s[1..] == before[1..] + sub + after;
      }
    }
  }

  /** The index of the first `c` in `s`, or `|s|`. */
  function IndexOf(s: string, c: char): (i: nat)
    ensures i <= |s|
    ensures i < |s| ==> s[i] == c
    ensures forall k :: 0 <= k < i ==> s[k] != c
  {
    if s == "" || s[0] == c then 0 else 1 + IndexOf(s[1..], c)
  }

  /** The first match of a character is where it is, whatever follows it. */
  lemma IndexOfUnique(s: string, c: char, i: nat)
    requires i <= |s| && forall k :: 0 <= k < i ==> s[k] != c
    requires i < |s| ==> s[i] == c
    ensures IndexOf(s, c) == i
  {
  }
}

/** Sequences with the same elements. */
module Permutations {
  lemma JoinLeft<T>(a: seq<T>, b: seq<T>, c: seq<T>)
    ensures (a + b) + c == a + (b + c)
  {
  }

  lemma IndexIn<T>(a: seq<T>, b: seq<T>) returns (j: nat)
    requires multiset(a) == multiset(b) && a != []
    ensures j < |b| && b[j] == a[0]
  {
    assert a[0] in multiset(b);
    j :| j < |b| && b[j] == a[0];
  }

  lemma SameWithout<T>(a: seq<T>, b: seq<T>, j: nat)
    requires multiset(a) == multiset(b) && a != [] && j < |b| && b[j] == a[0]
    ensures multiset(a[1..]) == multiset(b[..j] + b[j + 1..])
  {
    var rest := multiset(a) - multiset{a[0]};
    assert multiset(a[1..]) == rest by {
      MultisetOfTail(a);
    }
    assert multiset(b[..j] + b[j + 1..]) == rest by {
      MultisetWithout(b, j);
    }
  }

  lemma MultisetWithout<T>(s: seq<T>, j: nat)
    requires j < |s|
    ensures multiset(s[..j] + s[j + 1..]) == multiset(s) - multiset{s[j]}
    ensures multiset(s) == multiset(s[..j] + s[j + 1..]) + multiset{s[j]}
  {
    assert s == s[..j] + [s[j]] + s[j + 1..];
  }

  lemma MultisetOfTail<T>(s: seq<T>)
    requires s != []
    ensures multiset(s[1..]) == multiset(s) - multiset{s[0]}
    ensures multiset(s) == multiset{s[0]} + multiset(s[1..])
  {
    assert s == [s[0]] + s[1..];
  }

  lemma MultisetOfInserted<T>(s: seq<T>, k: nat, x: T)
    requires k <= |s|
    ensures multiset(s[..k] + [x] + s[k..]) == multiset(s) + multiset{x}
  {
    assert s == s[..k] + s[k..];
  }

  lemma SameElements<T>(a: seq<T>, b: seq<T>)
    requires multiset(a) == multiset(b)
    ensures forall x :: x in b ==> x in a
  {
    forall x | x in b
      ensures x in a
    {
      assert x in multiset(b);
    }
  }

  function Total<T>(f: T -> nat, s: seq<T>): nat {
    if s == [] then 0 else Total(f, s[..|s| - 1]) + f(s[|s| - 1])
  }

  lemma {:induction false} TotalConcat<T>(f: T -> nat, a: seq<T>, b: seq<T>)
    ensures Total(f, a + b) == Total(f, a) + Total(f, b)
  {
    if b == [] {
      assert a + b == a;
    } else {
      var rest := b[..|b| - 1];
      TotalConcat(f, a, rest);
      assert (a + b)[..|a + b| - 1] == a + rest;
    }
  }

  lemma TotalWithout<T>(f: T -> nat, s: seq<T>, j: nat)
    requires j < |s|
    ensures Total(f, s) == Total(f, s[..j] + s[j + 1..]) + f(s[j])
  {
    var left, x, right := s[..j], [s[j]], s[j + 1..];
    assert s == left + (x + right);
    TotalConcat(f, left, x + right);
    TotalConcat(f, x, right);
    TotalConcat(f, left, right);
  }

  lemma {:induction false} TotalPermuted<T>(f: T -> nat, a: seq<T>, b: seq<T>)
    requires multiset(a) == multiset(b)
    ensures Total(f, a) == Total(f, b)
  {
    if a == [] {
      assert |b| == |multiset(b)| == 0;
    } else {
      var j := IndexIn(a, b);
      SameWithout(a, b, j);
      TotalPermuted(f, a[1..], b[..j] + b[j + 1..]);
      TotalWithout(f, b, j);
      TotalWithout(f, a, 0);
      assert a[..0] + a[1..] == a[1..];
    }
  }
}

/** Go's `sort.Slice`, which is not stable: callers learn only what its documentation says. */
module Sorting {
  import opened Permutations

  ghost predicate StrictWeakOrder<T(!new)>(less: (T, T) -> bool) {
    && (forall a, b :: less(a, b) ==> !less(b, a))
    && (forall a, b, c :: Chains(less, a, b, c))
  }

  /** `a`, `b`, `c` in non-decreasing steps puts `a` and `c` in order (named, so that proofs choose when to use it). */
  ghost predicate Chains<T>(less: (T, T) -> bool, a: T, b: T, c: T) {
    !less(b, a) && !less(c, b) ==> !less(c, a)
  }

  ghost predicate SortedBy<T>(less: (T, T) -> bool, s: seq<T>) {
    forall i, j :: 0 <= i < j < |s| ==> !less(s[j], s[i])
  }

  /** `to` is one of the slices an unstable sort of `from` may leave. */
  ghost predicate IsSortOf<T>(less: (T, T) -> bool, from: seq<T>, to: seq<T>) {
    multiset(to) == multiset(from) && SortedBy(less, to)
  }

  method SortSlice<T(!new, ==)>(s: seq<T>, less: (T, T) -> bool) returns (r: seq<T>)
    requires StrictWeakOrder(less)
    ensures IsSortOf(less, s, r)
  {
    r := [];
    for i := 0 to |s|
      invariant IsSortOf(less, s[..i], r)
    {
      var k := 0;
      while k < |r| && !less(s[i], r[k])
        invariant k <= |r|
        invariant forall j :: 0 <= j < k ==> !less(s[i], r[j])
      {
        k := k + 1;
      }
      InsertKeepsSorted(less, r, k, s[i]);
      assert s[..i + 1] == s[..i] + [s[i]];
      r := r[..k] + [s[i]] + r[k..];
    }
    assert s[..|s|] == s;
  }

  lemma InsertKeepsSorted<T(!new)>(less: (T, T) -> bool, r: seq<T>, k: nat, x: T)
    requires StrictWeakOrder(less) && SortedBy(less, r) && k <= |r|
    requires forall j :: 0 <= j < k ==> !less(x, r[j])
    requires k < |r| ==> less(x, r[k])
    ensures SortedBy(less, r[..k] + [x] + r[k..])
    ensures multiset(r[..k] + [x] + r[k..]) == multiset(r) + multiset{x}
  {
    MultisetOfInserted(r, k, x);
    InsertKeepsOrder(less, r, k, x);
  }

  lemma InsertKeepsOrder<T(!new)>(less: (T, T) -> bool, r: seq<T>, k: nat, x: T)
    requires StrictWeakOrder(less) && SortedBy(less, r) && k <= |r|
    requires forall j :: 0 <= j < k ==> !less(x, r[j])
    requires k < |r| ==> less(x, r[k])
    ensures SortedBy(less, r[..k] + [x] + r[k..])
  {
    var t := r[..k] + [x] + r[k..];
    forall i, j | 0 <= i < j < |t|
      ensures !less(t[j], t[i])
    {
      if i == k {
        assert Chains(less, x, r[k], r[j - 1]);
      } else if i < k < j {
        assert t[j] == r[j - 1];
      }
    }
  }

  lemma {:induction false} SortExists<T(!new)>(less: (T, T) -> bool, s: seq<T>) returns (r: seq<T>)
    requires StrictWeakOrder(less)
    ensures IsSortOf(less, s, r)
  {
    if s == [] {
      r := [];
    } else {
      r := SortExists(less, s[1..]);
      var k := Position(less, r, s[0]);
      InsertKeepsSorted(less, r, k, s[0]);
      MultisetOfTail(s);
      r := r[..k] + [s[0]] + r[k..];
    }
  }

  function Position<T>(less: (T, T) -> bool, r: seq<T>, x: T): (k: nat)
    ensures k <= |r|
    ensures forall j :: 0 <= j < k ==> !less(x, r[j])
    ensures k < |r| ==> less(x, r[k])
  {
    if r == [] || less(x, r[0]) then 0 else 1 + Position(less, r[1..], x)
  }

  /** Elements that the order does not tell apart are equal. */
  ghost predicate Discriminates<T(!new)>(less: (T, T) -> bool, s: seq<T>) {
    forall x, y :: x in s && y in s && !less(x, y) && !less(y, x) ==> x == y
  }

  /** An unstable sort is a function of its input's elements exactly when the order tells them apart. */
  lemma SortDeterministicIff<T(!new)>(less: (T, T) -> bool, s: seq<T>)
    requires StrictWeakOrder(less)
    ensures Discriminates(less, s) <==> forall a, b :: IsSortOf(less, s, a) && IsSortOf(less, s, b) ==> a == b
  {
    if Discriminates(less, s) {
      forall a, b | IsSortOf(less, s, a) && IsSortOf(less, s, b)
        ensures a == b
      {
        forall x | x in a
          ensures x in s
        {
          assert x in multiset(a);
        }
        SortUnique(less, a, b);
      }
    } else {
      var a := SortExists(less, s);
      var x, y :| x in s && y in s && !less(x, y) && !less(y, x) && x != y;
      assert x in multiset(a) && y in multiset(a);
      var i :| 0 <= i < |a| && a[i] == x;
      var j :| 0 <= j < |a| && a[j] == y;
      SwapKeepsSorted(less, a, i, j);
      assert IsSortOf(less, s, a[i := y][j := x]) && a[i := y][j := x][i] != a[i];
    }
  }

  lemma SwapKeepsSorted<T(!new)>(less: (T, T) -> bool, a: seq<T>, i: nat, j: nat)
    requires StrictWeakOrder(less) && SortedBy(less, a) && i < |a| && j < |a| && i != j
    requires !less(a[i], a[j]) && !less(a[j], a[i])
    ensures SortedBy(less, a[i := a[j]][j := a[i]])
    ensures multiset(a[i := a[j]][j := a[i]]) == multiset(a)
  {
    var x, y, b := a[i], a[j], a[i := a[j]][j := a[i]];
    forall k, l | 0 <= k < l < |b|
      ensures !less(b[l], b[k])
    {
      assert Chains(less, a[k], x, y) && Chains(less, a[k], y, x);
      assert Chains(less, x, y, a[l]) && Chains(less, y, x, a[l]);
    }
  }

  lemma {:induction false} SortUnique<T(!new)>(less: (T, T) -> bool, a: seq<T>, b: seq<T>)
    requires Discriminates(less, a) && multiset(a) == multiset(b) && SortedBy(less, a) && SortedBy(less, b)
    ensures a == b
  {
    assert |a| == |multiset(a)| == |b|;
    if a != [] {
      SameHead(less, a, b);
      TailKeepsOrder(less, a);
      TailKeepsOrder(less, b);
      assert multiset(a[1..]) == multiset(b[1..]) by {
        MultisetOfTail(a);
        MultisetOfTail(b);
      }
      assert Discriminates(less, a[1..]) by {
        TailDiscriminates(less, a);
      }
      SortUnique(less, a[1..], b[1..]);
      assert a == [a[0]] + a[1..] && b == [b[0]] + b[1..];
    }
  }

  lemma TailDiscriminates<T(!new)>(less: (T, T) -> bool, s: seq<T>)
    requires Discriminates(less, s) && s != []
    ensures Discriminates(less, s[1..])
  {
    assert forall x :: x in s[1..] ==> x in s;
  }

  lemma TailKeepsOrder<T>(less: (T, T) -> bool, s: seq<T>)
    requires SortedBy(less, s) && s != []
    ensures SortedBy(less, s[1..])
  {
  }

  lemma SameHead<T(!new)>(less: (T, T) -> bool, a: seq<T>, b: seq<T>)
    requires Discriminates(less, a) && multiset(a) == multiset(b) && SortedBy(less, a) && SortedBy(less, b)
    requires a != [] && b != []
    ensures a[0] == b[0]
  {
    assert a[0] in multiset(b) && b[0] in multiset(a);
    var i :| 0 <= i < |a| && a[i] == b[0];
    var j :| 0 <= j < |b| && b[j] == a[0];
  }
}
