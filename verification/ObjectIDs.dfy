/** Base64 with the URL-safe alphabet and no padding (section 5 of RFC 4648), decoded as Go's
    `base64.RawURLEncoding` does: line breaks are skipped and unused trailing bits are ignored. */
module Base64Url {
  import opened Wrappers
  import opened Strings

  function Digit(v: nat): char
    requires v < 64
  {
    if v < 26 then 'A' + v as char
    else if v < 52 then 'a' + (v - 26) as char
    else if v < 62 then '0' + (v - 52) as char
    else if v == 62 then '-'
    else '_'
  }

  predicate IsDigit(c: char) {
    'A' <= c <= 'Z' || 'a' <= c <= 'z' || '0' <= c <= '9' || c == '-' || c == '_'
  }

  function Value(c: char): (v: nat)
    requires IsDigit(c)
    ensures v < 64 && Digit(v) == c
  {
    if 'A' <= c <= 'Z' then c as int - 'A' as int
    else if 'a' <= c <= 'z' then c as int - 'a' as int + 26
    else if '0' <= c <= '9' then c as int - '0' as int + 52
    else if c == '-' then 62
    else 63
  }

  predicate AllDigits(s: string) {
    forall i :: 0 <= i < |s| ==> IsDigit(s[i])
  }

  type sextet = v: int | 0 <= v < 64

  function Digits(v: seq<sextet>): (s: string)
    ensures |s| == |v|
    ensures forall i :: 0 <= i < |v| ==> IsDigit(s[i]) && Value(s[i]) == v[i]
  {
    seq(|v|, i requires 0 <= i < |v| => Digit(v[i]))
  }

  function Values(s: string): (v: seq<sextet>)
    requires AllDigits(s)
    ensures |v| == |s|
    ensures forall i :: 0 <= i < |s| ==> v[i] == Value(s[i])
  {
    seq(|s|, i requires 0 <= i < |s| => Value(s[i]))
  }

  /** Three octets as four groups of six bits. */
  function Split(b0: byte, b1: byte, b2: byte): (v: seq<sextet>)
    ensures |v| == 4
  {
    [b0 / 4, b0 % 4 * 16 + b1 / 16, b1 % 16 * 4 + b2 / 64, b2 % 64]
  }

  function FirstOctet(v0: sextet, v1: sextet): byte {
    v0 * 4 + v1 / 16
  }

  function SecondOctet(v1: sextet, v2: sextet): byte {
    v1 % 16 * 16 + v2 / 4
  }

  function ThirdOctet(v2: sextet, v3: sextet): byte {
    v2 % 4 * 64 + v3
  }

  function Join(v0: sextet, v1: sextet, v2: sextet, v3: sextet): (b: Bytes)
    ensures |b| == 3
  {
    [FirstOctet(v0, v1), SecondOctet(v1, v2), ThirdOctet(v2, v3)]
  }

  /** The bits of `b` in groups of six, the last group filled up with zeros. */
  function Sextets(b: Bytes): (v: seq<sextet>)
    ensures |v| == (4 * |b| + 2) / 3
  {
    if |b| < 3 then LastSextets(b) else Split(b[0], b[1], b[2]) + Sextets(b[3..])
  }

  function LastSextets(b: Bytes): (v: seq<sextet>)
    requires |b| < 3
    ensures |v| == (4 * |b| + 2) / 3
  {
    if |b| == 0 then []
    else if |b| == 1 then [b[0] / 4, b[0] % 4 * 16]
    else [b[0] / 4, b[0] % 4 * 16 + b[1] / 16, b[1] % 16 * 4]
  }

  /** Four groups more are three octets more. */
  lemma FourGroups(n: nat)
    requires n >= 4
    ensures n % 4 == (n - 4) % 4 && 3 * n / 4 == 3 * (n - 4) / 4 + 3
  {
  }

  /** The whole octets in `v`; a single left-over group is an error. */
  function Octets(v: seq<sextet>): (b: Option<Bytes>)
    ensures b.Some? <==> |v| % 4 != 1
    ensures b.Some? ==> |b.value| == 3 * |v| / 4
  {
    if |v| == 1 then None
    else if |v| < 4 then Some(LastOctets(v))
    else
      FourGroups(|v|);
      match Octets(v[4..])
      case None => None
      case Some(rest) => Some(Join(v[0], v[1], v[2], v[3]) + rest)
  }

  function LastOctets(v: seq<sextet>): (b: Bytes)
    requires |v| < 4 && |v| != 1
    ensures |b| == 3 * |v| / 4
  {
    if |v| == 0 then []
    else if |v| == 2 then [FirstOctet(v[0], v[1])]
    else [FirstOctet(v[0], v[1]), SecondOctet(v[1], v[2])]
  }

  lemma DivMod(q: nat, r: nat, d: nat)
    requires (d == 4 || d == 16 || d == 64) && r < d
    ensures (q * d + r) / d == q && (q * d + r) % d == r
  {
  }

  lemma LastOctetsOfLastSextets(b: Bytes)
    requires |b| < 3
    ensures LastOctets(LastSextets(b)) == b
  {
    if |b| == 1 {
      DivMod(b[0] % 4, 0, 16);
    } else if |b| == 2 {
      DivMod(b[0] % 4, b[1] / 16, 16);
      DivMod(b[1] % 16, 0, 4);
    }
  }

  lemma LastSextetsOfLastOctets(v: seq<sextet>)
    requires |v| < 4 && |v| != 1
    ensures SameData(v, LastSextets(LastOctets(v)))
  {
    if |v| > 0 {
      DivMod(v[0], v[1] / 16, 4);
      DivMod(v[1] / 16, 0, 16);
    }
    if |v| > 2 {
      DivMod(v[1] % 16, v[2] / 4, 16);
      DivMod(v[2] / 4, 0, 4);
    }
  }

  lemma JoinOfSplit(b0: byte, b1: byte, b2: byte)
    ensures var v := Split(b0, b1, b2); Join(v[0], v[1], v[2], v[3]) == [b0, b1, b2]
  {
    var v := Split(b0, b1, b2);
    assert FirstOctet(v[0], v[1]) == b0 by {
      DivMod(b0 % 4, b1 / 16, 16);
    }
    assert SecondOctet(v[1], v[2]) == b1 by {
      DivMod(b0 % 4, b1 / 16, 16);
      DivMod(b1 % 16, b2 / 64, 4);
    }
    assert ThirdOctet(v[2], v[3]) == b2 by {
      DivMod(b1 % 16, b2 / 64, 4);
    }
  }

  lemma SplitOfJoin(v0: sextet, v1: sextet, v2: sextet, v3: sextet)
    ensures var b := Join(v0, v1, v2, v3); Split(b[0], b[1], b[2]) == [v0, v1, v2, v3]
  {
    var b := Join(v0, v1, v2, v3);
    assert b[0] / 4 == v0 && b[0] % 4 == v1 / 16 by {
      DivMod(v0, v1 / 16, 4);
    }
    assert b[1] / 16 == v1 % 16 && b[1] % 16 == v2 / 4 by {
      DivMod(v1 % 16, v2 / 4, 16);
    }
    assert b[2] / 64 == v2 % 4 && b[2] % 64 == v3 by {
      DivMod(v2 % 4, v3, 64);
    }
  }

  function Encode(b: Bytes): (s: string)
    ensures |s| == (4 * |b| + 2) / 3 && AllDigits(s)
  {
    Digits(Sextets(b))
  }

  // --- against RFC 4648: the alphabet (table 2) and the order of the bits (section 4) ---

  /** `A` to `Z` stand for 0 to 25, `a` to `z` for 26 to 51, `0` to `9` for 52 to 61, then `-` and `_`. */
  predicate StandsFor(c: char, v: int) {
    || (0 <= v <= 25 && c as int == 65 + v)
    || (26 <= v <= 51 && c as int == 97 + (v - 26))
    || (52 <= v <= 61 && c as int == 48 + (v - 52))
    || (v == 62 && c == '-')
    || (v == 63 && c == '_')
  }

  /** The octets as one number, the first one on top. */
  function Number(b: Bytes): nat {
    if b == [] then 0 else 256 * Number(b[..|b| - 1]) + b[|b| - 1]
  }

  /** The groups of six bits as one number, the first one on top. */
  function GroupsNumber(v: seq<sextet>): nat {
    if v == [] then 0 else 64 * GroupsNumber(v[..|v| - 1]) + v[|v| - 1]
  }

  lemma NumberOfMore(b: Bytes, x: byte)
    ensures Number(b + [x]) == 256 * Number(b) + x
  {
    assert (b + [x])[..|b|] == b;
  }

  lemma GroupsNumberOfMore(v: seq<sextet>, x: sextet)
    ensures GroupsNumber(v + [x]) == 64 * GroupsNumber(v) + x
  {
    assert (v + [x])[..|v|] == v;
  }

  lemma SmallNumbers(b0: int, b1: int, b2: int)
    requires 0 <= b0 < 256 && 0 <= b1 < 256 && 0 <= b2 < 256
    ensures Number([b0]) == b0 && Number([b0, b1]) == 256 * b0 + b1 && Number([b0, b1, b2]) == 65536 * b0 + 256 * b1 + b2
  {
    NumberOfMore([], b0);
    NumberOfMore([b0], b1);
    NumberOfMore([b0, b1], b2);
    assert [] + [b0] == [b0] && [b0] + [b1] == [b0, b1] && [b0, b1] + [b2] == [b0, b1, b2];
  }

  lemma SmallGroups(v0: int, v1: int, v2: int, v3: int)
    requires 0 <= v0 < 64 && 0 <= v1 < 64 && 0 <= v2 < 64 && 0 <= v3 < 64
    ensures GroupsNumber([v0, v1]) == 64 * v0 + v1 && GroupsNumber([v0, v1, v2]) == 4096 * v0 + 64 * v1 + v2
    ensures GroupsNumber([v0, v1, v2, v3]) == 262144 * v0 + 4096 * v1 + 64 * v2 + v3
  {
    GroupsNumberOfMore([], v0);
    GroupsNumberOfMore([v0], v1);
    GroupsNumberOfMore([v0, v1], v2);
    GroupsNumberOfMore([v0, v1, v2], v3);
    assert [] + [v0] == [v0] && [v0] + [v1] == [v0, v1];
    assert [v0, v1] + [v2] == [v0, v1, v2] && [v0, v1, v2] + [v3] == [v0, v1, v2, v3];
  }

  lemma SplitIs(b0: byte, b1: byte, b2: byte)
    ensures GroupsNumber(Split(b0, b1, b2)) == Number([b0, b1, b2])
  {
    SmallNumbers(b0, b1, b2);
    SmallGroups(b0 / 4, b0 % 4 * 16 + b1 / 16, b1 % 16 * 4 + b2 / 64, b2 % 64);
    ThreeOctets(b0, b1, b2);
  }

  lemma ThreeOctets(b0: int, b1: int, b2: int)
    ensures 262144 * (b0 / 4) + 4096 * (b0 % 4 * 16 + b1 / 16) + 64 * (b1 % 16 * 4 + b2 / 64) + b2 % 64
            == 65536 * b0 + 256 * b1 + b2
  {
  }

  /** The rest is followed by 4 zero bits after one octet, by 2 after two. */
  lemma LastSextetsIs(b: Bytes)
    requires |b| < 3
    ensures GroupsNumber(LastSextets(b)) == if |b| == 1 then 16 * Number(b) else if |b| == 2 then 4 * Number(b) else 0
  {
    if |b| == 1 {
      assert b == [b[0]];
      OneOctet(b[0]);
    } else if |b| == 2 {
      assert b == [b[0], b[1]];
      TwoOctets(b[0], b[1]);
    }
  }

  lemma OneOctet(b0: int)
    requires 0 <= b0 < 256
    ensures GroupsNumber(LastSextets([b0])) == 16 * Number([b0])
  {
    SmallNumbers(b0, 0, 0);
    SmallGroups(b0 / 4, b0 % 4 * 16, 0, 0);
    FillOne(b0);
  }

  lemma FillOne(b0: int)
    ensures 64 * (b0 / 4) + b0 % 4 * 16 == 16 * b0
  {
  }

  lemma TwoOctets(b0: int, b1: int)
    requires 0 <= b0 < 256 && 0 <= b1 < 256
    ensures GroupsNumber(LastSextets([b0, b1])) == 4 * Number([b0, b1])
  {
    SmallNumbers(b0, b1, 0);
    SmallGroups(b0 / 4, b0 % 4 * 16 + b1 / 16, b1 % 16 * 4, 0);
    FillTwo(b0, b1);
  }

  lemma FillTwo(b0: int, b1: int)
    ensures 4096 * (b0 / 4) + 64 * (b0 % 4 * 16 + b1 / 16) + b1 % 16 * 4 == 4 * (256 * b0 + b1)
  {
  }

  lemma {:induction false} SextetsOfGroup(b: Bytes, g: nat)
    requires 3 * g + 3 <= |b|
    ensures Sextets(b)[4 * g..4 * g + 4] == Split(b[3 * g], b[3 * g + 1], b[3 * g + 2])
    decreases g
  {
    if g > 0 {
      SextetsOfGroup(b[3..], g - 1);
      assert Sextets(b)[4 * g..4 * g + 4] == Sextets(b[3..])[4 * (g - 1)..4 * (g - 1) + 4];
    }
  }

  lemma GroupIs(b: Bytes, g: nat)
    requires 3 * g + 3 <= |b|
    ensures |Sextets(b)| >= 4 * g + 4 && GroupsNumber(Sextets(b)[4 * g..4 * g + 4]) == Number(b[3 * g..3 * g + 3])
  {
    SextetsOfGroup(b, g);
    SplitIs(b[3 * g], b[3 * g + 1], b[3 * g + 2]);
    assert b[3 * g..3 * g + 3] == [b[3 * g], b[3 * g + 1], b[3 * g + 2]];
  }

  lemma DropMore<T>(a: seq<T>, s: seq<T>, n: nat)
    requires n <= |s|
    ensures (a + s)[|a| + n..] == s[n..]
  {
  }

  lemma {:induction false} SextetsOfRest(b: Bytes)
    ensures var g := |b| / 3; Sextets(b)[4 * g..] == LastSextets(b[3 * g..])
  {
    if |b| >= 3 {
      SextetsOfRest(b[3..]);
      var g := |b[3..]| / 3;
      DropMore(Split(b[0], b[1], b[2]), Sextets(b[3..]), 4 * g);
      assert b[3 * (g + 1)..] == b[3..][3 * g..];
    } else {
      assert b[0..] == b;
    }
  }

  lemma RestIs(b: Bytes)
    ensures var g, n := |b| / 3, |b| % 3;
            && |Sextets(b)| == 4 * g + (if n == 0 then 0 else n + 1)
            && GroupsNumber(Sextets(b)[4 * g..])
               == (if n == 1 then 16 * Number(b[3 * g..]) else if n == 2 then 4 * Number(b[3 * g..]) else 0)
  {
    SextetsOfRest(b);
    LastSextetsIs(b[3 * (|b| / 3)..]);
  }

  lemma DigitStands(b: Bytes, k: nat)
    requires k < |Sextets(b)|
    ensures StandsFor(Encode(b)[k], Sextets(b)[k])
  {
  }

  lemma DigitsStand(b: Bytes, from: nat)
    requires from <= |Sextets(b)|
    ensures |Encode(b)| == |Sextets(b)|
    ensures forall k :: 0 <= k < |Sextets(b)| - from ==> StandsFor(Encode(b)[from + k], Sextets(b)[from..][k])
  {
    forall k | 0 <= k < |Sextets(b)| - from
      ensures StandsFor(Encode(b)[from + k], Sextets(b)[from..][k])
    {
      DigitStands(b, from + k);
    }
  }

  /** The text of every whole group of three octets: four digits that make up the same number. */
  lemma EncodedGroup(b: Bytes, g: nat) returns (v: seq<sextet>)
    requires 3 * g + 3 <= |b|
    ensures |v| == 4 && GroupsNumber(v) == Number(b[3 * g..3 * g + 3])
    ensures forall k :: 0 <= k < 4 ==> StandsFor(Encode(b)[4 * g + k], v[k])
  {
    v := Sextets(b)[4 * g..4 * g + 4];
    GroupIs(b, g);
    DigitsStand(b, 4 * g);
  }

  /** ... and of what is left: in as few digits as hold its bits, filled up with zero bits, unpadded. */
  lemma EncodedRest(b: Bytes) returns (v: seq<sextet>)
    ensures var g, n := |b| / 3, |b| % 3;
            && |v| == (if n == 0 then 0 else n + 1) && |Encode(b)| == 4 * g + |v|
            && GroupsNumber(v) == (if n == 1 then 16 * Number(b[3 * g..]) else if n == 2 then 4 * Number(b[3 * g..]) else 0)
            && forall k :: 0 <= k < |v| ==> StandsFor(Encode(b)[4 * g + k], v[k])
  {
    var g := |b| / 3;
    v := Sextets(b)[4 * g..];
    RestIs(b);
    DigitsStand(b, 4 * g);
  }

  function StripLineBreaks(s: string): (t: string)
    ensures |t| <= |s|
    ensures |t| == |s| ==> t == s
    ensures AllDigits(s) ==> t == s
  {
    if s == "" then ""
    else if s[0] == '\r' || s[0] == '\n' then StripLineBreaks(s[1..])
    else [s[0]] + StripLineBreaks(s[1..])
  }

  function Decode(s: string): Option<Bytes> {
    var t := StripLineBreaks(s);
    if AllDigits(t) then Octets(Values(t)) else None
  }

  lemma {:induction false} OctetsOfSextets(b: Bytes)
    ensures Octets(Sextets(b)) == Some(b)
  {
    if |b| < 3 {
      LastOctetsOfLastSextets(b);
    } else {
      JoinOfSplit(b[0], b[1], b[2]);
      OctetsOfSextets(b[3..]);
      assert Sextets(b)[4..] == Sextets(b[3..]);
      assert b == [b[0], b[1], b[2]] + b[3..];
    }
  }

  lemma DecodeEncode(b: Bytes)
    ensures Decode(Encode(b)) == Some(b)
  {
    OctetsOfSextets(b);
    assert Values(Encode(b)) == Sextets(b);
  }

  /** The last of `n` groups carries the same data: 2 of its bits if it completes one octet, 4 if two. */
  predicate SameLast(n: nat, x: sextet, y: sextet) {
    if n % 4 == 2 then x / 16 == y / 16
    else if n % 4 == 3 then x / 4 == y / 4
    else x == y
  }

  /** Group lists that differ at most in the unused bits of the last group. */
  predicate SameData(v: seq<sextet>, w: seq<sextet>) {
    && |v| == |w|
    && (forall i :: 0 <= i < |v| - 1 ==> v[i] == w[i])
    && (|v| > 0 ==> SameLast(|v|, v[|v| - 1], w[|w| - 1]))
  }

  /** Texts that differ at most in the unused bits of their last digit. */
  predicate SameUpToUnusedBits(s: string, t: string) {
    AllDigits(s) && AllDigits(t) && SameData(Values(s), Values(t))
  }

  lemma {:induction false} SextetsOfOctets(v: seq<sextet>)
    requires Octets(v).Some?
    ensures SameData(v, Sextets(Octets(v).value))
  {
    if |v| < 4 {
      LastSextetsOfLastOctets(v);
    } else {
      SextetsOfOctets(v[4..]);
      SplitOfJoin(v[0], v[1], v[2], v[3]);
      var b := Octets(v).value;
      assert b[3..] == Octets(v[4..]).value;
      assert Sextets(b)[..4] == v[..4] && Sextets(b)[4..] == Sextets(b[3..]);
      SameDataAfterPrefix(v, Sextets(b));
    }
  }

  lemma SameDataAfterPrefix(v: seq<sextet>, w: seq<sextet>)
    requires |v| == |w| >= 4 && v[..4] == w[..4] && SameData(v[4..], w[4..])
    ensures SameData(v, w)
  {
    forall i | 0 <= i < |v| && (i < 4 || i < |v| - 1)
      ensures v[i] == w[i]
    {
      if i < 4 {
        assert v[i] == v[..4][i] && w[i] == w[..4][i];
      } else {
        assert v[i] == v[4..][i - 4] && w[i] == w[4..][i - 4];
      }
    }
    if |v| > 4 {
      assert v[|v| - 1] == v[4..][|v| - 5] && w[|v| - 1] == w[4..][|v| - 5];
    }
  }

  lemma {:induction false} OctetsIgnoreUnusedBits(v: seq<sextet>, w: seq<sextet>)
    requires SameData(v, w)
    ensures Octets(v) == Octets(w)
  {
    if |v| > 4 {
      assert |v| % 4 == |v[4..]| % 4;
      OctetsIgnoreUnusedBits(v[4..], w[4..]);
    } else if |v| == 4 {
      assert v == w;
    } else if |v| != 1 {
      LastOctetsIgnoreUnusedBits(v, w);
    }
  }

  lemma LastOctetsIgnoreUnusedBits(v: seq<sextet>, w: seq<sextet>)
    requires SameData(v, w) && |v| < 4 && |v| != 1
    ensures LastOctets(v) == LastOctets(w)
  {
  }

  /** Printing what was parsed gives the text back up to skipped line breaks and unused bits, and
      only texts that agree up to those are parsed alike. */
  lemma EncodeDecode(s: string, t: string)
    requires Decode(s).Some? && Decode(t).Some?
    ensures SameUpToUnusedBits(StripLineBreaks(s), Encode(Decode(s).value))
    ensures Decode(s) == Decode(t) <==> SameUpToUnusedBits(StripLineBreaks(s), StripLineBreaks(t))
  {
    var v, w := Values(StripLineBreaks(s)), Values(StripLineBreaks(t));
    SextetsOfOctets(v);
    SextetsOfOctets(w);
    assert Values(Encode(Decode(s).value)) == Sextets(Octets(v).value);
    if Octets(v) == Octets(w) {
      SameDataEuclidean(v, w, Sextets(Octets(v).value));
    } else if SameData(v, w) {
      OctetsIgnoreUnusedBits(v, w);
    }
  }

  lemma SameDataEuclidean(v: seq<sextet>, w: seq<sextet>, x: seq<sextet>)
    requires SameData(v, x) && SameData(w, x)
    ensures SameData(v, w)
  {
  }
}

/** Object identifiers, their text and JSON forms, their ETags, and the `turbocharger` header. */
module ObjectIDs {
  import opened Wrappers
  import opened Strings
  import opened Base64Url

  type ObjectID = b: Bytes | |b| == 32 witness seq(32, i => 0)

  const TEXT_LENGTH: nat := 43

  datatype IdError = InvalidLength(got: nat) | InvalidJson | InvalidBase64 | IncorrectLength

  function Text(id: ObjectID): string {
    Encode(id)
  }

  function ETagGZipped(id: ObjectID): string {
    "\"" + Text(id) + "-gz\""
  }

  function ETagUncompressed(id: ObjectID): string {
    "\"" + Text(id) + "\""
  }

  function MarshalJSON(id: ObjectID): string {
    "\"" + Text(id) + "\""
  }

  // --- the JSON string literals `UnmarshalJSON` is given ---

  predicate IsHex(c: char) {
    '0' <= c <= '9' || 'a' <= c <= 'f' || 'A' <= c <= 'F'
  }

  function HexValue(c: char): (v: nat)
    requires IsHex(c)
    ensures v < 16
  {
    if '0' <= c <= '9' then c as int - '0' as int
    else if 'a' <= c <= 'f' then c as int - 'a' as int + 10
    else c as int - 'A' as int + 10
  }

  /** The character of a `\uXXXX` escape; a surrogate becomes the replacement character. */
  function EscapedChar(code: nat): char
    requires code < 0x1_0000
  {
    if 0xD800 <= code < 0xE000 then 0xFFFD as char else code as char
  }

  /** The text a JSON string literal with body `s` stands for, if it is one. */
  function Unquote(s: string): Option<string> {
    if s == "" then Some("")
    else if s[0] == '\"' || s[0] < ' ' then None
    else if s[0] != '\\' then Prepend(s[0], Unquote(s[1..]))
    else if |s| == 1 then None
    else if s[1] == 'u' then
      if |s| >= 6 && IsHex(s[2]) && IsHex(s[3]) && IsHex(s[4]) && IsHex(s[5]) then
        var code := ((HexValue(s[2]) * 16 + HexValue(s[3])) * 16 + HexValue(s[4])) * 16 + HexValue(s[5]);
        Prepend(EscapedChar(code), Unquote(s[6..]))
      else None
    else
      match s[1]
      case '\"' => Prepend('\"', Unquote(s[2..]))
      case '\\' => Prepend('\\', Unquote(s[2..]))
      case '/' => Prepend('/', Unquote(s[2..]))
      case 'b' => Prepend(8 as char, Unquote(s[2..]))
      case 'f' => Prepend(12 as char, Unquote(s[2..]))
      case 'n' => Prepend('\n', Unquote(s[2..]))
      case 'r' => Prepend('\r', Unquote(s[2..]))
      case 't' => Prepend('\t', Unquote(s[2..]))
      case _ => None
  }

  function Prepend(c: char, s: Option<string>): Option<string> {
    match s
    case None => None
    case Some(t) => Some([c] + t)
  }

  /** An escape always shortens the text; without one the text is the body. */
  lemma {:induction false} UnquoteShrinks(s: string)
    ensures Unquote(s).Some? ==> Unquote(s) == Some(s) || |Unquote(s).value| < |s|
  {
    if s != "" {
      UnquoteShrinks(s[1..]);
      assert s == [s[0]] + s[1..];
      if |s| > 1 { UnquoteShrinks(s[2..]); }
      if |s| > 5 { UnquoteShrinks(s[6..]); }
    }
  }

  lemma {:induction false} UnquoteDigits(s: string)
    requires AllDigits(s)
    ensures Unquote(s) == Some(s)
  {
    if s != "" {
      UnquoteDigits(s[1..]);
      assert s == [s[0]] + s[1..];
    }
  }

  /** `raw` is one JSON value without surrounding white space. Ids longer than 32 bytes are cut. */
  function UnmarshalJSON(raw: string): Result<ObjectID, IdError> {
    if |raw| < 2 || raw[0] != '\"' || raw[|raw| - 1] != '\"' then Err(InvalidJson)
    else
      match Unquote(raw[1..|raw| - 1])
      case None => Err(InvalidJson)
      case Some(text) =>
        match Decode(text)
        case None => Err(InvalidBase64)
        case Some(b) => if |b| < 32 then Err(IncorrectLength) else Ok(b[..32])
  }

  function FromString(s: string): Result<ObjectID, IdError> {
    if |s| != TEXT_LENGTH then Err(InvalidLength(|s|)) else UnmarshalJSON("\"" + s + "\"")
  }

  lemma TextShape(id: ObjectID)
    ensures |Text(id)| == TEXT_LENGTH && AllDigits(Text(id))
  {
  }

  lemma TextInjective(a: ObjectID, b: ObjectID)
    ensures Text(a) == Text(b) <==> a == b
  {
    DecodeEncode(a);
    DecodeEncode(b);
  }

  lemma UnmarshalMarshal(id: ObjectID)
    ensures UnmarshalJSON(MarshalJSON(id)) == Ok(id)
    ensures FromString(Text(id)) == Ok(id)
  {
    var raw := "\"" + Text(id) + "\"";
    assert |raw| == 45 && raw[0] == '\"' && raw[44] == '\"' && raw[1..44] == Text(id);
    UnquoteDigits(Text(id));
    DecodeEncode(id);
    assert id[..32] == id;
  }

  /** What an ID is read back as, for a text of any number of bytes: too few are an error, and from
      too many the first 32 are taken. */
  lemma UnmarshalCuts(b: Bytes)
    ensures var raw := "\"" + Encode(b) + "\"";
            UnmarshalJSON(raw) == if |b| < 32 then Err(IncorrectLength) else Ok(b[..32])
  {
    var raw := "\"" + Encode(b) + "\"";
    assert raw[0] == '\"' && raw[|raw| - 1] == '\"' && raw[1..|raw| - 1] == Encode(b);
    UnquoteDigits(Encode(b));
    DecodeEncode(b);
  }

  /** An accepted literal names all of the bytes in it exactly if these are 32, ... */
  lemma UnmarshalExactIff(raw: string, text: string, b: Bytes)
    requires |raw| >= 2 && raw[0] == '\"' && raw[|raw| - 1] == '\"'
    requires Unquote(raw[1..|raw| - 1]) == Some(text) && Decode(text) == Some(b)
    ensures UnmarshalJSON(raw).Ok? <==> |b| >= 32
    ensures UnmarshalJSON(raw).Ok? && UnmarshalJSON(raw).value == b <==> |b| == 32
  {
    if |b| == 32 {
      assert b[..32] == b;
    }
  }

  /** ... and a literal with 33 bytes is read as the ID of the first 32. */
  lemma ThirtyThreeBytesAreCut(id: ObjectID, extra: byte)
    ensures UnmarshalJSON("\"" + Encode(id + [extra]) + "\"") == Ok(id)
  {
    UnmarshalCuts(id + [extra]);
    assert (id + [extra])[..32] == id;
  }

  /** Exactly the 43-digit texts are accepted: no JSON escape or skipped line break gets through,
      because each costs more characters than 32 bytes can spare. */
  lemma AcceptedTexts(s: string)
    ensures FromString(s).Ok? <==> |s| == TEXT_LENGTH && AllDigits(s)
    ensures FromString(s).Ok? ==> Decode(s) == Some(FromString(s).value)
  {
    if |s| == TEXT_LENGTH {
      var raw := "\"" + s + "\"";
      assert |raw| == 45 && raw[0] == '\"' && raw[44] == '\"' && raw[1..44] == s;
      UnquoteShrinks(s);
      if AllDigits(s) {
        UnquoteDigits(s);
        assert Decode(s).Some? && Decode(s).value[..32] == Decode(s).value;
      }
    }
  }

  /** Parsing then printing changes at most the two unused bits of the last digit, so two texts
      name the same object exactly when they agree on everything else. */
  lemma PrintParsed(s: string, t: string, a: ObjectID, b: ObjectID)
    requires FromString(s) == Ok(a) && FromString(t) == Ok(b)
    ensures |s| == |Text(a)| == TEXT_LENGTH && forall i :: 0 <= i < 42 ==> Text(a)[i] == s[i]
    ensures SameUpToUnusedBits(s, Text(a))
    ensures a == b <==> SameUpToUnusedBits(s, t)
  {
    ParsedDigits(s, a);
    ParsedDigits(t, b);
    EncodeDecode(s, t);
    SameDigits(s, Text(a));
  }

  lemma ParsedDigits(s: string, id: ObjectID)
    requires FromString(s) == Ok(id)
    ensures |s| == TEXT_LENGTH && AllDigits(s) && Decode(s) == Some(id)
  {
    AcceptedTexts(s);
  }

  lemma SameDigits(s: string, t: string)
    requires SameUpToUnusedBits(s, t)
    ensures |s| == |t| && forall i :: 0 <= i < |s| - 1 ==> s[i] == t[i]
  {
    forall i | 0 <= i < |s| - 1
      ensures s[i] == t[i]
    {
      assert Values(s)[i] == Values(t)[i];
      assert Digit(Value(s[i])) == s[i] && Digit(Value(t[i])) == t[i];
    }
  }

  /** An ETag names one object in one encoding. */
  lemma ETagsNeverCollide(a: ObjectID, b: ObjectID)
    ensures ETagUncompressed(a) != ETagGZipped(b)
    ensures ETagUncompressed(a) == ETagUncompressed(b) <==> a == b
    ensures ETagGZipped(a) == ETagGZipped(b) <==> a == b
  {
    TextShape(a);
    TextShape(b);
    TextInjective(a, b);
    assert ETagUncompressed(a)[1..44] == Text(a) && ETagUncompressed(b)[1..44] == Text(b);
    assert ETagGZipped(a)[1..44] == Text(a) && ETagGZipped(b)[1..44] == Text(b);
  }

  // --- the `turbocharger` header ---

  datatype Subtree = Subtree(prefix: string, manifestID: ObjectID)

  function HeaderValue(t: Subtree): string {
    t.prefix + " " + Text(t.manifestID)
  }

  /** Go's `strings.Split(s, " ")`. */
  function Fields(s: string): (parts: seq<string>)
    ensures |parts| >= 1
    ensures ' ' in s ==> |parts| >= 2
  {
    var i := IndexOf(s, ' ');
    if i == |s| then [s] else [s[..i]] + Fields(s[i + 1..])
  }

  function ParseHeader(s: string): Result<Subtree, IdError>
    requires ' ' in s
  {
    var parts := Fields(s);
    match FromString(parts[1])
    case Err(e) => Err(e)
    case Ok(id) => Ok(Subtree(parts[0], id))
  }

  /** The header survives the trip exactly when the prefix has no space. */
  lemma HeaderRoundTrip(t: Subtree)
    ensures ' ' in HeaderValue(t)
    ensures ParseHeader(HeaderValue(t)) == Ok(t) <==> ' ' !in t.prefix
  {
    var s := HeaderValue(t);
    assert s[|t.prefix|] == ' ';
    if ' ' !in t.prefix {
      IndexOfUnique(s, ' ', |t.prefix|);
      assert s[..|t.prefix|] == t.prefix && s[|t.prefix| + 1..] == Text(t.manifestID);
      UnmarshalMarshal(t.manifestID);
      assert Fields(s)[1..] == Fields(Text(t.manifestID));
      IndexOfUnique(Text(t.manifestID), ' ', 43);
    } else {
      var k :| 0 <= k < |t.prefix| && t.prefix[k] == ' ';
      assert s[k] == ' ';
      assert Fields(s)[0] == s[..IndexOf(s, ' ')] && |Fields(s)[0]| <= k;
    }
  }
}
