/**
 The text encoding that PlantUML servers expect: three bytes become four characters of an alphabet
 of 64, and a last group of one or two bytes is filled up with zeros.
 */
module PlantEncoding {
  import opened Words

  type Byte = b: nat | b < 256

  datatype Option<T> = None | Some(value: T)

  /** The character of a six-bit number; larger numbers show as a question mark. */
  function Letter(b: nat): char {
    if b < 10 then '0' + b as char
    else if b < 36 then 'A' + (b - 10) as char
    else if b < 62 then 'a' + (b - 36) as char
    else if b == 62 then '-'
    else if b == 63 then '_'
    else '?'
  }

  predicate InAlphabet(c: char) {
    '0' <= c <= '9' || 'A' <= c <= 'Z' || 'a' <= c <= 'z' || c == '-' || c == '_'
  }

  predicate Letters(s: string) {
    forall k :: 0 <= k < |s| ==> InAlphabet(s[k])
  }

  /** The number of a character of the alphabet. */
  function Number(c: char): (b: nat)
    requires InAlphabet(c)
    ensures b < 64 && Letter(b) == c
  {
    if c <= '9' && c >= '0' then (c - '0') as nat
    else if c >= 'a' then (c - 'a') as nat + 36
    else if c == '_' then 63
    else if c >= 'A' then (c - 'A') as nat + 10
    else 62
  }

  /** Letter is a bijection of the six-bit numbers onto the alphabet; the question mark needs more than six bits. */
  lemma LetterIsBijection(b: nat)
    ensures InAlphabet(Letter(b)) <==> b < 64
    ensures Letter(b) == '?' <==> b >= 64
    ensures b < 64 ==> Number(Letter(b)) == b
  {
  }

  /** encode_6bit */
  method EncodeSix(value: nat) returns (c: char)
    ensures c == Letter(value)
  {
    var b := value;
    if b < 10 {
      return (48 + b) as char;
    }
    b := b - 10;
    if b < 26 {
      return (65 + b) as char;
    }
    b := b - 26;
    if b < 26 {
      return (97 + b) as char;
    }
    b := b - 26;
    if b == 0 {
      return '-';
    }
    if b == 1 {
      return '_';
    }
    return '?';
  }

  /** The four six-bit numbers whose base-64 digits spell the 24-bit number of three bytes. */
  function Group(x: Byte, y: Byte, z: Byte): seq<nat> {
    [x / 4, x % 4 * 16 + y / 16, y % 16 * 4 + z / 64, z % 64]
  }

  function Spelled(ns: seq<nat>): (s: string)
    ensures |s| == |ns|
    ensures forall k :: 0 <= k < |ns| ==> s[k] == Letter(ns[k])
  {
    seq(|ns|, k requires 0 <= k < |ns| => Letter(ns[k]))
  }

  /** The bytes filled up with zeros to a whole number of groups. */
  function Padded(data: seq<Byte>): (p: seq<Byte>)
    ensures |p| % 3 == 0 && |data| <= |p| < |data| + 3
    ensures data <= p && forall k :: |data| <= k < |p| ==> p[k] == 0
  {
    if |data| % 3 == 0 then data
    else if |data| % 3 == 1 then data + [0, 0]
    else data + [0]
  }

  datatype Triple = Triple(x: Byte, y: Byte, z: Byte)

  function Quad(t: Triple): (s: string)
    ensures |s| == 4
  {
    Spelled(Group(t.x, t.y, t.z))
  }

  function Unquad(s: string): Triple {
    if |s| != 4 || !Letters(s) then Triple(0, 0, 0)
    else
      var a, b, c, d := Number(s[0]), Number(s[1]), Number(s[2]), Number(s[3]);
      Triple(a * 4 + b / 16, b % 16 * 16 + c / 4, c % 4 * 64 + d)
  }

  /** Group by group, with any code of a group. */
  function EncodedBy(quad: Triple -> string, data: seq<Byte>): string
    requires |data| % 3 == 0
  {
    if data == [] then []
    else quad(Triple(data[0], data[1], data[2])) + EncodedBy(quad, data[3..])
  }

  function DecodedBy(unquad: string -> Triple, s: string): Option<seq<Byte>> {
    if s == [] then Some([])
    else if |s| < 4 || !Letters(s[..4]) then None
    else
      match DecodedBy(unquad, s[4..])
      case None => None
      case Some(rest) => Some(Bytes(unquad(s[..4])) + rest)
  }

  function Bytes(t: Triple): seq<Byte> {
    [t.x, t.y, t.z]
  }

  function Encoded(data: seq<Byte>): string {
    EncodedBy(Quad, Padded(data))
  }

  function Decoded(s: string): Option<seq<Byte>> {
    DecodedBy(Unquad, s)
  }

  // ---- the loops

  lemma AndHalves(x: nat, y: nat)
    ensures BitAnd(x, y) == 2 * BitAnd(x / 2, y / 2) + if x % 2 == 1 && y % 2 == 1 then 1 else 0
  {
  }

  lemma MaskHalves(k: nat)
    requires k > 0
    ensures (Pow2(k) - 1) / 2 == Pow2(k - 1) - 1 && (Pow2(k) - 1) % 2 == 1
  {
  }

  lemma OddMask(x: nat, m: nat, low: nat)
    requires m % 2 == 1 && BitAnd(x / 2, m / 2) == low
    ensures BitAnd(x, m) == 2 * low + x % 2
  {
    AndHalves(x, m);
  }

  lemma {:induction false} MaskIsRemainder(x: nat, k: nat)
    ensures BitAnd(x, Pow2(k) - 1) == Wrap(x, k)
    decreases k
  {
    if k > 0 {
      MaskIsRemainder(x / 2, k - 1);
      MaskHalves(k);
      LowHalf(x, k);
      var m: nat := Pow2(k) - 1;
      OddMask(x, m, Wrap(x / 2, k - 1));
    } else {
      AndZero(x);
    }
  }

  lemma {:induction false} AndZero(x: nat)
    ensures BitAnd(x, 0) == 0
  {
    if x > 0 {
      AndZero(x / 2);
    }
  }

  lemma {:induction false} OrWithZero(x: nat)
    ensures BitOr(x, 0) == x && BitOr(0, x) == x
  {
    if x > 0 {
      OrWithZero(x / 2);
    }
  }

  lemma {:induction false} OrIsSum(x: nat, y: nat, k: nat)
    requires y < Pow2(k)
    ensures BitOr(ShiftLeft(x, k), y) == ShiftLeft(x, k) + y
    decreases k
  {
    if k == 0 {
      OrWithZero(x);
    } else {
      OrIsSum(x, y / 2, k - 1);
      assert ShiftLeft(x, k) / 2 == ShiftLeft(x, k - 1) && ShiftLeft(x, k) % 2 == 0;
      if ShiftLeft(x, k) > 0 || y > 0 {
        assert BitOr(ShiftLeft(x, k), y) == 2 * BitOr(ShiftLeft(x, k - 1), y / 2) + y % 2;
      }
    }
  }

  lemma FirstShift(x: nat)
    ensures ShiftRight(x, 2) == x / 4
  {
    assert ShiftRight(x, 2) == ShiftRight(x / 2, 1) == ShiftRight(x / 2 / 2, 0);
  }

  lemma FirstLeft(x: nat)
    ensures ShiftLeft(x, 2) == 4 * x && Pow2(2) == 4
  {
    assert ShiftLeft(x, 2) == 2 * ShiftLeft(x, 1) && ShiftLeft(x, 1) == 2 * ShiftLeft(x, 0);
    assert Pow2(1) == 2;
  }

  lemma FourLeft(x: nat)
    ensures ShiftLeft(x, 4) == 16 * x && Pow2(4) == 16
  {
    FirstLeft(x);
    assert ShiftLeft(x, 4) == 2 * ShiftLeft(x, 3) && ShiftLeft(x, 3) == 2 * ShiftLeft(x, 2);
    assert Pow2(4) == 2 * Pow2(3) && Pow2(3) == 2 * Pow2(2);
  }

  lemma TwoMore(x: nat, k: nat)
    ensures ShiftRight(x, k + 2) == ShiftRight(x / 4, k)
  {
    assert ShiftRight(x, k + 2) == ShiftRight(x / 2, k + 1) == ShiftRight(x / 2 / 2, k);
  }

  lemma MiddleShifts(y: nat, z: nat)
    ensures ShiftRight(y, 4) == y / 16 && ShiftRight(z, 6) == z / 64
  {
    TwoMore(y, 2);
    FirstShift(y / 4);
    TwoMore(z, 4);
    TwoMore(z / 4, 2);
    FirstShift(z / 4 / 4);
  }

  lemma PartsInRange(x: Byte, y: Byte, z: Byte)
    ensures |Group(x, y, z)| == 4 && forall k :: 0 <= k < 4 ==> Group(x, y, z)[k] < 64
  {
  }

  lemma Mask2(x: nat)
    ensures BitAnd(x, 0x3) == x % 4
  {
    MaskIsRemainder(x, 2);
  }

  lemma Mask4(x: nat)
    ensures BitAnd(x, 0xF) == x % 16
  {
    MaskIsRemainder(x, 4);
  }

  lemma Mask6(x: nat)
    ensures BitAnd(x, 0x3F) == x % 64
  {
    MaskIsRemainder(x, 6);
  }

  lemma SecondPart(x: nat, y: Byte)
    ensures BitOr(ShiftLeft(BitAnd(x, 0x3), 4), ShiftRight(y, 4)) == x % 4 * 16 + y / 16
  {
    Mask2(x);
    MiddleShifts(y, 0);
    FourLeft(x % 4);
    OrIsSum(x % 4, y / 16, 4);
  }

  lemma ThirdPart(y: nat, z: Byte)
    ensures BitOr(ShiftLeft(BitAnd(y, 0xF), 2), ShiftRight(z, 6)) == y % 16 * 4 + z / 64
  {
    Mask4(y);
    MiddleShifts(0, z);
    FirstLeft(y % 16);
    OrIsSum(y % 16, z / 64, 2);
  }

  /** encode_3bytes */
  method EncodeThree(x: Byte, y: Byte, z: Byte) returns (res: string)
    ensures res == Quad(Triple(x, y, z))
  {
    var c1 := ShiftRight(x, 2);
    var c2 := BitOr(ShiftLeft(BitAnd(x, 0x3), 4), ShiftRight(y, 4));
    var c3 := BitOr(ShiftLeft(BitAnd(y, 0xF), 2), ShiftRight(z, 6));
    var c4 := BitAnd(z, 0x3F);
    FirstShift(x);
    SecondPart(x, y);
    ThirdPart(y, z);
    Mask6(z);
    PartsInRange(x, y, z);
    assert [c1, c2, c3, c4] == Group(x, y, z);
    res := EncodeParts([c1, c2, c3, c4]);
  }

  lemma SixBitsKept(c: nat)
    ensures c < 64 ==> BitAnd(c, 0x3F) == c
  {
    Mask6(c);
    Small(c);
  }

  lemma Small(c: nat)
    ensures c < 64 ==> c % 64 == c
  {
  }

  /** c & 0x3F, which keeps the numbers of a group. */
  function LowSix(c: nat): (low: nat)
    ensures c < 64 ==> low == c
  {
    SixBitsKept(c);
    BitAnd(c, 0x3F)
  }

  /** The loop of encode_3bytes over its four numbers. */
  method EncodeParts(cs: seq<nat>) returns (res: string)
    requires forall k :: 0 <= k < |cs| ==> cs[k] < 64
    ensures res == Spelled(cs)
  {
    res := "";
    for k := 0 to |cs|
      invariant |res| == k
      invariant forall j :: 0 <= j < k ==> res[j] == Letter(cs[j])
    {
      var low := LowSix(cs[k]);
      var c := EncodeSix(low);
      res := res + [c];
    }
  }

  /** encode_64 */
  method Encode64(data: seq<Byte>) returns (res: string)
    ensures res == Encoded(data)
  {
    res := "";
    var i := 0;
    while i < |data|
      invariant i % 3 == 0 && i <= |Padded(data)|
      invariant res == EncodedBy(Quad, Padded(data)[..i])
    {
      var group;
      if i + 2 < |data| {
        group := EncodeThree(data[i], data[i + 1], data[i + 2]);
      } else if i + 1 < |data| {
        group := EncodeThree(data[i], data[i + 1], 0);
      } else {
        group := EncodeThree(data[i], 0, 0);
      }
      PaddedAt(data, i);
      assert group == Quad(Triple(Padded(data)[i], Padded(data)[i + 1], Padded(data)[i + 2]));
      EncodedOneMore(Quad, Padded(data), i);
      res := res + group;
      i := i + 3;
    }
    assert Padded(data)[..i] == Padded(data);
  }

  lemma PaddedAt(data: seq<Byte>, i: nat)
    requires i % 3 == 0 && i < |data|
    ensures i + 3 <= |Padded(data)| && Padded(data)[i] == data[i]
    ensures Padded(data)[i + 1] == if i + 1 < |data| then data[i + 1] else 0
    ensures Padded(data)[i + 2] == if i + 2 < |data| then data[i + 2] else 0
  {
  }

  lemma {:induction false} EncodedOneMore(quad: Triple -> string, data: seq<Byte>, i: nat)
    requires |data| % 3 == 0 && i % 3 == 0 && i < |data|
    ensures i + 3 <= |data|
    ensures EncodedBy(quad, data[..i + 3])
         == EncodedBy(quad, data[..i]) + quad(Triple(data[i], data[i + 1], data[i + 2]))
    decreases i
  {
    if i == 0 {
      assert data[..3][3..] == [];
    } else {
      EncodedOneMore(quad, data[3..], i - 3);
      assert data[..i + 3][3..] == data[3..][..i];
      assert data[..i][3..] == data[3..][..i - 3];
    }
  }

  // ---- one group there and back

  ghost predicate ThereAndBack(quad: Triple -> string, unquad: string -> Triple) {
    forall t :: |quad(t)| == 4 && Letters(quad(t)) && unquad(quad(t)) == t
  }

  ghost predicate BackAndThere(quad: Triple -> string, unquad: string -> Triple) {
    forall s :: |s| == 4 && Letters(s) ==> quad(unquad(s)) == s
  }

  lemma NumbersOfGroup(x: Byte, y: Byte, z: Byte)
    ensures var g := Group(x, y, z);
            g[0] * 4 + g[1] / 16 == x && g[1] % 16 * 16 + g[2] / 4 == y && g[2] % 4 * 64 + g[3] == z
  {
  }

  lemma SpelledBack(g: seq<nat>)
    requires |g| == 4 && forall k :: 0 <= k < 4 ==> g[k] < 64
    ensures Letters(Spelled(g))
    ensures forall k :: 0 <= k < 4 ==> Number(Spelled(g)[k]) == g[k]
  {
    forall k | 0 <= k < 4 ensures InAlphabet(Letter(g[k])) && Number(Letter(g[k])) == g[k] {
      LetterIsBijection(g[k]);
    }
  }

  lemma QuadBack(t: Triple)
    ensures Letters(Quad(t)) && Unquad(Quad(t)) == t
  {
    PartsInRange(t.x, t.y, t.z);
    SpelledBack(Group(t.x, t.y, t.z));
    NumbersOfGroup(t.x, t.y, t.z);
  }

  lemma Regrouped(a: nat, b: nat, c: nat, d: nat)
    requires a < 64 && b < 64 && c < 64 && d < 64
    ensures (a * 4 + b / 16) / 4 == a && (c % 4 * 64 + d) % 64 == d
    ensures (a * 4 + b / 16) % 4 * 16 + (b % 16 * 16 + c / 4) / 16 == b
    ensures (b % 16 * 16 + c / 4) % 16 * 4 + (c % 4 * 64 + d) / 64 == c
  {
    assert (a * 4 + b / 16) % 4 == b / 16;
    assert (b % 16 * 16 + c / 4) / 16 == b % 16;
    assert (b % 16 * 16 + c / 4) % 16 == c / 4;
    assert (c % 4 * 64 + d) / 64 == c % 4;
  }

  lemma SpellsNumbers(s: string)
    requires |s| == 4 && Letters(s)
    ensures Spelled([Number(s[0]), Number(s[1]), Number(s[2]), Number(s[3])]) == s
  {
    var g := [Number(s[0]), Number(s[1]), Number(s[2]), Number(s[3])];
    forall k | 0 <= k < 4 ensures Letter(g[k]) == s[k] {
    }
  }

  lemma UnquadBack(s: string)
    requires |s| == 4 && Letters(s)
    ensures Quad(Unquad(s)) == s
  {
    var a, b, c, d := Number(s[0]), Number(s[1]), Number(s[2]), Number(s[3]);
    var t := Unquad(s);
    Regrouped(a, b, c, d);
    SpellsNumbers(s);
    assert Group(t.x, t.y, t.z) == [a, b, c, d];
  }

  /** A group's code is a bijection of the byte triples onto the four-letter words. */
  lemma QuadIsBijection()
    ensures ThereAndBack(Quad, Unquad) && BackAndThere(Quad, Unquad)
  {
    forall t ensures |Quad(t)| == 4 && Letters(Quad(t)) && Unquad(Quad(t)) == t {
      QuadBack(t);
    }
    forall s | |s| == 4 && Letters(s) ensures Quad(Unquad(s)) == s {
      UnquadBack(s);
    }
  }

  // ---- the round trips

  lemma LettersSplit(s: string, t: string)
    ensures Letters(s + t) <==> Letters(s) && Letters(t)
  {
    if Letters(s + t) {
      assert forall k :: 0 <= k < |s| ==> s[k] == (s + t)[k];
      assert forall k :: 0 <= k < |t| ==> t[k] == (s + t)[|s| + k];
    }
  }

  lemma {:induction false} DecodeInvertsEncode(quad: Triple -> string, unquad: string -> Triple, data: seq<Byte>)
    requires |data| % 3 == 0 && ThereAndBack(quad, unquad)
    ensures DecodedBy(unquad, EncodedBy(quad, data)) == Some(data)
    ensures |EncodedBy(quad, data)| == |data| / 3 * 4
    ensures Letters(EncodedBy(quad, data))
  {
    if data != [] {
      DecodeInvertsEncode(quad, unquad, data[3..]);
      var t := Triple(data[0], data[1], data[2]);
      var s, rest := quad(t), EncodedBy(quad, data[3..]);
      LettersSplit(s, rest);
      assert |s| == 4 && unquad(s) == t;
      assert (s + rest)[..4] == s && (s + rest)[4..] == rest;
      assert DecodedBy(unquad, s + rest) == Some(Bytes(t) + data[3..]);
      assert Bytes(t) + data[3..] == data;
    }
  }

  lemma {:induction false} WhatDecodes(unquad: string -> Triple, s: string)
    ensures DecodedBy(unquad, s).Some? <==> |s| % 4 == 0 && Letters(s)
    ensures DecodedBy(unquad, s).Some? ==> |DecodedBy(unquad, s).value| % 3 == 0
  {
    if |s| >= 4 {
      WhatDecodes(unquad, s[4..]);
      LettersOfGroups(s);
      OneGroupDecodes(unquad, s);
    }
  }

  lemma LettersOfGroups(s: string)
    requires |s| >= 4
    ensures Letters(s) <==> Letters(s[..4]) && Letters(s[4..])
  {
    LettersSplit(s[..4], s[4..]);
    assert s == s[..4] + s[4..];
  }

  lemma OneGroupDecodes(unquad: string -> Triple, s: string)
    requires |s| >= 4
    ensures DecodedBy(unquad, s).Some? <==> Letters(s[..4]) && DecodedBy(unquad, s[4..]).Some?
    ensures DecodedBy(unquad, s).Some? ==> |DecodedBy(unquad, s).value| == 3 + |DecodedBy(unquad, s[4..]).value|
  {
  }

  lemma {:induction false} EncodeInvertsDecode(quad: Triple -> string, unquad: string -> Triple, s: string)
    requires BackAndThere(quad, unquad) && DecodedBy(unquad, s).Some?
    ensures |DecodedBy(unquad, s).value| % 3 == 0
    ensures EncodedBy(quad, DecodedBy(unquad, s).value) == s
  {
    WhatDecodes(unquad, s);
    if s != [] {
      EncodeInvertsDecode(quad, unquad, s[4..]);
      OneGroupMore(quad, unquad, s[..4], DecodedBy(unquad, s[4..]).value);
      assert s == s[..4] + s[4..];
    }
  }

  lemma OneGroupMore(quad: Triple -> string, unquad: string -> Triple, s: string, rest: seq<Byte>)
    requires BackAndThere(quad, unquad) && |s| == 4 && Letters(s) && |rest| % 3 == 0
    ensures EncodedBy(quad, Bytes(unquad(s)) + rest) == s + EncodedBy(quad, rest)
  {
    var data := Bytes(unquad(s)) + rest;
    assert data[3..] == rest;
    assert Triple(data[0], data[1], data[2]) == unquad(s);
  }

  lemma PaddedLength(data: seq<Byte>)
    ensures |Padded(data)| / 3 * 4 == 4 * ((|data| + 2) / 3)
  {
  }

  /**
   Decoding an encoding gives the bytes filled up with zeros; the length is four times the number
   of started groups; and every character is one of the alphabet, so never a question mark.
   */
  lemma RoundTrip(data: seq<Byte>)
    ensures Decoded(Encoded(data)) == Some(Padded(data))
    ensures |Encoded(data)| == 4 * ((|data| + 2) / 3)
    ensures Letters(Encoded(data)) && '?' !in Encoded(data)
  {
    QuadIsBijection();
    DecodeInvertsEncode(Quad, Unquad, Padded(data));
    PaddedLength(data);
  }

  /**
   Two inputs have the same encoding exactly when one is the other with zeros appended within
   the last group; so inputs of equal length are told apart.
   */
  lemma SameEncoding(data: seq<Byte>, other: seq<Byte>)
    requires |data| <= |other|
    ensures Encoded(data) == Encoded(other) <==> data <= other <= Padded(data)
    ensures |data| == |other| && Encoded(data) == Encoded(other) ==> data == other
  {
    RoundTrip(data);
    RoundTrip(other);
    SamePadding(data, other);
  }

  lemma SamePadding(data: seq<Byte>, other: seq<Byte>)
    requires |data| <= |other|
    ensures Padded(data) == Padded(other) <==> data <= other <= Padded(data)
    ensures |data| == |other| && Padded(data) == Padded(other) ==> data == other
  {
    var p, q := Padded(data), Padded(other);
    if p == q {
      assert data == q[..|data|] == other[..|data|];
      assert other == p[..|other|];
    }
    if data <= other <= p {
      assert |p| == |q|;
      assert forall k :: 0 <= k < |p| ==> p[k] == q[k];
    }
  }

  /**
   The other way round: a text decodes exactly when it consists of alphabet characters in whole
   groups of four, and it is the encoding of what it decodes to.
   */
  lemma EveryTextIsAnEncoding(s: string)
    ensures Decoded(s).Some? <==> |s| % 4 == 0 && Letters(s)
    ensures Decoded(s).Some? ==> Encoded(Decoded(s).value) == s
  {
    QuadIsBijection();
    WhatDecodes(Unquad, s);
    if Decoded(s).Some? {
      EncodeInvertsDecode(Quad, Unquad, s);
      assert Padded(Decoded(s).value) == Decoded(s).value;
    }
  }
}
