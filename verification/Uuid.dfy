/** Identifiers of stored objects (enclave/uuid.cpp) and the file names made from them. */
module Uuid {
  import opened Bytes

  type UUID = u: Bytes | |u| == 16 witness Zeros(16)

  /** The default-constructed identifier; in a chunk table it marks a hole. */
  const NULL: UUID := Zeros(16)

  function HexDigit(d: nat): (c: char)
    requires d < 16
  {
    "0123456789abcdef"[d]
  }

  function HexPair(b: Byte): (s: string)
    ensures |s| == 2
  {
    [HexDigit(b / 16), HexDigit(b % 16)]
  }

  function Hex(b: Bytes): (s: string)
    ensures |s| == 2 * |b|
  {
    if b == [] then [] else HexPair(b[0]) + Hex(b[1..])
  }

  /** The textual form of section 3 of RFC 4122: 8-4-4-4-12 lower-case hexadecimal digits. */
  function Unparse(u: UUID): (s: string)
    ensures |s| == 36
  {
    Hex(u[0..4]) + "-" + Hex(u[4..6]) + "-" + Hex(u[6..8]) + "-" + Hex(u[8..10]) + "-" + Hex(u[10..16])
  }

  lemma HexPairInjective(a: Byte, b: Byte)
    requires HexPair(a) == HexPair(b)
    ensures a == b
  {
    assert HexPair(a)[0] == HexPair(b)[0] && HexPair(a)[1] == HexPair(b)[1];
    assert forall i, j :: 0 <= i < 16 && 0 <= j < 16 && HexDigit(i) == HexDigit(j) ==> i == j;
  }

  lemma {:induction false} HexInjective(a: Bytes, b: Bytes)
    requires |a| == |b| && Hex(a) == Hex(b)
    ensures a == b
  {
    if a != [] {
      assert Hex(a)[..2] == HexPair(a[0]) && Hex(b)[..2] == HexPair(b[0]);
      HexPairInjective(a[0], b[0]);
      assert Hex(a)[2..] == Hex(a[1..]) && Hex(b)[2..] == Hex(b[1..]);
      HexInjective(a[1..], b[1..]);
    }
  }

  /** Two objects share a storage name only when they are the same object. */
  lemma UnparseInjective(u: UUID, v: UUID)
    ensures Unparse(u) == Unparse(v) <==> u == v
  {
    hide Hex;
    if Unparse(u) == Unparse(v) {
      var s := Unparse(u);
      assert s[0..8] == Hex(u[0..4]) == Hex(v[0..4]);
      assert s[9..13] == Hex(u[4..6]) == Hex(v[4..6]);
      assert s[14..18] == Hex(u[6..8]) == Hex(v[6..8]);
      assert s[19..23] == Hex(u[8..10]) == Hex(v[8..10]);
      assert s[24..36] == Hex(u[10..16]) == Hex(v[10..16]);
      HexInjective(u[0..4], v[0..4]);
      HexInjective(u[4..6], v[4..6]);
      HexInjective(u[6..8], v[6..8]);
      HexInjective(u[8..10], v[8..10]);
      HexInjective(u[10..16], v[10..16]);
      assert u == u[0..4] + u[4..6] + u[6..8] + u[8..10] + u[10..16];
      assert v == v[0..4] + v[4..6] + v[6..8] + v[8..10] + v[10..16];
    }
  }

  // ---------- what the text looks like ----------

  /** The value of a lower-case hexadecimal digit, or -1. */
  function DigitValue(c: char): int {
    if '0' <= c <= '9' then c as int - '0' as int
    else if 'a' <= c <= 'f' then c as int - 'a' as int + 10
    else -1
  }

  /** Where the two digits of byte `i` stand: a dash comes before bytes 4, 6, 8 and 10. */
  function PlaceOf(i: nat): nat {
    2 * i + (if i < 4 then 0 else if i < 6 then 1 else if i < 8 then 2 else if i < 10 then 3 else 4)
  }

  lemma {:induction false} HexAt(b: Bytes, i: nat)
    requires i < |b|
    ensures Hex(b)[2 * i..2 * i + 2] == HexPair(b[i])
  {
    if i > 0 {
      HexAt(b[1..], i - 1);
      assert Hex(b)[2 * i..2 * i + 2] == Hex(b[1..])[2 * (i - 1)..2 * (i - 1) + 2];
    }
  }

  lemma DigitsOf(b: Byte)
    ensures 0 <= DigitValue(HexPair(b)[0]) && 0 <= DigitValue(HexPair(b)[1])
    ensures 16 * DigitValue(HexPair(b)[0]) + DigitValue(HexPair(b)[1]) == b
  {
    assert forall d :: 0 <= d < 16 ==> DigitValue(HexDigit(d)) == d;
  }

  lemma UnparseAt(u: UUID, i: nat)
    requires i < 16
    ensures Unparse(u)[PlaceOf(i)..PlaceOf(i) + 2] == HexPair(u[i])
  {
    hide Hex, HexPair;
    var st, en := if i < 4 then 0 else if i < 6 then 4 else if i < 8 then 6 else if i < 10 then 8 else 10,
      if i < 4 then 4 else if i < 6 then 6 else if i < 8 then 8 else if i < 10 then 10 else 16;
    HexAt(u[st..en], i - st);
    var s, h := Unparse(u), Hex(u[st..en]);
    assert s[PlaceOf(st)..PlaceOf(st) + |h|] == h;
    assert s[PlaceOf(i)..PlaceOf(i) + 2] == h[2 * (i - st)..2 * (i - st) + 2];
  }

  /** 36 characters: dashes at 8, 13, 18 and 23, and two lower-case digits for each byte in order, the
      high one first. */
  lemma UnparseText(u: UUID)
    ensures var s := Unparse(u); |s| == 36 && s[8] == s[13] == s[18] == s[23] == '-'
    ensures forall i :: 0 <= i < 16 ==>
      var s, k := Unparse(u), PlaceOf(i);
      && 0 <= DigitValue(s[k]) && 0 <= DigitValue(s[k + 1])
      && 16 * DigitValue(s[k]) + DigitValue(s[k + 1]) == u[i]
  {
    hide Hex, HexPair, DigitValue;
    forall i | 0 <= i < 16
      ensures var s, k := Unparse(u), PlaceOf(i);
        && 0 <= DigitValue(s[k]) && 0 <= DigitValue(s[k + 1])
        && 16 * DigitValue(s[k]) + DigitValue(s[k + 1]) == u[i]
    {
      UnparseAt(u, i);
      DigitsOf(u[i]);
      var s, k := Unparse(u), PlaceOf(i);
      assert s[k..k + 2][0] == s[k] && s[k..k + 2][1] == s[k + 1];
    }
  }
}
