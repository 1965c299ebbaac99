/** Bytes, the machine's 64-bit unsigned arithmetic and little-endian fields. */
module Bytes {

  type Byte = b: int | 0 <= b < 256
  type Bytes = seq<Byte>

  datatype Option<+T> = None | Some(value: T)

  const WORD: nat := 0x1_0000_0000_0000_0000

  function Zeros(n: nat): (z: Bytes)
    ensures |z| == n && forall i :: 0 <= i < n ==> z[i] == 0
  {
    seq(n, _ => 0)
  }

  /** The value a `size_t` expression takes: the mathematical one, modulo 2^64. */
  function U64(x: int): (w: nat)
    ensures w < WORD
    ensures 0 <= x < WORD ==> w == x
  {
    x % WORD
  }

  /** The value of a 64-bit expression stored into a 32-bit `int`. */
  function Int32(x: int): (i: int)
    ensures -0x8000_0000 <= x < 0x8000_0000 ==> i == x
  {
    (x + 0x8000_0000) % 0x1_0000_0000 - 0x8000_0000
  }

  /** `k` bytes holding `n` in little-endian order. */
  function EncLE(n: nat, k: nat): (b: Bytes)
    ensures |b| == k
  {
    if k == 0 then [] else [n % 256] + EncLE(n / 256, k - 1)
  }

  function DecLE(b: Bytes): nat
  {
    if b == [] then 0 else b[0] + 256 * DecLE(b[1..])
  }

  function Pow256(k: nat): (p: nat)
    ensures p > 0
  {
    if k == 0 then 1 else 256 * Pow256(k - 1)
  }

  lemma {:induction false} LERoundTrip(n: nat, k: nat)
    requires n < Pow256(k)
    ensures DecLE(EncLE(n, k)) == n
  {
    if k > 0 {
      LERoundTrip(n / 256, k - 1);
      assert EncLE(n, k)[1..] == EncLE(n / 256, k - 1);
    }
  }

  function Enc64(n: nat): (b: Bytes)
    ensures |b| == 8
  {
    EncLE(n, 8)
  }

  function Enc32(n: nat): (b: Bytes)
    ensures |b| == 4
  {
    EncLE(n, 4)
  }

  lemma RoundTrip64(n: nat)
    requires n < WORD
    ensures DecLE(Enc64(n)) == n
  {
    assert Pow256(8) == WORD by {
      assert Pow256(4) == 0x1_0000_0000;
      assert Pow256(6) == 0x1_0000_0000_0000;
    }
    LERoundTrip(n, 8);
  }

  lemma RoundTrip32(n: nat)
    requires n < 0x1_0000_0000
    ensures DecLE(Enc32(n)) == n
  {
    assert Pow256(2) == 0x1_0000;
    assert Pow256(4) == 0x1_0000_0000;
    LERoundTrip(n, 4);
  }

  // ---------- division ----------

  lemma DivMod(p: nat, c: nat)
    requires c > 0
    ensures p == (p / c) * c + p % c && 0 <= p % c < c
  {
  }

  lemma {:induction false} MulMono(a: nat, b: nat, c: nat)
    ensures a <= b ==> a * c <= b * c
    ensures a < b ==> a * c + c <= b * c
  {
    if a < b {
      MulMono(a, b - 1, c);
      assert b * c == (b - 1) * c + c;
    }
  }

  lemma DivUnique(i: nat, j: nat, c: nat)
    requires j < c
    ensures (i * c + j) / c == i && (i * c + j) % c == j
  {
    var p := i * c + j;
    var q, r := p / c, p % c;
    assert p == q * c + r && 0 <= r < c by { DivMod(p, c); }
    MulMono(q, i, c);
    MulMono(i, q, c);
  }

  lemma DivDiv(n: nat, a: nat, b: nat)
    requires a > 0 && b > 0
    ensures b * a > 0 && n / a / b == n / (b * a)
  {
    var q, r, s := n / a / b, n / a % b, n % a;
    DivMod(n, a);
    DivMod(n / a, b);
    assert n == (q * b + r) * a + s;
    assert n == q * (b * a) + (r * a + s);
    MulMono(r, b, a);
    MulMono(0, b, a);
    DivUnique(q, r * a + s, b * a);
  }

  // ---------- the byte order ----------

  /** The byte at place `i` has weight 256 to the power of `i`: the lowest comes first. */
  lemma {:induction false} ByteAt(n: nat, k: nat, i: nat)
    requires i < k
    ensures EncLE(n, k)[i] == (n / Pow256(i)) % 256
  {
    if i > 0 {
      ByteAt(n / 256, k - 1, i - 1);
      DivDiv(n, 256, Pow256(i - 1));
      assert Pow256(i) == Pow256(i - 1) * 256;
    }
  }

  /** The eight bytes of a 64-bit field, and the four of a 32-bit one. */
  lemma FieldBytes(n: nat)
    ensures Enc64(n) == [n % 256, n / 0x100 % 256, n / 0x1_0000 % 256, n / 0x100_0000 % 256,
      n / 0x1_0000_0000 % 256, n / 0x100_0000_0000 % 256, n / 0x1_0000_0000_0000 % 256, n / 0x100_0000_0000_0000 % 256]
    ensures Enc32(n) == [n % 256, n / 0x100 % 256, n / 0x1_0000 % 256, n / 0x100_0000 % 256]
  {
    assert Pow256(4) == 0x1_0000_0000 && Pow256(3) == 0x100_0000 && Pow256(2) == 0x1_0000 && Pow256(1) == 0x100;
    assert Pow256(5) == 0x100_0000_0000;
    assert Pow256(6) == 0x1_0000_0000_0000;
    assert Pow256(7) == 0x100_0000_0000_0000;
    hide EncLE, Pow256;
    assert Pow256(0) == 1 by { PowZero(); }
    forall i | 0 <= i < 8 ensures Enc64(n)[i] == (n / Pow256(i)) % 256 { ByteAt(n, 8, i); }
    forall i | 0 <= i < 4 ensures Enc32(n)[i] == (n / Pow256(i)) % 256 { ByteAt(n, 4, i); }
  }

  lemma PowZero()
    ensures Pow256(0) == 1
  {
  }

  /** Every field is what its number is dumped as. */
  lemma {:induction false} EncDecLE(b: Bytes)
    ensures EncLE(DecLE(b), |b|) == b && DecLE(b) < Pow256(|b|)
  {
    if b != [] {
      EncDecLE(b[1..]);
      assert DecLE(b) % 256 == b[0] && DecLE(b) / 256 == DecLE(b[1..]);
    }
  }

  /** Records of one width laid end to end, in the order the dump loops write them. */
  function EncAll<T>(enc: T -> Bytes, xs: seq<T>): Bytes
  {
    if xs == [] then [] else EncAll(enc, xs[..|xs| - 1]) + enc(xs[|xs| - 1])
  }

  lemma {:induction false} EncAllRecords<T>(enc: T -> Bytes, w: nat, xs: seq<T>)
    requires forall i :: 0 <= i < |xs| ==> |enc(xs[i])| == w
    ensures |EncAll(enc, xs)| == w * |xs|
    ensures forall i :: 0 <= i < |xs| ==>
      0 <= w * i <= w * i + w <= |EncAll(enc, xs)| && EncAll(enc, xs)[w * i..w * i + w] == enc(xs[i])
  {
    if xs != [] {
      var n := |xs| - 1;
      var init := xs[..n];
      forall i | 0 <= i < n ensures |enc(init[i])| == w { assert init[i] == xs[i]; }
      EncAllRecords(enc, w, init);
      assert w * |xs| == w * n + w;
      forall i | 0 <= i < |xs|
        ensures 0 <= w * i <= w * i + w <= |EncAll(enc, xs)| && EncAll(enc, xs)[w * i..w * i + w] == enc(xs[i])
      {
        if i < n {
          MulMono(i, n, w);
          assert init[i] == xs[i];
          assert 0 <= w * i <= w * i + w <= |EncAll(enc, init)|;
          assert EncAll(enc, xs)[w * i..w * i + w] == EncAll(enc, init)[w * i..w * i + w];
        }
      }
    }
  }
}
