/** A file as pieces of one chunk size: the slice arithmetic of ecall_fs_read and ecall_fs_write,
    and what cutting into pieces means for the flat bytes. */
module Slices {
  import opened Bytes
  import opened Layout

  // ---------- division by the chunk size ----------

  lemma CeilDivBounds(x: nat, c: nat)
    requires c > 0
    ensures x <= CeilDiv(x, c) * c < x + c
  {
    DivMod(x + c - 1, c);
  }

  lemma CeilDivUnique(x: nat, k: nat, c: nat)
    requires c > 0 && x <= k * c < x + c
    ensures CeilDiv(x, c) == k
  {
    DivUnique(k, x + c - 1 - k * c, c);
  }

  // ---------- the expressions of the two loops ----------

  /** No unsigned expression of the loops wraps. */
  predicate NoWrap(c: nat, off: nat, n: nat) {
    off + n + c - 1 < WORD
  }

  function ChunkStart(c: nat, off: nat): nat
    requires c > 0
  {
    off / c
  }

  function ChunkEnd(c: nat, off: nat, n: nat): nat
    requires c > 0
  {
    U64(off + n + c - 1) / c
  }

  function OffStart(c: nat, off: nat, idx: nat): nat
    requires c > 0
  {
    if idx == ChunkStart(c, off) then off % c else 0
  }

  function OffEnd(c: nat, off: nat, n: nat, idx: nat): nat
    requires c > 0
  {
    if idx == U64(ChunkEnd(c, off, n) - 1) then U64(off + n - 1) % c + 1 else c
  }

  /** `last_surplus`: where the source takes the bytes of the last chunk to end. */
  function LastSurplus(c: nat, size: nat): nat
    requires c > 0
  {
    U64(size + c - 1) % c
  }

  /** Where they do end. */
  function LastUsed(c: nat, size: nat): nat
    requires c > 0
  {
    if size == 0 then 0 else (size - 1) % c + 1
  }

  /** `off_chunk_en`, for a table that had `prev` chunks. */
  function OffChunkEnd(c: nat, prev: nat, surplus: nat, idx: nat): nat {
    if idx == U64(prev - 1) then surplus else c
  }

  function Max(a: int, b: int): int { if a < b then b else a }
  function Min(a: int, b: int): int { if a < b then a else b }

  /** Where a slice starts: at the range's start in the first chunk, at the chunk's own in the others. */
  lemma TileStart(c: nat, off: nat, idx: nat)
    requires c > 0 && ChunkStart(c, off) <= idx
    ensures 0 <= OffStart(c, off, idx) < c
    ensures idx * c + OffStart(c, off, idx) == Max(off, idx * c)
    ensures idx == ChunkStart(c, off) ==> Max(off, idx * c) == off
    ensures idx > ChunkStart(c, off) ==> Max(off, idx * c) == idx * c
  {
    var st := off / c;
    assert off == st * c + off % c && 0 <= off % c < c by { DivMod(off, c); }
    if idx > st {
      MulMono(st, idx, c);
    }
  }

  /** Where a slice ends: at the range's end in the last chunk, at the chunk's own in the others. */
  lemma TileEnd(c: nat, off: nat, n: nat, idx: nat)
    requires c > 0 && NoWrap(c, off, n)
    requires ChunkStart(c, off) <= idx < ChunkEnd(c, off, n)
    ensures 0 < OffEnd(c, off, n, idx) <= c
    ensures idx * c + OffEnd(c, off, n, idx) == Min(off + n, idx * c + c)
    ensures idx + 1 == ChunkEnd(c, off, n) ==> Min(off + n, idx * c + c) == off + n
    ensures idx + 1 < ChunkEnd(c, off, n) ==> Min(off + n, idx * c + c) == idx * c + c
  {
    var en, x := ChunkEnd(c, off, n), off + n;
    assert en == CeilDiv(x, c);
    assert x <= en * c < x + c by { CeilDivBounds(x, c); }
    assert (idx + 1) * c == idx * c + c;
    if idx + 1 == en {
      var j := x - 1 - idx * c;
      assert 0 <= j < c;
      DivUnique(idx, j, c);
      assert U64(x - 1) == x - 1 == idx * c + j;
    } else {
      MulMono(idx + 1, en, c);
    }
  }

  /** The slices tile [off, off + n): the slice of chunk `idx` is the part of the range inside it, the
      first starts at `off`, each starts where the one before it ended, and the last ends at `off + n`. */
  lemma Tile(c: nat, off: nat, n: nat, idx: nat)
    requires c > 0 && NoWrap(c, off, n)
    requires ChunkStart(c, off) <= idx < ChunkEnd(c, off, n)
    ensures idx * c + OffStart(c, off, idx) == Max(off, idx * c)
    ensures idx * c + OffEnd(c, off, n, idx) == Min(off + n, idx * c + c)
    ensures 0 <= OffStart(c, off, idx) <= OffEnd(c, off, n, idx) <= c
    ensures idx == ChunkStart(c, off) ==> Max(off, idx * c) == off
    ensures if idx + 1 < ChunkEnd(c, off, n) then Min(off + n, idx * c + c) == Max(off, (idx + 1) * c)
            else Min(off + n, idx * c + c) == off + n
  {
    hide ChunkStart, ChunkEnd, OffStart, OffEnd;
    TileStart(c, off, idx);
    TileStart(c, off, idx + 1);
    TileEnd(c, off, n, idx);
    assert (idx + 1) * c == idx * c + c;
  }

  /** The range that no chunk serves is empty. */
  lemma EmptyTile(c: nat, off: nat, n: nat)
    requires c > 0 && NoWrap(c, off, n)
    ensures ChunkStart(c, off) <= ChunkEnd(c, off, n) == CeilDiv(off + n, c)
    ensures ChunkStart(c, off) == ChunkEnd(c, off, n) ==> n == 0
  {
    DivMod(off, c);
    CeilDivBounds(off + n, c);
    var st, en := ChunkStart(c, off), ChunkEnd(c, off, n);
    MulMono(en, st, c);
  }

  /** `wsize` when the loops come to chunk `idx`: what the chunks before it have served. */
  function Served(c: nat, off: nat, n: nat, idx: nat): int
    requires c > 0
  {
    if idx < ChunkEnd(c, off, n) then Max(off, idx * c) - off else n
  }

  /** The slices add up: nothing is served at the first chunk, each slice adds its length, and all `n`
      bytes are served at the end. */
  lemma ServedSums(c: nat, off: nat, n: nat, idx: nat)
    requires c > 0 && NoWrap(c, off, n)
    requires ChunkStart(c, off) <= idx <= ChunkEnd(c, off, n)
    ensures idx == ChunkStart(c, off) ==> Served(c, off, n, idx) == 0
    ensures idx == ChunkEnd(c, off, n) ==> Served(c, off, n, idx) == n
    ensures idx < ChunkEnd(c, off, n) ==>
      var s, e := OffStart(c, off, idx), OffEnd(c, off, n, idx);
      && 0 <= s <= e <= c
      && 0 <= Served(c, off, n, idx) <= Served(c, off, n, idx) + (e - s) == Served(c, off, n, idx + 1) <= n
  {
    hide ChunkStart, ChunkEnd, OffStart, OffEnd;
    EmptyTile(c, off, n);
    if idx < ChunkEnd(c, off, n) {
      Tile(c, off, n, idx);
      if idx + 1 < ChunkEnd(c, off, n) { Tile(c, off, n, idx + 1); }
    }
  }

  lemma ServedAt(c: nat, off: nat, n: nat, idx: nat)
    requires c > 0 && NoWrap(c, off, n)
    requires ChunkStart(c, off) <= idx < ChunkEnd(c, off, n)
    ensures Served(c, off, n, idx) == idx * c + OffStart(c, off, idx) - off
  {
    Tile(c, off, n, idx);
  }
}
