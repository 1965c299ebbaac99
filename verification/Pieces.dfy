/** What the chunk-wise write and read do to the flat bytes of a file. */
module Pieces {
  import opened Bytes
  import opened Layout
  import opened Slices

  type Pieces = seq<Bytes>

  ghost predicate Cut(c: nat, ps: Pieces) {
    forall i :: 0 <= i < |ps| ==> |ps[i]| == c
  }

  /** Byte `j` of chunk `i`; past the table there are only zeros. */
  function ByteOf(ps: Pieces, i: nat, j: nat): Byte {
    if i < |ps| && j < |ps[i]| then ps[i][j] else 0
  }

  /** The byte at position `p` of the file. */
  function At(c: nat, ps: Pieces, p: nat): Byte
    requires c > 0
  {
    ByteOf(ps, p / c, p % c)
  }

  /** What every file operation keeps: as many chunks as the size calls for, and zeros behind the end. */
  ghost predicate FileShape(c: nat, size: nat, ps: Pieces) {
    && c > 0 && size + c - 1 < WORD
    && |ps| == CeilDiv(size, c)
    && Cut(c, ps)
    && forall p: nat :: size <= p ==> At(c, ps, p) == 0
  }

  ghost function FlatBytes(c: nat, size: nat, ps: Pieces): (b: Bytes)
    requires c > 0
    ensures |b| == size
  {
    seq(size, p requires 0 <= p < size => At(c, ps, p))
  }

  // ---------- growing the table ----------

  function Grow(c: nat, ps: Pieces, n: nat): (g: Pieces)
    ensures |g| == Max(|ps|, n)
    ensures Cut(c, ps) ==> Cut(c, g)
  {
    if n <= |ps| then ps else ps + seq(n - |ps|, _ => Zeros(c))
  }

  lemma GrowByte(c: nat, ps: Pieces, n: nat, i: nat, j: nat)
    ensures ByteOf(Grow(c, ps, n), i, j) == ByteOf(ps, i, j)
  {
  }

  /** Appending holes up to a new end adds zeros to the file and nothing else. */
  lemma GrowShape(c: nat, size: nat, ps: Pieces, end: nat)
    requires FileShape(c, size, ps) && end + c - 1 < WORD
    ensures var g, size' := Grow(c, ps, CeilDiv(end, c)), Max(size, end);
      FileShape(c, size', g) && FlatBytes(c, size', g) == FlatBytes(c, size, ps) + Zeros(size' - size)
  {
    var g, size' := Grow(c, ps, CeilDiv(end, c)), Max(size, end);
    CeilDivMono(size, end, c);
    CeilDivMono(end, size, c);
    forall p: nat ensures At(c, g, p) == At(c, ps, p) { GrowByte(c, ps, CeilDiv(end, c), p / c, p % c); }
  }

  lemma CeilDivMono(x: nat, y: nat, c: nat)
    requires c > 0
    ensures x <= y ==> CeilDiv(x, c) <= CeilDiv(y, c)
  {
    CeilDivBounds(x, c);
    CeilDivBounds(y, c);
    MulMono(CeilDiv(y, c), CeilDiv(x, c), c);
  }

  // ---------- writing ----------

  function Overlay(base: Bytes, at: nat, src: Bytes): (r: Bytes)
    requires at + |src| <= |base|
    ensures |r| == |base|
    ensures forall j :: 0 <= j < |r| ==> r[j] == if at <= j < at + |src| then src[j - at] else base[j]
  {
    base[..at] + src + base[at + |src|..]
  }

  /** The slice of chunk `idx` is taken to cover all that the chunk holds, so its old bytes are not loaded. */
  predicate Skipped(c: nat, prev: nat, surplus: nat, off: nat, n: nat, idx: nat)
    requires c > 0
  {
    OffStart(c, off, idx) == 0 && OffEnd(c, off, n, idx) == OffChunkEnd(c, prev, surplus, idx)
  }

  /** One turn of the write loop, on the piece `base` that chunk `idx` holds. */
  function WriteOne(c: nat, base: Bytes, prev: nat, surplus: nat, off: nat, data: Bytes, idx: nat): (r: Bytes)
    requires c > 0 && NoWrap(c, off, |data|) && ChunkStart(c, off) <= idx < ChunkEnd(c, off, |data|)
    requires |base| == c
    ensures |r| == c
  {
    Tile(c, off, |data|, idx);
    var s, e := OffStart(c, off, idx), OffEnd(c, off, |data|, idx);
    var w := Max(off, idx * c) - off;
    Overlay(if Skipped(c, prev, surplus, off, |data|, idx) then Zeros(c) else base, s, data[w..w + (e - s)])
  }

  /** The whole write loop. `surplus` is where the last old chunk's bytes are taken to end. */
  function WritePieces(c: nat, ps: Pieces, surplus: nat, off: nat, data: Bytes): (r: Pieces)
    requires c > 0 && NoWrap(c, off, |data|) && forall i :: 0 <= i < |ps| ==> |ps[i]| == c
    ensures |r| == Max(|ps|, ChunkEnd(c, off, |data|))
    ensures Cut(c, r)
  {
    var st, en := ChunkStart(c, off), ChunkEnd(c, off, |data|);
    var g := Grow(c, ps, en);
    seq(|g|, i requires 0 <= i < |g| =>
      if st <= i < en then WriteOne(c, g[i], |ps|, surplus, off, data, i) else g[i])
  }

  /** The write loop up to chunk `idx`. */
  ghost function Partly(c: nat, ps: Pieces, surplus: nat, off: nat, data: Bytes, idx: nat): (r: Pieces)
    requires c > 0 && NoWrap(c, off, |data|) && forall i :: 0 <= i < |ps| ==> |ps[i]| == c
    ensures |r| == Max(|ps|, ChunkEnd(c, off, |data|))
  {
    var w, g := WritePieces(c, ps, surplus, off, data), Grow(c, ps, ChunkEnd(c, off, |data|));
    seq(|g|, i requires 0 <= i < |g| => if i < idx then w[i] else g[i])
  }

  lemma PartlyEnds(c: nat, ps: Pieces, surplus: nat, off: nat, data: Bytes)
    requires c > 0 && NoWrap(c, off, |data|) && forall i :: 0 <= i < |ps| ==> |ps[i]| == c
    ensures Partly(c, ps, surplus, off, data, ChunkStart(c, off)) == Grow(c, ps, ChunkEnd(c, off, |data|))
    ensures Partly(c, ps, surplus, off, data, ChunkEnd(c, off, |data|)) == WritePieces(c, ps, surplus, off, data)
  {
    hide WriteOne, ChunkStart, ChunkEnd;
  }

  lemma PartlyNext(c: nat, ps: Pieces, surplus: nat, off: nat, data: Bytes, idx: nat)
    requires c > 0 && NoWrap(c, off, |data|) && forall i :: 0 <= i < |ps| ==> |ps[i]| == c
    requires ChunkStart(c, off) <= idx < ChunkEnd(c, off, |data|)
    ensures var p := Partly(c, ps, surplus, off, data, idx);
      && |p[idx]| == c
      && Partly(c, ps, surplus, off, data, idx + 1)
         == p[idx := WriteOne(c, p[idx], |ps|, surplus, off, data, idx)]
  {
    hide WriteOne, ChunkStart, ChunkEnd;
  }

  lemma WriteOneSlice(c: nat, base: Bytes, prev: nat, surplus: nat, off: nat, data: Bytes, idx: nat)
    requires c > 0 && NoWrap(c, off, |data|) && |base| == c
    requires ChunkStart(c, off) <= idx < ChunkEnd(c, off, |data|)
    ensures var s, e, w := OffStart(c, off, idx), OffEnd(c, off, |data|, idx), Max(off, idx * c) - off;
      && 0 <= s <= e <= c && w + (e - s) <= |data| && s + |data[w..w + (e - s)]| <= c
      && WriteOne(c, base, prev, surplus, off, data, idx)
         == Overlay(if Skipped(c, prev, surplus, off, |data|, idx) then Zeros(c) else base, s, data[w..w + (e - s)])
  {
    hide ChunkStart, ChunkEnd, OffStart, OffEnd, Skipped, Overlay, NoWrap;
    Tile(c, off, |data|, idx);
  }

  lemma PartlyStep(c: nat, ps: Pieces, surplus: nat, off: nat, data: Bytes, idx: nat)
    requires c > 0 && NoWrap(c, off, |data|) && forall i :: 0 <= i < |ps| ==> |ps[i]| == c
    requires ChunkStart(c, off) <= idx < ChunkEnd(c, off, |data|)
    ensures var p, s, e := Partly(c, ps, surplus, off, data, idx), OffStart(c, off, idx), OffEnd(c, off, |data|, idx);
      var w := Served(c, off, |data|, idx);
      && |p[idx]| == c && 0 <= w && 0 <= s <= e <= c && w + (e - s) <= |data| && s + |data[w..w + (e - s)]| <= c
      && Partly(c, ps, surplus, off, data, idx + 1)
         == p[idx := Overlay(if Skipped(c, |ps|, surplus, off, |data|, idx) then Zeros(c) else p[idx],
                             s, data[w..w + (e - s)])]
  {
    hide ChunkStart, ChunkEnd, OffStart, OffEnd, Skipped, Overlay, NoWrap, Partly, WriteOne;
    ServedSums(c, off, |data|, idx);
    PartlyNext(c, ps, surplus, off, data, idx);
    WriteOneSlice(c, Partly(c, ps, surplus, off, data, idx)[idx], |ps|, surplus, off, data, idx);
  }

  /** The slice laid over a piece that starts at position `first` of the file. */
  lemma OverlayByte(c: nat, base: Bytes, first: nat, s: nat, e: nat, off: nat, data: Bytes, j: nat)
    requires j < c == |base| && s <= e <= c
    requires first + s == Max(off, first) && first + e == Min(off + |data|, first + c)
    ensures Overlay(base, s, data[Max(off, first) - off..Max(off, first) - off + (e - s)])[j]
      == if off <= first + j < off + |data| then data[first + j - off] else base[j]
  {
  }

  lemma WriteOneByte(c: nat, base: Bytes, prev: nat, surplus: nat, off: nat, data: Bytes, idx: nat, j: nat)
    requires c > 0 && NoWrap(c, off, |data|) && ChunkStart(c, off) <= idx < ChunkEnd(c, off, |data|)
    requires |base| == c && j < c
    ensures WriteOne(c, base, prev, surplus, off, data, idx)[j] ==
      if off <= idx * c + j < off + |data| then data[idx * c + j - off]
      else if Skipped(c, prev, surplus, off, |data|, idx) then 0 else base[j]
  {
    hide ChunkStart, ChunkEnd, OffStart, OffEnd, Skipped, NoWrap, Overlay, Max, Min;
    Tile(c, off, |data|, idx);
    var s, e := OffStart(c, off, idx), OffEnd(c, off, |data|, idx);
    OverlayByte(c, if Skipped(c, prev, surplus, off, |data|, idx) then Zeros(c) else base, idx * c, s, e, off, data, j);
  }

  lemma WriteByte(c: nat, ps: Pieces, surplus: nat, off: nat, data: Bytes, i: nat, j: nat)
    requires c > 0 && NoWrap(c, off, |data|) && Cut(c, ps) && j < c
    ensures ByteOf(WritePieces(c, ps, surplus, off, data), i, j) ==
      if off <= i * c + j < off + |data| then data[i * c + j - off]
      else if ChunkStart(c, off) <= i < ChunkEnd(c, off, |data|) && Skipped(c, |ps|, surplus, off, |data|, i) then 0
      else ByteOf(ps, i, j)
  {
    var en := ChunkEnd(c, off, |data|);
    var g := Grow(c, ps, en);
    GrowByte(c, ps, en, i, j);
    if ChunkStart(c, off) <= i < en {
      WriteOneByte(c, g[i], |ps|, surplus, off, data, i, j);
    } else {
      OutsideRange(c, off, |data|, i, j);
    }
    hide ChunkStart, ChunkEnd, OffStart, OffEnd, Skipped, WriteOne, Grow;
  }

  lemma OutsideRange(c: nat, off: nat, n: nat, i: nat, j: nat)
    requires c > 0 && NoWrap(c, off, n) && j < c
    requires !(ChunkStart(c, off) <= i < ChunkEnd(c, off, n))
    ensures !(off <= i * c + j < off + n)
  {
    var st, en := ChunkStart(c, off), ChunkEnd(c, off, n);
    assert st * c <= off by { DivMod(off, c); }
    assert en == CeilDiv(off + n, c);
    assert off + n <= en * c by { CeilDivBounds(off + n, c); }
    MulMono(i, st, c);
    MulMono(en, i, c);
    hide ChunkStart, ChunkEnd, CeilDiv;
  }

  /** Byte by byte: the range holds the data, and the rest its old bytes except in skipped chunks. */
  lemma WriteAt(c: nat, ps: Pieces, surplus: nat, off: nat, data: Bytes, p: nat)
    requires c > 0 && NoWrap(c, off, |data|) && Cut(c, ps)
    ensures At(c, WritePieces(c, ps, surplus, off, data), p) ==
      if off <= p < off + |data| then data[p - off]
      else if ChunkStart(c, off) <= p / c < ChunkEnd(c, off, |data|) &&
        Skipped(c, |ps|, surplus, off, |data|, p / c) then 0
      else At(c, ps, p)
  {
    hide ChunkStart, ChunkEnd, Skipped, WritePieces, NoWrap;
    DivMod(p, c);
    WriteByte(c, ps, surplus, off, data, p / c, p % c);
  }

  // ---------- what a write means for the flat file ----------

  /** Replace [off, off + |data|), zero-fill a gap before it, keep everything else. */
  function Splice(b: Bytes, off: nat, data: Bytes): (r: Bytes)
    ensures |r| == Max(|b|, off + |data|)
  {
    seq(Max(|b|, off + |data|), p requires 0 <= p < Max(|b|, off + |data|) =>
      if off <= p < off + |data| then data[p - off] else if p < |b| then b[p] else 0)
  }

  /** A write that covers the last chunk from its start to just before the file's last byte. */
  predicate Lossy(c: nat, size: nat, off: nat, n: nat)
    requires c > 0
  {
    size > 0 && (size - 1) % c >= 1 && off <= ((size - 1) / c) * c && off + n + 1 == size
  }

  /** What ecall_fs_write does to the flat bytes, on every input. */
  function ExactWrite(c: nat, b: Bytes, off: nat, data: Bytes): (r: Bytes)
    requires c > 0
    ensures |r| == Max(|b|, off + |data|)
  {
    if Lossy(c, |b|, off, |data|) then Splice(b, off, data)[|b| - 1 := 0] else Splice(b, off, data)
  }

  lemma LastChunk(c: nat, size: nat)
    requires c > 0 && size > 0 && size + c - 1 < WORD
    ensures CeilDiv(size, c) == (size - 1) / c + 1
    ensures LastSurplus(c, size) == (size - 1) % c
  {
    var l, r := (size - 1) / c, (size - 1) % c;
    assert size - 1 == l * c + r && 0 <= r < c by { DivMod(size - 1, c); }
    assert (l + 1) * c == l * c + c;
    CeilDivUnique(size, l + 1, c);
    DivUnique(l + 1, r, c);
  }

  /** Which chunks are skipped without being covered: at most the last old one, and only up to `surplus`. */
  lemma SkippedChunk(c: nat, size: nat, surplus: nat, off: nat, n: nat, i: nat, j: nat)
    requires c > 0 && size + c - 1 < WORD && NoWrap(c, off, n) && j < c
    requires ChunkStart(c, off) <= i < ChunkEnd(c, off, n)
    requires Skipped(c, CeilDiv(size, c), surplus, off, n, i) && !(off <= i * c + j < off + n)
    ensures size > 0 && i == (size - 1) / c
    ensures off <= i * c && off + n == i * c + surplus <= i * c + j
  {
    assert size > 0 ==> CeilDiv(size, c) == (size - 1) / c + 1 by { if size > 0 { LastChunk(c, size); } }
    assert i < WORD - 1 by { FewChunks(c, off, n); }
    assert CeilDiv(0, c) == 0 by { CeilDivUnique(0, 0, c); }
    assert CeilDiv(size, c) < WORD by { CeilDivBounds(size, c); MulGrows(CeilDiv(size, c), c); }
    Tile(c, off, n, i);
    hide ChunkStart, ChunkEnd, OffStart, OffEnd, CeilDiv;
  }

  lemma {:induction false} MulGrows(k: nat, c: nat)
    requires c > 0
    ensures k <= k * c
  {
    MulMono(1, c, k);
    assert c * k == k * c;
  }

  lemma FewChunks(c: nat, off: nat, n: nat)
    requires c > 0 && NoWrap(c, off, n)
    ensures ChunkEnd(c, off, n) < WORD
  {
    var en := ChunkEnd(c, off, n);
    assert en * c < WORD by { CeilDivBounds(off + n, c); }
    MulGrows(en, c);
  }

  lemma LossySkips(c: nat, size: nat, off: nat, n: nat)
    requires c > 0 && size + c - 1 < WORD && NoWrap(c, off, n) && Lossy(c, size, off, n)
    ensures var l := (size - 1) / c;
      ChunkStart(c, off) <= l < ChunkEnd(c, off, n) && Skipped(c, CeilDiv(size, c), LastSurplus(c, size), off, n, l)
  {
    LastChunk(c, size);
    DivMod(size - 1, c);
    SkipsTo(c, off, n, (size - 1) / c, (size - 1) % c);
  }

  lemma SkipsTo(c: nat, off: nat, n: nat, l: nat, r: nat)
    requires c > 0 && NoWrap(c, off, n) && off <= l * c && off + n == l * c + r && 1 <= r < c
    ensures ChunkStart(c, off) <= l < ChunkEnd(c, off, n) && Skipped(c, l + 1, r, off, n, l)
  {
    assert ChunkStart(c, off) * c <= off by { DivMod(off, c); }
    assert off + n <= ChunkEnd(c, off, n) * c by { CeilDivBounds(off + n, c); }
    hide ChunkStart, ChunkEnd, OffStart, OffEnd;
    MulMono(l, ChunkStart(c, off), c);
    MulMono(ChunkEnd(c, off, n), l, c);
    assert l < WORD by { MulGrows(l, c); }
    Tile(c, off, n, l);
  }

  lemma WriteSizes(c: nat, size: nat, off: nat, n: nat)
    requires c > 0 && size + c - 1 < WORD && NoWrap(c, off, n)
    ensures Max(CeilDiv(size, c), ChunkEnd(c, off, n)) == CeilDiv(Max(size, off + n), c)
  {
    CeilDivMono(size, off + n, c);
    CeilDivMono(off + n, size, c);
  }

  /** A byte of the file the loop neither writes nor keeps. */
  ghost predicate Dropped(c: nat, size: nat, surplus: nat, off: nat, n: nat, p: nat)
    requires c > 0
  {
    && p < size && !(off <= p < off + n)
    && ChunkStart(c, off) <= p / c < ChunkEnd(c, off, n)
    && Skipped(c, CeilDiv(size, c), surplus, off, n, p / c)
  }

  lemma DroppedOnlyWhenLossy(c: nat, size: nat, off: nat, n: nat, p: nat)
    requires c > 0 && size + c - 1 < WORD && NoWrap(c, off, n)
    ensures Dropped(c, size, LastSurplus(c, size), off, n, p) ==> Lossy(c, size, off, n) && p == size - 1
  {
    var s, i, j := LastSurplus(c, size), p / c, p % c;
    if Dropped(c, size, s, off, n, p) {
      assert p == i * c + j && j < c by { DivMod(p, c); }
      SkippedChunk(c, size, s, off, n, i, j);
      LastChunk(c, size);
      TileEnd(c, off, n, i);
      assert size - 1 == i * c + s by { DivMod(size - 1, c); }
      assert s >= 1;
    }
  }

  lemma DroppedExactly(c: nat, size: nat, off: nat, n: nat, p: nat)
    requires c > 0 && size + c - 1 < WORD && NoWrap(c, off, n)
    ensures Dropped(c, size, LastSurplus(c, size), off, n, p) <==> Lossy(c, size, off, n) && p == size - 1
  {
    DroppedOnlyWhenLossy(c, size, off, n, p);
    if Lossy(c, size, off, n) { LossySkips(c, size, off, n); }
    hide ChunkStart, ChunkEnd, OffStart, OffEnd, CeilDiv, LastSurplus, Skipped;
  }

  lemma DroppedNever(c: nat, size: nat, off: nat, n: nat, p: nat)
    requires c > 0 && size + c - 1 < WORD && NoWrap(c, off, n)
    ensures !Dropped(c, size, LastUsed(c, size), off, n, p)
  {
    var s, i, j := LastUsed(c, size), p / c, p % c;
    if Dropped(c, size, s, off, n, p) {
      assert p == i * c + j && j < c by { DivMod(p, c); }
      SkippedChunk(c, size, s, off, n, i, j);
      DivMod(size - 1, c);
      assert false;
    }
  }

  lemma WriteKeeps(c: nat, size: nat, ps: Pieces, surplus: nat, off: nat, data: Bytes, p: nat)
    requires FileShape(c, size, ps) && NoWrap(c, off, |data|)
    ensures At(c, WritePieces(c, ps, surplus, off, data), p) ==
      if off <= p < off + |data| then data[p - off]
      else if Dropped(c, size, surplus, off, |data|, p) then 0 else At(c, ps, p)
  {
    hide ChunkStart, ChunkEnd, CeilDiv, Skipped, WritePieces, At;
    WriteAt(c, ps, surplus, off, data, p);
  }

  /** The source's write loop, on any file and any range: the exact result. */
  lemma WriteExact(c: nat, size: nat, ps: Pieces, off: nat, data: Bytes)
    requires FileShape(c, size, ps) && NoWrap(c, off, |data|)
    ensures var size', ps' := Max(size, off + |data|), WritePieces(c, ps, LastSurplus(c, size), off, data);
      FileShape(c, size', ps') && FlatBytes(c, size', ps') == ExactWrite(c, FlatBytes(c, size, ps), off, data)
  {
    assert Lossy(c, size, off, |data|) ==> size > 0;
    hide WritePieces, LastSurplus, At, Lossy, Dropped, ChunkEnd, CeilDiv;
    WriteSizes(c, size, off, |data|);
    var b, ps' := FlatBytes(c, size, ps), WritePieces(c, ps, LastSurplus(c, size), off, data);
    forall p: nat
      ensures At(c, ps', p) == if p < Max(size, off + |data|) then ExactWrite(c, b, off, data)[p] else 0
    {
      WriteKeeps(c, size, ps, LastSurplus(c, size), off, data, p);
      DroppedExactly(c, size, off, |data|, p);
    }
  }

  /** With the boundary taken where the last chunk's bytes do end, every write is the splice. */
  lemma WriteRepaired(c: nat, size: nat, ps: Pieces, off: nat, data: Bytes)
    requires FileShape(c, size, ps) && NoWrap(c, off, |data|)
    ensures var size', ps' := Max(size, off + |data|), WritePieces(c, ps, LastUsed(c, size), off, data);
      FileShape(c, size', ps') && FlatBytes(c, size', ps') == Splice(FlatBytes(c, size, ps), off, data)
  {
    hide WritePieces, LastUsed, At, Dropped, ChunkEnd, CeilDiv;
    WriteSizes(c, size, off, |data|);
    var b, ps' := FlatBytes(c, size, ps), WritePieces(c, ps, LastUsed(c, size), off, data);
    forall p: nat
      ensures At(c, ps', p) == if p < Max(size, off + |data|) then Splice(b, off, data)[p] else 0
    {
      WriteKeeps(c, size, ps, LastUsed(c, size), off, data, p);
      DroppedNever(c, size, off, |data|, p);
    }
  }

  lemma ExactIsSplice(c: nat, b: Bytes, off: nat, data: Bytes)
    requires c > 0
    ensures ExactWrite(c, b, off, data) == Splice(b, off, data)
      <==> !Lossy(c, |b|, off, |data|) || b[|b| - 1] == 0
  {
    if Lossy(c, |b|, off, |data|) {
      assert Splice(b, off, data)[|b| - 1] == b[|b| - 1];
      assert ExactWrite(c, b, off, data)[|b| - 1] == 0;
      if b[|b| - 1] == 0 {
        assert ExactWrite(c, b, off, data) == Splice(b, off, data);
      }
    }
  }

  /** The source's write loop does the splice exactly when the write is not lossy, or the byte it drops
      was zero. */
  lemma WriteIsSplice(c: nat, size: nat, ps: Pieces, off: nat, data: Bytes)
    requires c > 0 && FileShape(c, size, ps) && NoWrap(c, off, |data|)
    ensures FlatBytes(c, Max(size, off + |data|), WritePieces(c, ps, LastSurplus(c, size), off, data))
        == Splice(FlatBytes(c, size, ps), off, data)
      <==> !Lossy(c, size, off, |data|) || At(c, ps, size - 1) == 0
  {
    hide WritePieces, LastSurplus, Lossy, ExactWrite, Splice, FileShape, At, NoWrap;
    LossyNotEmpty(c, size, off, |data|);
    WriteExact(c, size, ps, off, data);
    var b := FlatBytes(c, size, ps);
    assert size > 0 ==> b[size - 1] == At(c, ps, size - 1);
    ExactIsSplice(c, b, off, data);
  }

  lemma LossyNotEmpty(c: nat, size: nat, off: nat, n: nat)
    requires c > 0
    ensures Lossy(c, size, off, n) ==> size > 0
  {
  }

  /** A file of ten ones: the loop, writing nine bytes at its start, clears the tenth. */
  lemma LossyExample()
    ensures var ps: Pieces := [seq(10, _ => 1) + Zeros(4086)];
      var data: Bytes := seq(9, _ => 2);
      && FileShape(4096, 10, ps) && At(4096, ps, 9) == 1
      && At(4096, WritePieces(4096, ps, LastSurplus(4096, 10), 0, data), 9) == 0
  {
    var ps: Pieces := [seq(10, _ => 1) + Zeros(4086)];
    var data: Bytes := seq(9, _ => 2);
    assert CeilDiv(10, 4096) == 1;
    assert Lossy(4096, 10, 0, 9);
    hide WritePieces, LastSurplus;
    WriteExact(4096, 10, ps, 0, data);
    var b := FlatBytes(4096, 10, WritePieces(4096, ps, LastSurplus(4096, 10), 0, data));
    assert b[9] == 0;
  }

  // ---------- reading ----------

  ghost function ReadRange(c: nat, ps: Pieces, off: nat, n: nat): (r: Bytes)
    requires c > 0
    ensures |r| == n && forall i :: 0 <= i < n ==> r[i] == At(c, ps, off + i)
  {
    seq<Byte>(n, i requires 0 <= i < n => At(c, ps, off + i))
  }

  /** Inside the file a range reads as its bytes; behind the end it reads as zeros. */
  lemma ReadFlat(c: nat, size: nat, ps: Pieces, off: nat, n: nat)
    requires FileShape(c, size, ps)
    ensures off + n <= size ==> ReadRange(c, ps, off, n) == FlatBytes(c, size, ps)[off..off + n]
    ensures size <= off ==> ReadRange(c, ps, off, n) == Zeros(n)
  {
  }

  /** The slice of one chunk, as a part of the range being read. */
  lemma SliceOfRange(c: nat, ps: Pieces, off: nat, n: nat, idx: nat)
    requires c > 0 && NoWrap(c, off, n) && Cut(c, ps)
    requires ChunkStart(c, off) <= idx < ChunkEnd(c, off, n) <= |ps|
    ensures var s, e := OffStart(c, off, idx), OffEnd(c, off, n, idx);
      var w := Served(c, off, n, idx);
      0 <= s <= e <= c && 0 <= w <= w + (e - s) <= n
      && ps[idx][s..e] == ReadRange(c, ps, off, n)[w..w + (e - s)]
  {
    ServedSums(c, off, n, idx);
    ServedAt(c, off, n, idx);
    var s, e := OffStart(c, off, idx), OffEnd(c, off, n, idx);
    var w := idx * c + s - off;
    var r := ReadRange(c, ps, off, n);
    hide OffStart, OffEnd, ChunkStart, ChunkEnd, Served;
    forall k | s <= k < e
      ensures ps[idx][k] == r[idx * c - off + k]
    {
      DivUnique(idx, k, c);
      assert off + (idx * c - off + k) == idx * c + k;
    }
    assert ps[idx][s..e] == r[w..w + (e - s)];
  }
}
