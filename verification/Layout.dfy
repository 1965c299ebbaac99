/** The byte layouts of stored metadata: `Filenode`, `Dirnode` and `Superinfo` dump and load. */
module Layout {
  import opened Bytes
  import opened Uuid

  type Iv = v: Bytes | |v| == 12 witness Zeros(12)
  type Tag = t: Bytes | |t| == 16 witness Zeros(16)

  /** One slot of a file's chunk table. A slot whose identifier is NULL is a hole. */
  datatype Chunk = Chunk(uuid: UUID, iv: Iv, tag: Tag)

  const HOLE: Chunk := Chunk(NULL, Zeros(12), Zeros(16))

  datatype FileRec = FileRec(ino: nat, size: nat, chunks: seq<Chunk>)

  /** Names are C strings: no byte of one is zero. */
  type Name = n: Bytes | forall i :: 0 <= i < |n| ==> n[i] != 0 witness []

  const T_DT_DIR: nat := 4
  const T_DT_REG: nat := 8

  const MAX_PATH_LEN: nat := 256

  datatype Dirent = Dirent(ino: nat, name: Name, kind: nat, uuid: UUID)

  datatype DirRec = DirRec(ino: nat, name: Name, entries: seq<Dirent>)

  datatype SuperRec = SuperRec(root: UUID, users: UUID, hashes: Bytes, maxIno: nat)

  /** How many chunks hold `size` bytes. */
  function CeilDiv(size: nat, c: nat): nat
    requires c > 0
  {
    (size + c - 1) / c
  }

  // ---------- Filenode ----------

  function EncChunk(c: Chunk): (b: Bytes)
    ensures |b| == 44
  {
    c.uuid + c.iv + c.tag
  }

  function DecChunk(b: Bytes): Chunk
    requires |b| == 44
  {
    Chunk(b[..16], b[16..28], b[28..])
  }

  function DumpFile(f: FileRec): Bytes
  {
    Enc64(f.ino) + Enc64(f.size) + Enc64(|f.chunks|) + EncAll(EncChunk, f.chunks)
  }

  /** Loading refuses a buffer of the wrong length and a table that does not match the size. */
  function LoadFile(c: nat, b: Bytes): Option<FileRec>
    requires c > 0
  {
    if |b| < 24 then None else
    var ino, size, n := DecLE(b[0..8]), DecLE(b[8..16]), DecLE(b[16..24]);
    if |b| != 24 + 44 * n then None
    else if U64(size + c - 1) / c != n then None
    else Some(FileRec(ino, size, DecChunks(b[24..], n)))
  }

  function DecChunks(b: Bytes, n: nat): (cs: seq<Chunk>)
    requires |b| == 44 * n
    ensures |cs| == n
  {
    seq(n, i requires 0 <= i < n => DecChunk(b[44 * i..44 * i + 44]))
  }

  lemma ChunkRoundTrip(c: Chunk)
    ensures DecChunk(EncChunk(c)) == c
  {
    var b := EncChunk(c);
    assert b[..16] == c.uuid && b[16..28] == c.iv && b[28..] == c.tag;
  }

  lemma ChunksRoundTrip(cs: seq<Chunk>)
    ensures |EncAll(EncChunk, cs)| == 44 * |cs| && DecChunks(EncAll(EncChunk, cs), |cs|) == cs
  {
    EncAllRecords(EncChunk, 44, cs);
    forall i | 0 <= i < |cs| ensures DecChunks(EncAll(EncChunk, cs), |cs|)[i] == cs[i] {
      ChunkRoundTrip(cs[i]);
    }
  }

  /** A saved filenode loads back exactly when its table has the length its size calls for. */
  lemma FileRoundTrip(c: nat, f: FileRec)
    requires c > 0 && f.ino < WORD && f.size + c - 1 < WORD && |f.chunks| < WORD
    ensures LoadFile(c, DumpFile(f)) == if |f.chunks| == CeilDiv(f.size, c) then Some(f) else None
  {
    hide EncAll, EncChunk, Enc64, DecLE, DecChunks;
    var b, n := DumpFile(f), |f.chunks|;
    ChunksRoundTrip(f.chunks);
    assert b[0..8] == Enc64(f.ino) && b[8..16] == Enc64(f.size) && b[16..24] == Enc64(n);
    RoundTrip64(f.ino);
    RoundTrip64(f.size);
    RoundTrip64(n);
    assert b[24..] == EncAll(EncChunk, f.chunks);
  }

  // ---------- Dirnode ----------

  /** `std::string::copy` of at most `limit` bytes into a zeroed field of 256. */
  function NameField(name: Name, limit: nat): (b: Bytes)
    requires limit <= MAX_PATH_LEN
    ensures |b| == MAX_PATH_LEN
  {
    var k := if |name| < limit then |name| else limit;
    name[..k] + Zeros(MAX_PATH_LEN - k)
  }

  /** What a `const char*` to the start of `b` denotes. */
  function CString(b: Bytes): (n: Name)
    ensures |n| <= |b| && n == b[..|n|] && (|n| < |b| ==> b[|n|] == 0)
  {
    if b == [] || b[0] == 0 then [] else [b[0]] + CString(b[1..])
  }

  lemma {:induction false} CStringStops(n: Name, b: Bytes)
    requires n <= b && (|n| < |b| ==> b[|n|] == 0)
    ensures CString(b) == n
  {
    if n != [] {
      assert b[0] == n[0] != 0;
      var rest: Name := n[1..];
      assert rest <= b[1..];
      CStringStops(rest, b[1..]);
    }
  }

  /** `dirent_t`: name[256], uuid[16], ino, type, and four bytes of padding. */
  function EncDirent(d: Dirent): (b: Bytes)
    ensures |b| == 288
  {
    NameField(d.name, MAX_PATH_LEN) + d.uuid + Enc64(d.ino) + Enc32(d.kind) + Zeros(4)
  }

  function DecDirent(b: Bytes): Dirent
    requires |b| == 288
  {
    Dirent(DecLE(b[272..280]), CString(b), DecLE(b[280..284]), b[256..272])
  }

  function DumpDir(d: DirRec): Bytes
  {
    Enc64(d.ino) + NameField(d.name, MAX_PATH_LEN - 1) + Enc64(|d.entries|) + EncAll(EncDirent, d.entries)
  }

  function LoadDir(b: Bytes): Option<DirRec>
  {
    if |b| < 272 then None else
    var n := DecLE(b[264..272]);
    if |b| != 272 + 288 * n then None
    else Some(DirRec(DecLE(b[0..8]), CString(b[8..]), DecDirents(b[272..], n)))
  }

  function DecDirents(b: Bytes, n: nat): (es: seq<Dirent>)
    requires |b| == 288 * n
    ensures |es| == n
  {
    seq(n, i requires 0 <= i < n => DecDirent(b[288 * i..288 * i + 288]))
  }

  ghost predicate DirentFits(d: Dirent) {
    d.ino < WORD && d.kind < 0x1_0000_0000
  }

  lemma DirentFields(d: Dirent)
    requires DirentFits(d)
    ensures DecDirent(EncDirent(d)).(name := d.name) == d
  {
    var b := EncDirent(d);
    assert b[272..280] == Enc64(d.ino) && b[280..284] == Enc32(d.kind) && b[256..272] == d.uuid;
    RoundTrip64(d.ino);
    RoundTrip32(d.kind);
  }

  /** What follows the name field of an entry. */
  function AfterName(d: Dirent): (b: Bytes)
    ensures |b| == 32
  {
    d.uuid + Enc64(d.ino) + Enc32(d.kind) + Zeros(4)
  }

  lemma DirentShortName(d: Dirent)
    requires |d.name| < MAX_PATH_LEN
    ensures CString(EncDirent(d)) == d.name
  {
    var b := EncDirent(d);
    assert NameField(d.name, MAX_PATH_LEN)[|d.name|] == 0;
    assert b[..|d.name|] == d.name && b[|d.name|] == 0;
    CStringStops(d.name, b);
  }

  lemma DirentLongName(d: Dirent)
    requires |d.name| >= MAX_PATH_LEN
    ensures CString(EncDirent(d)) == d.name <==> d.name[MAX_PATH_LEN..] + [0] <= AfterName(d)
  {
    var head, rest, tail := d.name[..MAX_PATH_LEN], d.name[MAX_PATH_LEN..], AfterName(d);
    var b := EncDirent(d);
    assert b == head + tail by { assert NameField(d.name, MAX_PATH_LEN) == head; }
    assert d.name == head + rest;
    if rest + [0] <= tail {
      assert tail[..|rest|] == rest && tail[|rest|] == (rest + [0])[|rest|];
      assert b[..|d.name|] == d.name;
      CStringStops(d.name, b);
    }
    if CString(b) == d.name {
      assert tail[31] == 0;
      assert b[287] == 0;
      assert tail[..|rest|] == rest;
      assert tail[|rest|] == 0;
      assert rest + [0] == tail[..|rest| + 1];
    }
  }

  /** The name field is copied without room for a terminator, so a name that fills it is read on into
      the identifier behind it. An entry survives exactly when its name is shorter than the field, or
      what is left of the name, and a terminator, happen to lie behind the field. */
  lemma DirentRoundTrip(d: Dirent)
    requires DirentFits(d)
    ensures DecDirent(EncDirent(d)) == d
      <==> |d.name| < MAX_PATH_LEN || d.name[MAX_PATH_LEN..] + [0] <= AfterName(d)
  {
    DirentFields(d);
    assert DecDirent(EncDirent(d)).name == CString(EncDirent(d));
    if |d.name| < MAX_PATH_LEN {
      DirentShortName(d);
    } else {
      DirentLongName(d);
    }
  }

  ghost predicate DirRecFits(d: DirRec) {
    && d.ino < WORD && |d.entries| < WORD && |d.name| < MAX_PATH_LEN
    && forall i :: 0 <= i < |d.entries| ==> DirentFits(d.entries[i]) && |d.entries[i].name| < MAX_PATH_LEN
  }

  /** The name of a directory keeps its first 255 bytes. */
  lemma DirName(name: Name, rest: Bytes)
    ensures CString(NameField(name, MAX_PATH_LEN - 1) + rest) == name <==> |name| < MAX_PATH_LEN
  {
    var b := NameField(name, MAX_PATH_LEN - 1) + rest;
    var kept: Name := if |name| < MAX_PATH_LEN then name else name[..MAX_PATH_LEN - 1];
    assert b[|kept|] == 0 && b[..|kept|] == kept;
    CStringStops(kept, b);
  }

  lemma DirHeader(d: DirRec, b: Bytes)
    requires d.ino < WORD && |d.entries| < WORD && b == DumpDir(d)
    ensures |b| >= 272 && b[272..] == EncAll(EncDirent, d.entries)
    ensures DecLE(b[0..8]) == d.ino && DecLE(b[264..272]) == |d.entries|
    ensures CString(b[8..]) == d.name <==> |d.name| < MAX_PATH_LEN
  {
    hide EncAll, Enc64, DecLE, NameField, CString, EncDirent;
    var n := |d.entries|;
    var field, rest := NameField(d.name, MAX_PATH_LEN - 1), Enc64(n) + EncAll(EncDirent, d.entries);
    assert b == Enc64(d.ino) + field + Enc64(n) + EncAll(EncDirent, d.entries);
    assert b[0..8] == Enc64(d.ino) && b[264..272] == Enc64(n) && b[8..] == field + rest;
    RoundTrip64(d.ino);
    RoundTrip64(n);
    DirName(d.name, rest);
  }

  lemma DecodedEntries(es: seq<Dirent>)
    ensures |EncAll(EncDirent, es)| == 288 * |es|
    ensures forall i :: 0 <= i < |es| ==> DecDirents(EncAll(EncDirent, es), |es|)[i] == DecDirent(EncDirent(es[i]))
  {
    hide DecDirent, EncDirent;
    EncAllRecords(EncDirent, 288, es);
  }

  /** An entry's name survives: it is shorter than the field, or the bytes behind the field end it. */
  ghost predicate NameSurvives(e: Dirent) {
    |e.name| < MAX_PATH_LEN || e.name[MAX_PATH_LEN..] + [0] <= AfterName(e)
  }

  /** A directory with any number of entries survives a dump and a load exactly when its own name has at
      most 255 bytes and every entry's name survives. */
  lemma DirRoundTripExact(d: DirRec)
    requires d.ino < WORD && |d.entries| < WORD && forall i :: 0 <= i < |d.entries| ==> DirentFits(d.entries[i])
    ensures LoadDir(DumpDir(d)) == Some(d)
      <==> |d.name| < MAX_PATH_LEN && forall i :: 0 <= i < |d.entries| ==> NameSurvives(d.entries[i])
  {
    var es := d.entries;
    DirHeader(d, DumpDir(d));
    DecodedEntries(es);
    forall i | 0 <= i < |es| ensures DecDirent(EncDirent(es[i])) == es[i] <==> NameSurvives(es[i]) {
      DirentRoundTrip(es[i]);
    }
    hide EncAll, Enc64, DecLE, CString, EncDirent, DecDirent, NameSurvives, DecDirents, DumpDir;
    var got := DecDirents(EncAll(EncDirent, es), |es|);
    assert got == es <==> forall i :: 0 <= i < |es| ==> got[i] == es[i];
  }

  /** In particular when all names in it have at most 255 bytes. */
  lemma DirRoundTrip(d: DirRec)
    requires DirRecFits(d)
    ensures LoadDir(DumpDir(d)) == Some(d)
  {
    hide LoadDir, DumpDir;
    DirRoundTripExact(d);
  }

  /** A name of 256 bytes is read on into an identifier that does not start with zero. */
  lemma LongNameExample()
    ensures var e := Dirent(2, seq(256, _ => 97), T_DT_REG, seq(16, _ => 1));
      DecDirent(EncDirent(e)).name != e.name && LoadDir(DumpDir(DirRec(1, [], [e]))) != Some(DirRec(1, [], [e]))
  {
    var e := Dirent(2, seq(256, _ => 97), T_DT_REG, seq(16, _ => 1));
    assert e.name[256..] + [0] == [0] && AfterName(e)[0] == 1;
    assert !NameSurvives(e);
    hide LoadDir, DumpDir, EncDirent, DecDirent, NameSurvives;
    DirentFields(e);
    DirentRoundTrip(e);
    DirRoundTripExact(DirRec(1, [], [e]));
    assert [e][0] == e;
  }

  // ---------- Superinfo ----------

  function DumpSuper(s: SuperRec): Bytes
  {
    s.root + s.users + s.hashes + Enc64(s.maxIno)
  }

  function LoadSuper(b: Bytes): Option<SuperRec>
  {
    if |b| != 104 then None
    else Some(SuperRec(b[0..16], b[16..32], b[32..96], DecLE(b[96..104])))
  }

  lemma SuperRoundTrip(s: SuperRec)
    requires |s.hashes| == 64 && s.maxIno < WORD
    ensures LoadSuper(DumpSuper(s)) == Some(s)
  {
    var b := DumpSuper(s);
    assert b[0..16] == s.root && b[16..32] == s.users && b[32..96] == s.hashes && b[96..104] == Enc64(s.maxIno);
    RoundTrip64(s.maxIno);
  }

  // ---------- where each field lies ----------

  /** `b` holds the 64-bit `n` at `at`, lowest byte first. */
  ghost predicate Holds64(b: Bytes, at: nat, n: nat) {
    && at + 8 <= |b|
    && b[at] == n % 256 && b[at + 1] == n / 0x100 % 256
    && b[at + 2] == n / 0x1_0000 % 256 && b[at + 3] == n / 0x100_0000 % 256
    && b[at + 4] == n / 0x1_0000_0000 % 256 && b[at + 5] == n / 0x100_0000_0000 % 256
    && b[at + 6] == n / 0x1_0000_0000_0000 % 256 && b[at + 7] == n / 0x100_0000_0000_0000 % 256
  }

  ghost predicate Holds32(b: Bytes, at: nat, n: nat) {
    && at + 4 <= |b|
    && b[at] == n % 256 && b[at + 1] == n / 0x100 % 256
    && b[at + 2] == n / 0x1_0000 % 256 && b[at + 3] == n / 0x100_0000 % 256
  }

  /** `b` holds the first `limit` bytes of `name` at `at`, in a field of 256 bytes that is zero behind them. */
  ghost predicate HoldsName(b: Bytes, at: nat, name: Name, limit: nat) {
    at + 256 <= |b|
    && forall i :: 0 <= i < 256 ==> b[at + i] == if i < |name| && i < limit then name[i] else 0
  }

  lemma Holds64At(b: Bytes, at: nat, n: nat)
    requires at + 8 <= |b| && b[at..at + 8] == Enc64(n)
    ensures Holds64(b, at, n)
  {
    FieldBytes(n);
    hide Enc64;
    var e := b[at..at + 8];
    assert e[0] == b[at] && e[1] == b[at + 1] && e[2] == b[at + 2] && e[3] == b[at + 3];
    assert e[4] == b[at + 4] && e[5] == b[at + 5] && e[6] == b[at + 6] && e[7] == b[at + 7];
  }

  lemma Holds32At(b: Bytes, at: nat, n: nat)
    requires at + 4 <= |b| && b[at..at + 4] == Enc32(n)
    ensures Holds32(b, at, n)
  {
    FieldBytes(n);
    hide Enc32;
    var e := b[at..at + 4];
    assert e[0] == b[at] && e[1] == b[at + 1] && e[2] == b[at + 2] && e[3] == b[at + 3];
  }

  lemma HoldsNameAt(b: Bytes, at: nat, name: Name, limit: nat)
    requires limit <= MAX_PATH_LEN && at + 256 <= |b| && b[at..at + 256] == NameField(name, limit)
    ensures HoldsName(b, at, name, limit)
  {
    var field := b[at..at + 256];
    forall i | 0 <= i < 256 ensures b[at + i] == if i < |name| && i < limit then name[i] else 0 {
      assert field[i] == b[at + i];
    }
  }

  /** `chunk_t` and `filenode_buffer_t`. */
  lemma FilePlaces(f: FileRec)
    ensures var b := DumpFile(f);
      && |b| == 24 + 44 * |f.chunks|
      && Holds64(b, 0, f.ino) && Holds64(b, 8, f.size) && Holds64(b, 16, |f.chunks|)
      && forall i :: 0 <= i < |f.chunks| ==>
           var at := 24 + 44 * i;
           && at + 44 <= |b| && b[at..at + 16] == f.chunks[i].uuid
           && b[at + 16..at + 28] == f.chunks[i].iv && b[at + 28..at + 44] == f.chunks[i].tag
  {
    hide Enc64, EncAll, Holds64;
    var b, cs := DumpFile(f), EncAll(EncChunk, f.chunks);
    EncAllRecords(EncChunk, 44, f.chunks);
    assert b[0..0 + 8] == Enc64(f.ino) && b[8..8 + 8] == Enc64(f.size) && b[16..16 + 8] == Enc64(|f.chunks|);
    Holds64At(b, 0, f.ino);
    Holds64At(b, 8, f.size);
    Holds64At(b, 16, |f.chunks|);
    assert b[24..] == cs;
    forall i | 0 <= i < |f.chunks|
      ensures var at := 24 + 44 * i;
        && at + 44 <= |b| && b[at..at + 16] == f.chunks[i].uuid
        && b[at + 16..at + 28] == f.chunks[i].iv && b[at + 28..at + 44] == f.chunks[i].tag
    {
      var at, e := 24 + 44 * i, EncChunk(f.chunks[i]);
      assert b[at..at + 44] == cs[44 * i..44 * i + 44] == e;
      assert b[at..at + 16] == e[0..16] && b[at + 16..at + 28] == e[16..28] && b[at + 28..at + 44] == e[28..44];
    }
  }

  /** `dirent_t`. */
  lemma DirentPlaces(e: Dirent)
    ensures var b := EncDirent(e);
      && |b| == 288 && HoldsName(b, 0, e.name, 256) && b[256..272] == e.uuid
      && Holds64(b, 272, e.ino) && Holds32(b, 280, e.kind) && forall i :: 284 <= i < 288 ==> b[i] == 0
  {
    hide Enc64, Enc32, NameField, Holds64, Holds32, HoldsName;
    var b := EncDirent(e);
    assert b[0..0 + 256] == NameField(e.name, MAX_PATH_LEN) && b[256..272] == e.uuid;
    assert b[272..272 + 8] == Enc64(e.ino) && b[280..280 + 4] == Enc32(e.kind);
    HoldsNameAt(b, 0, e.name, 256);
    Holds64At(b, 272, e.ino);
    Holds32At(b, 280, e.kind);
  }

  /** `dirnode_buffer_t`. */
  lemma DirPlaces(d: DirRec)
    ensures var b := DumpDir(d);
      && |b| == 272 + 288 * |d.entries|
      && Holds64(b, 0, d.ino) && HoldsName(b, 8, d.name, 255) && Holds64(b, 264, |d.entries|)
      && forall i :: 0 <= i < |d.entries| ==>
           272 + 288 * i + 288 <= |b| && b[272 + 288 * i..272 + 288 * i + 288] == EncDirent(d.entries[i])
  {
    hide Enc64, EncAll, EncDirent, NameField, Holds64, HoldsName;
    var b, es := DumpDir(d), EncAll(EncDirent, d.entries);
    EncAllRecords(EncDirent, 288, d.entries);
    assert b[0..0 + 8] == Enc64(d.ino) && b[8..8 + 256] == NameField(d.name, 255);
    assert b[264..264 + 8] == Enc64(|d.entries|) && b[272..] == es;
    Holds64At(b, 0, d.ino);
    HoldsNameAt(b, 8, d.name, 255);
    Holds64At(b, 264, |d.entries|);
    forall i | 0 <= i < |d.entries|
      ensures 272 + 288 * i + 288 <= |b| && b[272 + 288 * i..272 + 288 * i + 288] == EncDirent(d.entries[i])
    {
      assert b[272 + 288 * i..272 + 288 * i + 288] == es[288 * i..288 * i + 288];
    }
  }

  /** `superinfo_buffer_t`. */
  lemma SuperPlaces(s: SuperRec)
    requires |s.hashes| == 64
    ensures var b := DumpSuper(s);
      |b| == 104 && b[0..16] == s.root && b[16..32] == s.users && b[32..96] == s.hashes && Holds64(b, 96, s.maxIno)
  {
    hide Enc64, Holds64;
    var b := DumpSuper(s);
    assert b[96..96 + 8] == Enc64(s.maxIno);
    Holds64At(b, 96, s.maxIno);
  }

  // ---------- what loads ----------

  /** A buffer loads as a filenode exactly when it is that filenode's dump, and its count is right. */
  lemma FileLoadsExactly(c: nat, b: Bytes, f: FileRec)
    requires c > 0 && f.ino < WORD && f.size + c - 1 < WORD && |f.chunks| < WORD
    ensures LoadFile(c, b) == Some(f) <==> b == DumpFile(f) && |f.chunks| == CeilDiv(f.size, c)
  {
    FileRoundTrip(c, f);
    if LoadFile(c, b) == Some(f) {
      hide Enc64, DecLE, EncAll, EncChunk, DecChunk;
      EncDec64(b[0..8]);
      EncDec64(b[8..16]);
      EncDec64(b[16..24]);
      ChunksLoad(b[24..], |f.chunks|);
      assert b == b[0..8] + b[8..16] + b[16..24] + b[24..];
    }
  }

  lemma EncDec64(b: Bytes)
    requires |b| == 8
    ensures Enc64(DecLE(b)) == b
  {
    EncDecLE(b);
  }

  lemma ChunksLoad(b: Bytes, n: nat)
    requires |b| == 44 * n
    ensures EncAll(EncChunk, DecChunks(b, n)) == b
  {
    var cs := DecChunks(b, n);
    EncAllRecords(EncChunk, 44, cs);
    var e := EncAll(EncChunk, cs);
    forall i | 0 <= i < n ensures e[44 * i..44 * i + 44] == b[44 * i..44 * i + 44] {
      var r := b[44 * i..44 * i + 44];
      assert EncChunk(DecChunk(r)) == r[..16] + r[16..28] + r[28..] == r;
    }
    hide EncAll, EncChunk, DecChunk, DecChunks;
    forall p | 0 <= p < |b| ensures e[p] == b[p] {
      var i, j := p / 44, p % 44;
      assert p == 44 * i + j && 44 * i + 44 <= |b|;
      assert e[44 * i..44 * i + 44][j] == b[44 * i..44 * i + 44][j];
    }
  }
}
