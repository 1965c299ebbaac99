/** The resident inodes: `Filenode`, `Dirnode` and `Superinfo` objects, and what dumping one writes. */
module Nodes {
  import opened Bytes
  import opened Uuid
  import opened Layout

  /** The fields of a resident file and directory, as values. */
  datatype FileV = FileV(uuid: UUID, ino: nat, size: nat, chunks: seq<Chunk>, refcount: nat) {
    function Rec(): FileRec { FileRec(ino, size, chunks) }
  }
  datatype DirV = DirV(uuid: UUID, ino: nat, name: Name, entries: seq<Dirent>, refcount: nat) {
    function Rec(): DirRec { DirRec(ino, name, entries) }
  }

  /** `memcpy` of `src` into a buffer. */
  method CopyInto(buf: array<Byte>, at: nat, src: Bytes)
    requires at + |src| <= buf.Length
    modifies buf
    ensures buf[..] == old(buf[..at]) + src + old(buf[at + |src|..])
  {
    forall i | 0 <= i < |src| {
      buf[at + i] := src[i];
    }
  }

  lemma EncAllNone<T>(enc: T -> Bytes, xs: seq<T>)
    requires xs == []
    ensures EncAll(enc, xs) == []
  {
  }

  /** What the dump loops have written when the records of `xs` follow `head`. */
  lemma DumpStep<T>(was: Bytes, now: Bytes, head: Bytes, enc: T -> Bytes, w: nat, xs: seq<T>, i: nat)
    requires i < |xs| && |enc(xs[i])| == w && |head| + w * i + w <= |was|
    requires was[..|head| + w * i] == head + EncAll(enc, xs[..i])
    requires now == was[..|head| + w * i] + enc(xs[i]) + was[|head| + w * i + w..]
    ensures |now| == |was| && |head| + w * (i + 1) == |head| + w * i + w
    ensures now[..|head| + w * (i + 1)] == head + EncAll(enc, xs[..i + 1])
    ensures now[|head| + w * (i + 1)..] == was[|head| + w * (i + 1)..]
  {
    assert xs[..i + 1][..i] == xs[..i];
    assert w * (i + 1) == w * i + w;
  }

  class Filenode {
    const uuid: UUID
    const ino: nat
    var size: nat
    var chunks: seq<Chunk>
    var refcount: nat

    ghost function Val(): FileV
      reads this`size, this`chunks, this`refcount
    {
      FileV(uuid, ino, size, chunks, refcount)
    }

    constructor (uuid: UUID, rec: FileRec)
      ensures Val() == FileV(uuid, rec.ino, rec.size, rec.chunks, 0)
    {
      this.uuid, ino, size, chunks, refcount := uuid, rec.ino, rec.size, rec.chunks, 0;
    }

    /** Filenode::dump: nothing is written when the buffer is too small. */
    method Dump(buf: array<Byte>) returns (n: nat)
      modifies buf
      ensures |DumpFile(Val().Rec())| == 24 + 44 * |chunks|
      ensures buf.Length < 24 + 44 * |chunks| ==> n == 0 && buf[..] == old(buf[..])
      ensures buf.Length >= 24 + 44 * |chunks| ==>
        n == 24 + 44 * |chunks| && buf[..n] == DumpFile(Val().Rec()) && buf[n..] == old(buf[n..])
    {
      n := 24 + 44 * |chunks|;
      EncAllRecords(EncChunk, 44, chunks);
      hide EncAll, EncChunk, Enc64;
      if buf.Length < n {
        return 0;
      }
      ghost var head := DumpHead(buf);
      DumpTable(buf, head);
      assert chunks[..|chunks|] == chunks;
    }

    method DumpHead(buf: array<Byte>) returns (ghost head: Bytes)
      requires 24 <= buf.Length
      modifies buf
      ensures head == Enc64(ino) + Enc64(size) + Enc64(|chunks|)
      ensures buf[..24] == head && buf[24..] == old(buf[24..])
    {
      hide Enc64;
      head := Enc64(ino) + Enc64(size) + Enc64(|chunks|);
      CopyInto(buf, 0, Enc64(ino));
      CopyInto(buf, 8, Enc64(size));
      CopyInto(buf, 16, Enc64(|chunks|));
    }

    /** The loop over the table. */
    method DumpTable(buf: array<Byte>, ghost head: Bytes)
      requires |head| == 24 && 24 + 44 * |chunks| <= buf.Length && buf[..24] == head
      modifies buf
      ensures buf[..24 + 44 * |chunks|] == head + EncAll(EncChunk, chunks[..|chunks|])
      ensures buf[24 + 44 * |chunks|..] == old(buf[24 + 44 * |chunks|..])
    {
      hide EncAll;
      assert head + EncAll(EncChunk, chunks[..0]) == head by { EncAllNone(EncChunk, chunks[..0]); }
      var i := 0;
      while i < |chunks|
        invariant 0 <= i <= |chunks|
        invariant buf[..24 + 44 * i] == head + EncAll(EncChunk, chunks[..i])
        invariant buf[24 + 44 * i..] == old(buf[24 + 44 * i..])
      {
        ghost var mid := buf[..];
        CopyInto(buf, 24 + 44 * i, EncChunk(chunks[i]));
        DumpStep(mid, buf[..], head, EncChunk, 44, chunks, i);
        i := i + 1;
      }
    }
  }

  /** How many entries are directories. */
  function Subdirectories(es: seq<Dirent>): nat {
    if es == [] then 0 else Subdirectories(es[..|es| - 1]) + if es[|es| - 1].kind == T_DT_DIR then 1 else 0
  }

  class Dirnode {
    const uuid: UUID
    const ino: nat
    const name: Name
    var entries: seq<Dirent>
    var refcount: nat

    ghost function Val(): DirV
      reads this`entries, this`refcount
    {
      DirV(uuid, ino, name, entries, refcount)
    }

    constructor (uuid: UUID, rec: DirRec)
      ensures Val() == DirV(uuid, rec.ino, rec.name, rec.entries, 0)
    {
      this.uuid, ino, name, entries, refcount := uuid, rec.ino, rec.name, rec.entries, 0;
    }

    method Nlink() returns (cnt: nat)
      ensures cnt == 2 + Subdirectories(entries)
    {
      cnt := 2;
      for i := 0 to |entries|
        invariant cnt == 2 + Subdirectories(entries[..i])
      {
        assert entries[..i + 1][..i] == entries[..i];
        if entries[i].kind == T_DT_DIR {
          cnt := cnt + 1;
        }
      }
      assert entries[..|entries|] == entries;
    }

    /** Dirnode::dump: nothing is written when the buffer is too small. */
    method Dump(buf: array<Byte>) returns (n: nat)
      modifies buf
      ensures |DumpDir(Val().Rec())| == 272 + 288 * |entries|
      ensures buf.Length < 272 + 288 * |entries| ==> n == 0 && buf[..] == old(buf[..])
      ensures buf.Length >= 272 + 288 * |entries| ==>
        n == 272 + 288 * |entries| && buf[..n] == DumpDir(Val().Rec()) && buf[n..] == old(buf[n..])
    {
      n := 272 + 288 * |entries|;
      EncAllRecords(EncDirent, 288, entries);
      hide EncAll, EncDirent;
      if buf.Length < n {
        return 0;
      }
      ghost var head := DumpHead(buf);
      DumpTable(buf, head);
      assert entries[..|entries|] == entries;
    }

    method DumpHead(buf: array<Byte>) returns (ghost head: Bytes)
      requires 272 <= buf.Length
      modifies buf
      ensures head == Enc64(ino) + NameField(name, MAX_PATH_LEN - 1) + Enc64(|entries|)
      ensures buf[..272] == head && buf[272..] == old(buf[272..])
    {
      hide Enc64, NameField;
      head := Enc64(ino) + NameField(name, MAX_PATH_LEN - 1) + Enc64(|entries|);
      CopyInto(buf, 0, Enc64(ino));
      CopyInto(buf, 8, NameField(name, MAX_PATH_LEN - 1));
      CopyInto(buf, 264, Enc64(|entries|));
    }

    /** The loop over the entries. */
    method DumpTable(buf: array<Byte>, ghost head: Bytes)
      requires |head| == 272 && 272 + 288 * |entries| <= buf.Length && buf[..272] == head
      modifies buf
      ensures buf[..272 + 288 * |entries|] == head + EncAll(EncDirent, entries[..|entries|])
      ensures buf[272 + 288 * |entries|..] == old(buf[272 + 288 * |entries|..])
    {
      hide EncAll;
      assert head + EncAll(EncDirent, entries[..0]) == head by { EncAllNone(EncDirent, entries[..0]); }
      var i := 0;
      while i < |entries|
        invariant 0 <= i <= |entries|
        invariant buf[..272 + 288 * i] == head + EncAll(EncDirent, entries[..i])
        invariant buf[272 + 288 * i..] == old(buf[272 + 288 * i..])
      {
        ghost var mid := buf[..];
        CopyInto(buf, 272 + 288 * i, EncDirent(entries[i]));
        DumpStep(mid, buf[..], head, EncDirent, 288, entries, i);
        i := i + 1;
      }
    }
  }

  /** What `dynamic_pointer_cast` tells apart. */
  datatype Inode = File(fn: Filenode) | Dir(dn: Dirnode)
}
