/** What each operation of the flat file system promises, in terms of what is there before and after it:
    when exactly it succeeds, which number it returns otherwise, what it changes, and what a later
    operation then sees. The numbers are those of errno.h. */
module Laws {
  import opened Bytes
  import opened Layout
  import opened Pieces
  import opened Slices
  import opened Coherence
  import opened Flat
  import opened Runs
  import opened Uuid
  import opened Lru
  import opened TreeSteps
  import opened FlatSteps
  import opened Accesses

  /** A resident directory in which a name can be looked for. */
  predicate DirAt(f: FlatFS, p: nat) {
    Resident(f, p) && p in f.dirs
  }

  predicate FileAt(f: FlatFS, ino: nat) {
    Resident(f, ino) && ino in f.files
  }

  predicate HasName(f: FlatFS, p: nat, name: Name) {
    p in f.dirs && name in f.dirs[p]
  }

  // ---------- what stays as it was ----------

  predicate FilesKept(f: FlatFS, f': FlatFS) { f'.files == f.files }

  predicate TreeKept(f: FlatFS, f': FlatFS) { f'.dirs == f.dirs && f'.maxIno == f.maxIno }

  /** All files but `ino`, and the tree and the counts, are as they were. */
  ghost predicate OnlyFile(f: FlatFS, f': FlatFS, ino: nat) {
    && TreeKept(f, f') && f'.refs == f.refs && f'.files.Keys == f.files.Keys
    && forall i :: i in f.files && i != ino ==> f'.files[i] == f.files[i]
  }

  /** All directories but `p` are as they were, and in `p` all names but `name`. */
  ghost predicate OnlyName(f: FlatFS, f': FlatFS, p: nat, name: Name) {
    && p in f.dirs && p in f'.dirs
    && (forall d :: d in f.dirs && d in f'.dirs && d != p ==> f'.dirs[d] == f.dirs[d])
    && (forall n :: n != name ==> (n in f'.dirs[p] <==> n in f.dirs[p]))
    && (forall n :: n != name && n in f.dirs[p] ==> f'.dirs[p][n] == f.dirs[p][n])
  }

  /** All counts but that of `ino` are as they were. */
  ghost predicate OnlyRefs(f: FlatFS, f': FlatFS, ino: nat) {
    forall i :: i != ino ==> Refs(f', i) == Refs(f, i) && (Resident(f', i) <==> Resident(f, i))
  }

  // ---------- lookup, forget ----------

  lemma LookupLaw(c: nat, f: FlatFS, p: nat, name: Name)
    requires c > 0
    ensures var (f', out) := Step(c, f, Op.Lookup(p, name));
      && (out.err == 0 <==> DirAt(f, p) && HasName(f, p, name))
      && (out.err != 0 ==> f' == f && out == Out(2, 0, []))
      && (out.err == 0 ==>
            && out == Out(0, f.dirs[p][name], []) && TreeKept(f, f') && FilesKept(f, f')
            && Refs(f', out.ino) == Refs(f, out.ino) + 1 && OnlyRefs(f, f', out.ino))
  {
  }

  lemma ForgetLaw(c: nat, f: FlatFS, ino: nat, n: nat)
    requires c > 0
    ensures var (f', out) := Step(c, f, Op.Forget(ino, n));
      && (!Resident(f, ino) ==> f' == f && out == Out(2, 0, []))
      && TreeKept(f, f') && FilesKept(f, f')
      && (Resident(f, ino) ==>
            && out == Out(Refs(f, ino) - n, 0, []) && OnlyRefs(f, f', ino)
            && Refs(f', ino) == Max(0, Refs(f, ino) - n)
            && (Resident(f', ino) <==> ino == 1 || Refs(f, ino) > n))
  {
  }

  // ---------- mkdir, create ----------

  function MakeOp(p: nat, name: Name, isFile: bool): Op {
    if isFile then Op.Create(p, name) else Op.Mkdir(p, name)
  }

  lemma MakeLaw(c: nat, f: FlatFS, p: nat, name: Name, isFile: bool)
    requires c > 0 && FlatOk(f)
    ensures var (f', out) := Step(c, f, MakeOp(p, name, isFile));
      && (out.err == 0 <==> DirAt(f, p) && !HasName(f, p, name))
      && (out.err != 0 ==> f' == f && out == Out(
            if !Resident(f, p) then 2 else if p !in f.dirs then 20 else 17, 0, []))
      && (out.err == 0 ==>
            && out == Out(0, f.maxIno, []) && f'.maxIno == f.maxIno + 1
            && OnlyName(f, f', p, name) && HasName(f', p, name) && f'.dirs[p][name] == out.ino
            && Refs(f', out.ino) == 1 && OnlyRefs(f, f', out.ino))
  {
    hide FlatOk, OnlyName, OnlyRefs;
    Unused(f);
    if p in f.dirs { Below(f, p); }
    if DirAt(f, p) && !HasName(f, p, name) { MadeOnly(c, f, p, name, isFile); }
  }

  lemma MadeOnly(c: nat, f: FlatFS, p: nat, name: Name, isFile: bool)
    requires c > 0 && DirAt(f, p) && !HasName(f, p, name) && p < f.maxIno && f.maxIno !in f.dirs && f.maxIno != 1
    ensures var f' := Step(c, f, MakeOp(p, name, isFile)).0;
      OnlyName(f, f', p, name) && OnlyRefs(f, f', f.maxIno)
  {
  }

  /** What is made is an empty file or an empty directory, and nothing else. */
  lemma MadeLaw(c: nat, f: FlatFS, p: nat, name: Name, isFile: bool)
    requires c > 0 && FlatOk(f)
    ensures var (f', out) := Step(c, f, MakeOp(p, name, isFile));
      && (out.err == 0 && isFile ==>
            f'.dirs.Keys == f.dirs.Keys && f'.files == f.files[out.ino := FlatFile([], Quiet)])
      && (out.err == 0 && !isFile ==>
            f'.dirs.Keys == f.dirs.Keys + {out.ino} && f'.dirs[out.ino] == map[] && FilesKept(f, f'))
  {
    hide FlatOk;
    Unused(f);
    if p in f.dirs { Below(f, p); }
  }

  lemma Unused(f: FlatFS)
    requires FlatOk(f)
    ensures f.maxIno !in f.dirs && f.maxIno !in f.files && f.maxIno !in f.refs && f.maxIno != 1
  {
  }

  /** A lookup finds what has been made; making it again is refused. */
  lemma MadeIsFound(c: nat, f: FlatFS, p: nat, name: Name, isFile: bool, again: bool)
    requires c > 0 && FlatOk(f) && DirAt(f, p) && !HasName(f, p, name)
    ensures var f' := Step(c, f, MakeOp(p, name, isFile)).0;
      && Step(c, f', Op.Lookup(p, name)).1 == Out(0, f.maxIno, [])
      && Step(c, f', MakeOp(p, name, again)).1 == Out(17, 0, [])
      && (isFile ==> forall n :: Step(c, f', Op.Read(f.maxIno, 0, n)).1 == Out(0, 0, []))
  {
    hide FlatOk;
    assert p < f.maxIno && 1 < f.maxIno by { Below(f, p); }
  }

  lemma Below(f: FlatFS, p: nat)
    requires FlatOk(f) && p in f.dirs
    ensures p < f.maxIno && 1 < f.maxIno
  {
  }

  // ---------- unlink, rmdir ----------

  lemma UnlinkLaw(c: nat, f: FlatFS, p: nat, name: Name)
    requires c > 0
    ensures var (f', out) := Step(c, f, Op.Unlink(p, name));
      && (out.err == 0 <==> DirAt(f, p) && HasName(f, p, name) && f.dirs[p][name] !in f.dirs)
      && (out.err != 0 ==> f' == f && out == Out(
            if !Resident(f, p) then 2 else if p !in f.dirs then 20 else if name !in f.dirs[p] then 2 else 21, 0, []))
      && f'.dirs.Keys == f.dirs.Keys && f'.maxIno == f.maxIno && f'.refs == f.refs
      && (out.err == 0 ==>
            && out == Out(0, 0, []) && OnlyName(f, f', p, name) && !HasName(f', p, name)
            && f'.files == f.files - {f.dirs[p][name]})
  {
  }

  lemma RmdirLaw(c: nat, f: FlatFS, p: nat, name: Name)
    requires c > 0
    ensures var (f', out) := Step(c, f, Op.Rmdir(p, name));
      && (out.err == 0 <==>
            DirAt(f, p) && HasName(f, p, name) && f.dirs[p][name] in f.dirs && f.dirs[f.dirs[p][name]] == map[])
      && (out.err != 0 ==> f' == f && out == Out(
            if !Resident(f, p) then 2 else if p !in f.dirs then 20 else if name !in f.dirs[p] then 2
            else if f.dirs[p][name] !in f.dirs then 20 else 39, 0, []))
      && FilesKept(f, f') && f'.maxIno == f.maxIno && f'.refs == f.refs
      && (out.err == 0 ==>
            && out == Out(0, 0, []) && f'.dirs.Keys == f.dirs.Keys - {f.dirs[p][name]}
            && (f.dirs[p][name] != p ==> OnlyName(f, f', p, name) && !HasName(f', p, name)))
  {
  }

  /** A lookup no longer finds what has been unlinked or removed, and the name may be used again. */
  lemma RemovedIsGone(c: nat, f: FlatFS, p: nat, name: Name, op: Op, isFile: bool)
    requires c > 0 && (op == Op.Unlink(p, name) || op == Op.Rmdir(p, name))
    requires Step(c, f, op).1.err == 0 && f.dirs[p][name] != p
    ensures var f' := Step(c, f, op).0;
      && Step(c, f', Op.Lookup(p, name)).1 == Out(2, 0, [])
      && Step(c, f', op).1 == Out(2, 0, [])
      && Step(c, f', MakeOp(p, name, isFile)).1 == Out(0, f.maxIno, [])
  {
  }

  // ---------- open ----------

  /** OF_TRUNC is bit 9 of the flags, and the other bits do not matter. */
  lemma TruncatesLaw(q: nat, r: nat)
    requires r < 1024
    ensures Truncates(1024 * q + r) <==> r >= 512
  {
  }

  lemma OpenLaw(c: nat, f: FlatFS, ino: nat, flags: nat)
    requires c > 0
    ensures var (f', out) := Step(c, f, Op.Open(ino, flags));
      && out == (if FileAt(f, ino) then Out(0, 0, []) else Out(13, 0, []))
      && (out.err != 0 || (flags / 512) % 2 == 0 ==> f' == f)
      && (out.err == 0 && (flags / 512) % 2 == 1 ==> OnlyFile(f, f', ino) && f'.files[ino].bytes == [])
  {
  }

  /** A truncated file has nothing to read. */
  lemma TruncatedIsEmpty(c: nat, f: FlatFS, ino: nat, flags: nat, n: nat)
    requires c > 0 && FileAt(f, ino) && (flags / 512) % 2 == 1
    ensures var f' := Step(c, f, Op.Open(ino, flags)).0;
      |f'.files[ino].bytes| == 0 && Step(c, f', Op.Read(ino, 0, n)).1 == Out(0, 0, [])
  {
  }

  // ---------- read, write, fallocate ----------

  lemma ReadLaw(c: nat, f: FlatFS, ino: nat, off: nat, size: nat)
    requires c > 0
    ensures var (f', out) := Step(c, f, Op.Read(ino, off, size));
      && (!FileAt(f, ino) ==> f' == f && out == Out(22, 0, []))
      && (FileAt(f, ino) ==>
            var b := f.files[ino].bytes;
            && OnlyFile(f, f', ino) && f'.files[ino].bytes == b
            && (off <= |b| ==>
                  && out.err == 0 && out.ino == 0 && |out.data| == Min(size, |b| - off)
                  && forall i :: 0 <= i < |out.data| ==> out.data[i] == b[off + i])
            && (off > |b| && CeilDiv(off + size, c) <= CeilDiv(|b|, c) ==>
                  out.err == 0 && out.ino == 0 && |out.data| == size && forall i :: 0 <= i < size ==> out.data[i] == 0)
            && (off > |b| && CeilDiv(off + size, c) > CeilDiv(|b|, c) ==> f' == f && out == Out(22, 0, [])))
  {
    hide CeilDiv;
    if FileAt(f, ino) && off <= |f.files[ino].bytes| {
      assert f.files[ino := f.files[ino]] == f.files;
    }
  }

  lemma WriteLaw(c: nat, f: FlatFS, ino: nat, off: nat, data: Bytes)
    requires c > 0
    ensures var (f', out) := Step(c, f, Op.Write(ino, off, data));
      && (!FileAt(f, ino) ==> f' == f && out == Out(22, 0, []))
      && (FileAt(f, ino) ==>
            var b, b' := f.files[ino].bytes, f'.files[ino].bytes;
            && out == Out(0, 0, []) && OnlyFile(f, f', ino)
            && |b'| == Max(|b|, off + |data|)
            && (forall i :: 0 <= i < |data| ==> b'[off + i] == data[i])
            && (forall i :: |b| <= i < off ==> b'[i] == 0)
            && (forall i :: 0 <= i < |b| && !(off <= i < off + |data|) ==>
                  b'[i] == if Lossy(c, |b|, off, |data|) && i == |b| - 1 then 0 else b[i]))
  {
  }

  /** A read of the range just written returns what was written. */
  lemma WrittenIsRead(c: nat, f: FlatFS, ino: nat, off: nat, data: Bytes)
    requires c > 0 && FileAt(f, ino)
    ensures Step(c, Step(c, f, Op.Write(ino, off, data)).0, Op.Read(ino, off, |data|)).1 == Out(0, 0, data)
  {
    var f' := Step(c, f, Op.Write(ino, off, data)).0;
    WriteLaw(c, f, ino, off, data);
    ReadLaw(c, f', ino, off, |data|);
    hide Step;
    var out := Step(c, f', Op.Read(ino, off, |data|)).1;
    assert out.data == data;
  }

  lemma FallocateLaw(c: nat, f: FlatFS, ino: nat, off: nat, len: nat)
    requires c > 0
    ensures var (f', out) := Step(c, f, Op.Fallocate(ino, off, len));
      && out == (if FileAt(f, ino) then Out(0, 0, []) else Out(13, 0, []))
      && (out.err != 0 ==> f' == f)
      && (out.err == 0 ==>
            var b, b' := f.files[ino].bytes, f'.files[ino].bytes;
            && OnlyFile(f, f', ino) && |b'| == Max(|b|, off + len) && b <= b'
            && forall i :: |b| <= i < |b'| ==> b'[i] == 0)
  {
  }

  // ---------- flush, mount ----------

  lemma FlushLaw(c: nat, f: FlatFS, ino: nat)
    requires c > 0
    ensures var (f', out) := Step(c, f, Op.Flush(ino));
      && out == (if FileAt(f, ino) then Out(0, 0, []) else Out(22, 0, []))
      && (out.err != 0 ==> f' == f)
      && (out.err == 0 ==>
            OnlyFile(f, f', ino) && f'.files[ino].bytes == f.files[ino].bytes && f'.files[ino].status == Quiet)
  {
  }

  lemma MountLaw(c: nat, f: FlatFS)
    requires c > 0
    ensures var (f', out) := Step(c, f, Op.Mount);
      && out == Out(0, 0, []) && TreeKept(f, f') && f'.files.Keys == f.files.Keys
      && (forall i :: i in f.files ==> f'.files[i].bytes == f.files[i].bytes && f'.files[i].status == Quiet)
      && forall i :: Refs(f', i) == 0 && (Resident(f', i) <==> i == 1)
  {
  }

  // ---------- paths ----------

  /** A path goes one step further exactly where a lookup finds the name, and to the inode it finds. */
  lemma WalkLaw(c: nat, f: FlatFS, path: seq<Name>, d: nat, name: Name)
    requires c > 0 && Walk(f, path) == Some(d) && Resident(f, d)
    ensures var out := Step(c, f, Op.Lookup(d, name)).1;
      Walk(f, path + [name]) == if out.err == 0 then Some(out.ino) else None
  {
    assert (path + [name])[..|path|] == path;
  }

  // ---------- the protocol ----------

  /** Once every file is flushed, and as long as every resident inode has a name and the counters are not
      at their limits, any operation keeps to the protocol. */
  lemma LegalWhenFlushed(c: nat, f: FlatFS, op: Op)
    requires c > 0 && f.maxIno + 1 < WORD
    requires forall i :: Resident(f, i) ==> Live(f, i) && Refs(f, i) < 0x7fff_ffff
    requires forall i :: i in f.files ==> f.files[i].status == Quiet
    requires op.Forget? ==> op.ino != 1 && op.n < 0x8000_0000
    requires op.Mkdir? || op.Create? ==> |op.name| < 256
    requires op.Read? ==> op.off + op.size + c <= WORD
    requires op.Write? ==> op.off + |op.data| + c <= WORD
    requires op.Fallocate? ==> op.off + op.len + c <= WORD
    ensures Legal(c, f, op)
  {
    assert forall i :: Refs(f, i) < 0x7fff_ffff;
  }

  // ---------- accesses ----------

  /** Only reads, writes and flushes touch the store, and a mount starts it anew; only mkdir, create and
      write draw identifiers. */
  lemma AccessLaw(c: nat, f: FlatFS, t: Ids, op: Op)
    requires c > 0
    ensures var (t', out) := (IdStep(c, f, t, op), Step(c, f, op).1);
      && (op.Read? ==> t' == if out.err != 0 then t
            else t.(trace := t.trace + Uses(t.own, op.ino, op.off / c, ChunkEnd(c, op.off, |out.data|))))
      && (op.Flush? && out.err == 0 ==>
            && op.ino in f.files && t'.own == t.own && t'.pool == t.pool
            && var n := CeilDiv(|f.files[op.ino].bytes|, c);
            t'.trace == t.trace + seq(n, i requires 0 <= i < n => Flushed(NameOf(t.own, op.ino, i))))
      && (op.Mount? ==> t' == Ids(t.own, t.pool, []))
      && (out.err != 0 && !op.Mount? && !op.Forget? ==> t' == t)
      && (!op.Read? && !op.Write? && !op.Flush? && !op.Mount? ==> t'.trace == t.trace)
      && (!op.Mkdir? && !op.Create? && !op.Write? ==> t'.pool == t.pool)
      && (op.Lookup? || op.Forget? || op.Fallocate? ==> t' == t)
  {
    hide NameOf, Uses, ReadIds, FlushIds, WriteIds, ChunkEnd, CeilDiv, ExactRead, ExactWrite, DropSlots, DropOwned;
    match op
    case Read(ino, off, size) =>
      ReadUses(t, ino, ChunkStart(c, off), ChunkEnd(c, off, |Step(c, f, op).1.data|));
    case Flush(ino) =>
      if ino in f.files { FlushUses(t, ino, CeilDiv(|f.files[ino].bytes|, c)); }
    case _ =>
  }

  /** A write uses every chunk of its range once, in order, under the name it then has, and leaves no hole. */
  lemma WriteAccessLaw(c: nat, f: FlatFS, t: Ids, ino: nat, off: nat, data: Bytes)
    requires c > 0 && FileAt(f, ino) && IdsOk(t) && NoWrap(c, off, |data|) &&
      |t.pool| >= Draws(c, Op.Write(ino, off, data))
    ensures var t', st, en := IdStep(c, f, t, Op.Write(ino, off, data)), off / c, CeilDiv(off + |data|, c);
      && st <= en && IdsOk(t')
      && (forall k :: st <= k < en ==> NameOf(t'.own, ino, k) != NULL)
      && t'.trace == t.trace + seq(en - st, k requires 0 <= k < en - st => Used(NameOf(t'.own, ino, st + k)))
  {
    hide NameOf, WriteIds, IdsOk, ExactWrite;
    EmptyTile(c, off, |data|);
    WriteUses(t, ino, ChunkStart(c, off), ChunkEnd(c, off, |data|));
  }
}
