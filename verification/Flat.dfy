/** The file system a user sees: directories that map names to inodes, files that are flat byte sequences. */
module Flat {
  import opened Bytes
  import opened Layout
  import opened Pieces
  import opened Slices
  import opened Coherence
  import opened Namespace

  datatype FlatFile = FlatFile(bytes: Bytes, status: Status)

  datatype FlatFS = FlatFS(dirs: map<nat, map<Name, nat>>, files: map<nat, FlatFile>, maxIno: nat, refs: map<nat, nat>)

  datatype Op =
    | Lookup(parent: nat, name: Name)
    | Forget(ino: nat, n: nat)
    | Mkdir(parent: nat, name: Name)
    | Create(parent: nat, name: Name)
    | Unlink(parent: nat, name: Name)
    | Rmdir(parent: nat, name: Name)
    | Open(ino: nat, flags: nat)
    | Read(ino: nat, off: nat, size: nat)
    | Write(ino: nat, off: nat, data: Bytes)
    | Flush(ino: nat)
    | Fallocate(ino: nat, off: nat, len: nat)
    | Mount

  /** An error number or 0 (forget: what remains), the inode number, the bytes read. */
  datatype Out = Out(err: int, ino: nat, data: Bytes)

  const ENOENT: int := 2
  const EACCES: int := 13
  const EEXIST: int := 17
  const ENOTDIR: int := 20
  const EISDIR: int := 21
  const EINVAL: int := 22
  const EIO: int := 5
  const ENOTEMPTY: int := 39
  const ENONET: int := 64

  function Fail(err: int): Out { Out(err, 0, []) }

  const DONE: Out := Out(0, 0, [])

  /** OF_TRUNC is 01000. */
  predicate Truncates(flags: nat) { (flags / 512) % 2 == 1 }

  predicate Resident(f: FlatFS, ino: nat) { ino == 1 || ino in f.refs }

  predicate Live(f: FlatFS, ino: nat) { ino in f.dirs || ino in f.files }

  function Refs(f: FlatFS, ino: nat): nat { if ino in f.refs then f.refs[ino] else 0 }

  /** A new volume. */
  const EMPTY: FlatFS := FlatFS(map[1 := map[]], map[], 2, map[])

  // ---------- the operations ----------

  function DoLookup(f: FlatFS, parent: nat, name: Name): (FlatFS, Out) {
    if !Resident(f, parent) || parent !in f.dirs || name !in f.dirs[parent] then (f, Fail(ENOENT)) else
    var ino := f.dirs[parent][name];
    (f.(refs := f.refs[ino := Refs(f, ino) + 1]), Out(0, ino, []))
  }

  function DoForget(f: FlatFS, ino: nat, n: nat): (FlatFS, Out) {
    if !Resident(f, ino) then (f, Fail(ENOENT)) else
    var remain := Refs(f, ino) - n;
    (f.(refs := if remain > 0 then f.refs[ino := remain] else f.refs - {ino}), Out(remain, 0, []))
  }

  function Bind(d: map<Name, nat>, name: Name, ino: nat): map<Name, nat> { d[name := ino] }

  function DoMake(f: FlatFS, parent: nat, name: Name, isFile: bool): (FlatFS, Out) {
    if !Resident(f, parent) then (f, Fail(ENOENT))
    else if parent !in f.dirs then (f, Fail(ENOTDIR))
    else if name in f.dirs[parent] then (f, Fail(EEXIST))
    else
      var ino: nat := f.maxIno;
      var dirs: map<nat, map<Name, nat>> := f.dirs[parent := Bind(f.dirs[parent], name, ino)];
      (FlatFS(if isFile then dirs else dirs[ino := map[]],
              if isFile then f.files[ino := FlatFile([], Quiet)] else f.files,
              ino + 1, f.refs[ino := 1]),
       Out(0, ino, []))
  }

  function DoUnlink(f: FlatFS, parent: nat, name: Name): (FlatFS, Out) {
    if !Resident(f, parent) then (f, Fail(ENOENT))
    else if parent !in f.dirs then (f, Fail(ENOTDIR))
    else if name !in f.dirs[parent] then (f, Fail(ENOENT))
    else
      var ino := f.dirs[parent][name];
      if ino in f.dirs then (f, Fail(EISDIR))
      else (f.(dirs := f.dirs[parent := f.dirs[parent] - {name}], files := f.files - {ino}), DONE)
  }

  function DoRmdir(f: FlatFS, parent: nat, name: Name): (FlatFS, Out) {
    if !Resident(f, parent) then (f, Fail(ENOENT))
    else if parent !in f.dirs then (f, Fail(ENOTDIR))
    else if name !in f.dirs[parent] then (f, Fail(ENOENT))
    else
      var ino := f.dirs[parent][name];
      if ino !in f.dirs then (f, Fail(ENOTDIR))
      else if f.dirs[ino] != map[] then (f, Fail(ENOTEMPTY))
      else (f.(dirs := f.dirs[parent := f.dirs[parent] - {name}] - {ino}), DONE)
  }

  function DoOpen(f: FlatFS, ino: nat, flags: nat): (FlatFS, Out) {
    if !Resident(f, ino) || ino !in f.files then (f, Fail(EACCES))
    else (if Truncates(flags) then f.(files := f.files[ino := FlatFile([], Dirty)]) else f, DONE)
  }

  /** What ecall_fs_read returns for a file of bytes `b`. Behind the end the byte count wraps: a range
      inside the last chunk then reads as zeros, and one beyond it is refused. */
  function ExactRead(c: nat, b: Bytes, off: nat, size: nat): Out
    requires c > 0
  {
    if off <= |b| then Out(0, 0, b[off..Min(off + size, |b|)])
    else if CeilDiv(off + size, c) > CeilDiv(|b|, c) then Fail(EINVAL)
    else Out(0, 0, Zeros(size))
  }

  function DoRead(c: nat, f: FlatFS, ino: nat, off: nat, size: nat): (FlatFS, Out)
    requires c > 0
  {
    if !Resident(f, ino) || ino !in f.files then (f, Fail(EINVAL)) else
    var file := f.files[ino];
    var out := ExactRead(c, file.bytes, off, size);
    (if out.err == 0 && file.status == Quiet then f.(files := f.files[ino := file.(status := Clean)]) else f, out)
  }

  function DoWrite(c: nat, f: FlatFS, ino: nat, off: nat, data: Bytes): (FlatFS, Out)
    requires c > 0
  {
    if !Resident(f, ino) || ino !in f.files then (f, Fail(EINVAL))
    else (f.(files := f.files[ino := FlatFile(ExactWrite(c, f.files[ino].bytes, off, data), Dirty)]), DONE)
  }

  function DoFlush(f: FlatFS, ino: nat): (FlatFS, Out) {
    if !Resident(f, ino) || ino !in f.files then (f, Fail(EINVAL))
    else (f.(files := f.files[ino := f.files[ino].(status := Quiet)]), DONE)
  }

  function DoFallocate(f: FlatFS, ino: nat, off: nat, len: nat): (FlatFS, Out) {
    if !Resident(f, ino) || ino !in f.files then (f, Fail(EACCES)) else
    var b := f.files[ino].bytes;
    (f.(files := f.files[ino := FlatFile(b + Zeros(Max(|b|, off + len) - |b|), Dirty)]), DONE)
  }

  function DoMount(f: FlatFS): (FlatFS, Out) {
    (f.(files := map i | i in f.files :: f.files[i].(status := Quiet), refs := map[]), DONE)
  }

  function Step(c: nat, f: FlatFS, op: Op): (FlatFS, Out)
    requires c > 0
  {
    match op
    case Lookup(p, name) => DoLookup(f, p, name)
    case Forget(ino, n) => DoForget(f, ino, n)
    case Mkdir(p, name) => DoMake(f, p, name, false)
    case Create(p, name) => DoMake(f, p, name, true)
    case Unlink(p, name) => DoUnlink(f, p, name)
    case Rmdir(p, name) => DoRmdir(f, p, name)
    case Open(ino, flags) => DoOpen(f, ino, flags)
    case Read(ino, off, size) => DoRead(c, f, ino, off, size)
    case Write(ino, off, data) => DoWrite(c, f, ino, off, data)
    case Flush(ino) => DoFlush(f, ino)
    case Fallocate(ino, off, len) => DoFallocate(f, ino, off, len)
    case Mount => DoMount(f)
  }

  // ---------- what the callers keep to ----------

  /** No operation but forget on an inode that has lost its last name. */
  predicate Known(f: FlatFS, ino: nat) { Resident(f, ino) ==> Live(f, ino) }

  predicate MayDrop(f: FlatFS, ino: nat) { ino in f.files ==> f.files[ino].status == Quiet }

  /** The protocol: a file is flushed before it is truncated, unlinked or dropped from memory, and all are
      before a remount; counters and offsets stay inside their machine words. */
  predicate Legal(c: nat, f: FlatFS, op: Op)
    requires c > 0
  {
    match op
    case Lookup(p, name) =>
      Known(f, p) && (p in f.dirs && name in f.dirs[p] ==> Refs(f, f.dirs[p][name]) + 1 < 0x1_0000_0000)
    case Forget(ino, n) =>
      ino != 1 && n < 0x8000_0000 && Refs(f, ino) < 0x8000_0000 && (Refs(f, ino) <= n ==> MayDrop(f, ino))
    case Mkdir(p, name) => Known(f, p) && |name| < MAX_PATH_LEN && f.maxIno + 1 < WORD
    case Create(p, name) => Known(f, p) && |name| < MAX_PATH_LEN && f.maxIno + 1 < WORD
    case Unlink(p, name) => Known(f, p) && (p in f.dirs && name in f.dirs[p] ==> MayDrop(f, f.dirs[p][name]))
    case Rmdir(p, name) => Known(f, p)
    case Open(ino, flags) => Known(f, ino) && (Truncates(flags) ==> MayDrop(f, ino))
    case Read(ino, off, size) => Known(f, ino) && NoWrap(c, off, size)
    case Write(ino, off, data) => Known(f, ino) && NoWrap(c, off, |data|)
    case Flush(ino) => Known(f, ino)
    case Fallocate(ino, off, len) => Known(f, ino) && NoWrap(c, off, len)
    case Mount => forall i | i in f.files :: f.files[i].status != Dirty
  }

  /** How many random identifiers an operation may draw. */
  function Draws(c: nat, op: Op): nat
    requires c > 0
  {
    match op
    case Mkdir(_, _) => 1
    case Create(_, _) => 1
    case Write(_, off, data) => Max(0, ChunkEnd(c, off, |data|) - ChunkStart(c, off))
    case _ => 0
  }

  // ---------- the view of a model ----------

  /** The names of a directory. */
  function NameMap(es: seq<Dirent>): map<Name, nat> {
    if es == [] then map[] else NameMap(es[..|es| - 1])[es[|es| - 1].name := es[|es| - 1].ino]
  }

  lemma {:induction false} NameMapExact(es: seq<Dirent>)
    requires DistinctNames(es)
    ensures forall i :: 0 <= i < |es| ==> es[i].name in NameMap(es) && NameMap(es)[es[i].name] == es[i].ino
    ensures forall n :: n in NameMap(es) ==> exists i :: 0 <= i < |es| && es[i].name == n
    ensures NameMap(es) == map[] <==> es == []
  {
    if es != [] {
      var init, last := es[..|es| - 1], es[|es| - 1];
      NameMapExact(init);
      forall n | n in NameMap(es) ensures exists i :: 0 <= i < |es| && es[i].name == n {
        if n != last.name {
          var i :| 0 <= i < |init| && init[i].name == n;
          assert es[i].name == n;
        }
      }
      forall i | 0 <= i < |es| ensures es[i].name in NameMap(es) && NameMap(es)[es[i].name] == es[i].ino {
        if i < |init| { assert init[i] == es[i]; }
      }
      assert last.name in NameMap(es);
    }
  }

  lemma NameMapAppend(es: seq<Dirent>, e: Dirent)
    ensures NameMap(es + [e]) == NameMap(es)[e.name := e.ino]
  {
    assert (es + [e])[..|es|] == es;
  }

  lemma {:induction false} NameMapCut(es: seq<Dirent>, k: nat)
    requires DistinctNames(es) && k < |es|
    ensures NameMap(CutAt(es, k)) == NameMap(es) - {es[k].name}
  {
    hide NameMap, CutAt;
    var init, last := es[..|es| - 1], es[|es| - 1];
    NameMapLast(es);
    if k < |init| {
      NameMapCut(init, k);
      CutInit(es, k);
      NameMapAppend(CutAt(init, k), last);
      assert es[k].name != last.name;
      hide DistinctNames;
      var gone := {es[k].name};
      assert (NameMap(init) - gone)[last.name := last.ino] == NameMap(init)[last.name := last.ino] - gone;
    } else {
      CutLast(es);
      NameAbsent(init, last.name);
    }
  }

  lemma CutInit(es: seq<Dirent>, k: nat)
    requires k < |es| - 1
    ensures CutAt(es, k) == CutAt(es[..|es| - 1], k) + [es[|es| - 1]]
  {
  }

  lemma CutLast(es: seq<Dirent>)
    requires es != []
    ensures CutAt(es, |es| - 1) == es[..|es| - 1]
  {
  }

  lemma NameMapLast(es: seq<Dirent>)
    requires es != []
    ensures NameMap(es) == NameMap(es[..|es| - 1])[es[|es| - 1].name := es[|es| - 1].ino]
  {
  }

  lemma {:induction false} NameAbsent(es: seq<Dirent>, n: Name)
    requires forall i :: 0 <= i < |es| ==> es[i].name != n
    ensures n !in NameMap(es)
  {
    if es != [] { NameAbsent(es[..|es| - 1], n); }
  }

  ghost function FileOf(c: nat, node: Node): FlatFile
    requires c > 0 && node.FileNode?
  {
    FlatFile(FlatBytes(c, node.size, node.pieces), node.status)
  }

  ghost function DirsOf(nodes: map<nat, Node>): map<nat, map<Name, nat>> {
    map i | i in nodes && nodes[i].DirNode? :: NameMap(nodes[i].entries)
  }

  ghost function FilesOf(c: nat, nodes: map<nat, Node>): map<nat, FlatFile>
    requires c > 0
  {
    map i | i in nodes && nodes[i].FileNode? :: FileOf(c, nodes[i])
  }

  ghost function FlatOf(c: nat, m: Model): FlatFS
    requires c > 0
  {
    FlatFS(DirsOf(m.nodes), FilesOf(c, m.nodes), m.maxIno, m.refs)
  }

  /** The view of one more or one changed directory, file, or of one node less. */
  lemma ViewOfDir(c: nat, nodes: map<nat, Node>, i: nat, node: Node)
    requires c > 0 && node.DirNode? && (i in nodes ==> nodes[i].DirNode?)
    ensures DirsOf(nodes[i := node]) == DirsOf(nodes)[i := NameMap(node.entries)]
    ensures FilesOf(c, nodes[i := node]) == FilesOf(c, nodes)
  {
    hide NameMap, FileOf;
  }

  lemma ViewOfFile(c: nat, nodes: map<nat, Node>, i: nat, node: Node)
    requires c > 0 && node.FileNode? && (i in nodes ==> nodes[i].FileNode?)
    ensures DirsOf(nodes[i := node]) == DirsOf(nodes)
    ensures FilesOf(c, nodes[i := node]) == FilesOf(c, nodes)[i := FileOf(c, node)]
  {
    hide NameMap, FileOf;
  }

  lemma ViewWithout(c: nat, nodes: map<nat, Node>, i: nat)
    requires c > 0
    ensures DirsOf(nodes - {i}) == DirsOf(nodes) - {i}
    ensures FilesOf(c, nodes - {i}) == FilesOf(c, nodes) - {i}
  {
    hide NameMap, FileOf;
  }
}
