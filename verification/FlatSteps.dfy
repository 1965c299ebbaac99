/** How the steps on the model of pieces look from the flat file system. */
module FlatSteps {
  import opened Bytes
  import opened Uuid
  import opened Layout
  import opened Nodes
  import opened Pieces
  import opened Slices
  import opened Coherence
  import opened Namespace
  import opened TreeSteps
  import opened FileSteps
  import opened Flat

  /** A step inside one file. */
  lemma FlatFileStep(c: nat, m: Model, ino: nat, node: Node)
    requires c > 0 && ino in m.nodes && m.nodes[ino].FileNode? && node.FileNode?
    ensures FlatOf(c, SetNode(m, ino, node)) == FlatOf(c, m).(files := FlatOf(c, m).files[ino := FileOf(c, node)])
  {
    ViewOfFile(c, m.nodes, ino, node);
  }

  /** A file's size, and the length of its table, as its bytes have them. */
  lemma SizeAndTable(c: nat, node: Node)
    requires c > 0 && node.FileNode? && FileShape(c, node.size, node.pieces)
    ensures |FileOf(c, node).bytes| == node.size && |node.pieces| == CeilDiv(|FileOf(c, node).bytes|, c)
  {
  }

  lemma QuietFile(c: nat, node: Node)
    requires c > 0 && node.FileNode?
    ensures FileOf(c, node.(status := Quiet)) == FileOf(c, node).(status := Quiet)
  {
  }

  /** Writing a range: the exact result for the flat bytes, and the file keeps its shape. */
  lemma FlatWrite(c: nat, m: Model, ino: nat, off: nat, data: Bytes)
    requires c > 0 && ino in m.nodes && m.nodes[ino].FileNode? && NoWrap(c, off, |data|)
    requires FileShape(c, m.nodes[ino].size, m.nodes[ino].pieces) && Resident(FlatOf(c, m), ino)
    ensures var node := m.nodes[ino];
      var node' := node.(size := Max(node.size, off + |data|), status := Dirty,
                         pieces := WritePieces(c, node.pieces, LastSurplus(c, node.size), off, data));
      FlatOf(c, SetNode(m, ino, node')) == DoWrite(c, FlatOf(c, m), ino, off, data).0
      && FileShape(c, node'.size, node'.pieces)
  {
    var node := m.nodes[ino];
    WriteExact(c, node.size, node.pieces, off, data);
    var node' := node.(size := Max(node.size, off + |data|), status := Dirty,
                       pieces := WritePieces(c, node.pieces, LastSurplus(c, node.size), off, data));
    hide FlatBytes, WritePieces, LastSurplus, ExactWrite, NameMap, FileShape;
    FlatFileStep(c, m, ino, node');
  }

  lemma FlatFallocate(c: nat, m: Model, ino: nat, off: nat, len: nat)
    requires c > 0 && ino in m.nodes && m.nodes[ino].FileNode? && NoWrap(c, off, len)
    requires FileShape(c, m.nodes[ino].size, m.nodes[ino].pieces) && Resident(FlatOf(c, m), ino)
    ensures var node := m.nodes[ino];
      var node' := node.(size := Max(node.size, off + len), status := Dirty,
                         pieces := Grow(c, node.pieces, ChunkEnd(c, off, len)));
      FlatOf(c, SetNode(m, ino, node')) == DoFallocate(FlatOf(c, m), ino, off, len).0
      && FileShape(c, node'.size, node'.pieces)
  {
    var node := m.nodes[ino];
    GrowShape(c, node.size, node.pieces, off + len);
    assert ChunkEnd(c, off, len) == CeilDiv(off + len, c);
    var node' := node.(size := Max(node.size, off + len), status := Dirty,
      pieces := Grow(c, node.pieces, ChunkEnd(c, off, len)));
    hide FlatBytes, ChunkEnd, CeilDiv, NameMap, FileShape;
    FlatFileStep(c, m, ino, node');
  }

  /** What a read of pieces returns is what a read of the flat file returns. */
  lemma FlatRead(c: nat, node: Node, off: nat, size: nat)
    requires c > 0 && node.FileNode? && FileShape(c, node.size, node.pieces) && NoWrap(c, off, size)
    ensures var n := Min(size, U64(node.size - off));
      && n == (if off <= node.size then Min(size, node.size - off) else size) && NoWrap(c, off, n)
      && var out := ExactRead(c, FileOf(c, node).bytes, off, size);
      if ChunkEnd(c, off, n) > |node.pieces| then out == Fail(EINVAL)
      else out == Out(0, 0, ReadRange(c, node.pieces, off, n))
  {
    var n := Min(size, U64(node.size - off));
    assert n == if off <= node.size then Min(size, node.size - off) else size;
    ReadFlat(c, node.size, node.pieces, off, n);
    assert ChunkEnd(c, off, n) == CeilDiv(off + n, c);
    if off <= node.size { CeilDivMono(off + n, node.size, c); }
    hide ReadRange, FlatBytes, CeilDiv, ChunkEnd;
  }

  // ---------- directories ----------

  /** Looking a name up in the list of entries is looking it up in the directory. */
  lemma FlatEntry(c: nat, m: Model, p: nat, name: Name)
    requires c > 0 && TreeOk(m) && p in m.nodes && m.nodes[p].DirNode?
    ensures var es, d := m.nodes[p].entries, FlatOf(c, m).dirs;
      && p in d
      && (forall i :: 0 <= i < |es| && es[i].name == name ==>
            name in d[p] && d[p][name] == es[i].ino && EntryOk(m, p, es[i]))
      && (name in d[p] ==> exists i :: 0 <= i < |es| && es[i].name == name)
  {
    assert EntriesOk(m, p, m.nodes[p].entries);
    NameMapExact(m.nodes[p].entries);
  }

  lemma FlatKinds(c: nat, m: Model, ino: nat)
    requires c > 0
    ensures var f := FlatOf(c, m);
      && (ino in f.dirs <==> ino in m.nodes && m.nodes[ino].DirNode?)
      && (ino in f.files <==> ino in m.nodes && m.nodes[ino].FileNode?)
      && (ino in f.files ==> f.files[ino] == FileOf(c, m.nodes[ino]))
  {
  }

  lemma FlatMake(c: nat, m: Model, p: nat, name: Name, node: Node)
    requires c > 0 && TreeOk(m) && p in m.nodes && m.nodes[p].DirNode? && Fresh(m.nodes[p].entries, name)
    requires if node.FileNode? then node.size == 0 && node.pieces == [] && node.status == Quiet else node.entries == []
    requires Resident(FlatOf(c, m), p)
    ensures DoMake(FlatOf(c, m), p, name, node.FileNode?) == (FlatOf(c, Grown(m, p, name, node)), Out(0, m.maxIno, []))
  {
    hide TreeOk, NameMap, DirsOf, FilesOf, FileOf, Grown;
    TreeBounds(m, p);
    FlatEntry(c, m, p, name);
    assert name !in FlatOf(c, m).dirs[p];
    hide Fresh;
    NewView(c, node);
    GrownView(c, m, p, name, node);
  }

  lemma TreeBounds(m: Model, p: nat)
    requires TreeOk(m) && p in m.nodes
    ensures 1 <= p < m.maxIno && m.maxIno !in m.nodes
  {
  }

  lemma NewView(c: nat, node: Node)
    requires c > 0
    ensures node.FileNode? && node.size == 0 && node.status == Quiet ==> FileOf(c, node) == FlatFile([], Quiet)
    ensures NameMap([]) == map[]
  {
  }

  lemma GrownView(c: nat, m: Model, p: nat, name: Name, node: Node)
    requires c > 0 && p in m.nodes && m.nodes[p].DirNode? && p < m.maxIno && m.maxIno !in m.nodes
    ensures var f, f' := FlatOf(c, m), FlatOf(c, Grown(m, p, name, node));
      && p in f.dirs && f'.maxIno == f.maxIno + 1 && f'.refs == f.refs[f.maxIno := 1]
      && var dirs: map<nat, map<Name, nat>> := f.dirs[p := Bind(f.dirs[p], name, m.maxIno)];
      if node.FileNode? then f'.dirs == dirs && f'.files == f.files[m.maxIno := FileOf(c, node)]
      else f'.dirs == dirs[m.maxIno := NameMap(node.entries)] && f'.files == f.files
  {
    NameMapAppend(m.nodes[p].entries, NewEntry(m, name, node));
    FlatKinds(c, m, p);
    hide NameMap, FileOf, FilesOf, FlatBytes;
    assert DirsOf(m.nodes)[p] == NameMap(m.nodes[p].entries);
    hide DirsOf;
    var nodes := m.nodes[p := m.nodes[p].(entries := m.nodes[p].entries + [NewEntry(m, name, node)])];
    ViewOfDir(c, m.nodes, p, nodes[p]);
    if node.FileNode? { ViewOfFile(c, nodes, m.maxIno, node); } else { ViewOfDir(c, nodes, m.maxIno, node); }
  }

  lemma FlatPrune(c: nat, m: Model, p: nat, k: nat)
    requires c > 0 && TreeOk(m) && p in m.nodes && m.nodes[p].DirNode? && k < |m.nodes[p].entries|
    requires Resident(FlatOf(c, m), p)
    requires var e := m.nodes[p].entries[k]; e.ino in m.nodes && Leaf(m.nodes[e.ino])
    ensures var e, f := m.nodes[p].entries[k], FlatOf(c, m);
      (if m.nodes[e.ino].FileNode? then DoUnlink(f, p, e.name) else DoRmdir(f, p, e.name))
        == (FlatOf(c, Pruned(m, p, k)), DONE)
  {
    var e, f := m.nodes[p].entries[k], FlatOf(c, m);
    FlatEntry(c, m, p, e.name);
    assert EntryOk(m, p, e) && DistinctNames(m.nodes[p].entries) by { assert EntriesOk(m, p, m.nodes[p].entries); }
    FlatKinds(c, m, e.ino);
    NameMapCut(m.nodes[p].entries, k);
    ViewWithout(c, m.nodes, e.ino);
    var nodes := m.nodes - {e.ino};
    ViewOfDir(c, nodes, p, m.nodes[p].(entries := CutAt(m.nodes[p].entries, k)));
    if m.nodes[e.ino].DirNode? { FlatEmpty(c, m, e.ino); }
    hide TreeOk, NameMap, DirsOf, FilesOf, FileOf, CutAt, DistinctNames;
    PruneMaps(f, p, e.name, e.ino);
  }

  lemma PruneMaps(f: FlatFS, p: nat, name: Name, ino: nat)
    requires p in f.dirs && p != ino
    ensures var d := f.dirs[p] - {name};
      && (f.dirs - {ino})[p := d] == f.dirs[p := d] - {ino}
      && (ino !in f.dirs ==> (f.dirs - {ino})[p := d] == f.dirs[p := d])
      && (ino !in f.files ==> f.files - {ino} == f.files)
  {
  }

  /** rmdir's test on the entries is the test on the directory. */
  lemma FlatEmpty(c: nat, m: Model, d: nat)
    requires c > 0 && TreeOk(m) && d in m.nodes && m.nodes[d].DirNode?
    ensures FlatOf(c, m).dirs[d] == map[] <==> m.nodes[d].entries == []
  {
    assert EntriesOk(m, d, m.nodes[d].entries);
    NameMapExact(m.nodes[d].entries);
  }

  lemma FlatMount(c: nat, m: Model)
    requires c > 0
    ensures FlatOf(c, Remounted(m)) == DoMount(FlatOf(c, m)).0
  {
    var f, f' := FlatOf(c, m), FlatOf(c, Remounted(m));
    hide FlatBytes, NameMap;
    assert f'.dirs == f.dirs;
    assert f'.files == DoMount(f).0.files;
  }

  lemma FlatRefs(c: nat, m: Model, refs: map<nat, nat>)
    requires c > 0
    ensures FlatOf(c, m.(refs := refs)) == FlatOf(c, m).(refs := refs)
  {
    hide FlatBytes, NameMap;
  }

  /** The names in `es` that lead to a member of `ds`. */
  function NamesInto(es: seq<Dirent>, ds: set<nat>): set<Name> {
    set n | n in NameMap(es) && NameMap(es)[n] in ds
  }

  lemma {:induction false} CountNames(es: seq<Dirent>, ds: set<nat>)
    requires DistinctNames(es) && forall i :: 0 <= i < |es| ==> (es[i].kind == T_DT_DIR <==> es[i].ino in ds)
    ensures |NamesInto(es, ds)| == Subdirectories(es)
  {
    if es != [] {
      var init, last := es[..|es| - 1], es[|es| - 1];
      CountNames(init, ds);
      NameMapLast(es);
      NameAbsent(init, last.name);
      hide NameMap, DistinctNames;
      assert NamesInto(es, ds) == NamesInto(init, ds) + if last.ino in ds then {last.name} else {};
    }
  }

  /** The link count of a directory is two and the number of its subdirectories, as the tree has them. */
  lemma LinkCount(c: nat, m: Model, d: nat)
    requires c > 0 && TreeOk(m) && d in m.nodes && m.nodes[d].DirNode?
    ensures var f := FlatOf(c, m);
      d in f.dirs && Subdirectories(m.nodes[d].entries) == |set n | n in f.dirs[d] && f.dirs[d][n] in f.dirs|
  {
    var f, es := FlatOf(c, m), m.nodes[d].entries;
    assert EntriesOk(m, d, es);
    forall i | 0 <= i < |es| ensures es[i].kind == T_DT_DIR <==> es[i].ino in f.dirs.Keys {
      assert EntryOk(m, d, es[i]);
    }
    CountNames(es, f.dirs.Keys);
    assert NamesInto(es, f.dirs.Keys) == set n | n in f.dirs[d] && f.dirs[d][n] in f.dirs;
  }

  /** A new volume is an empty tree. */
  lemma CreatedTree(c: nat, rt: UUID, users: Bytes)
    requires c > 0
    ensures TreeOk(NewModel(rt, users)) && ShapesOk(c, NewModel(rt, users)) && FlatOf(c, NewModel(rt, users)) == EMPTY
  {
    assert FlatOf(c, NewModel(rt, users)).dirs == EMPTY.dirs;
  }

  // ---------- paths ----------

  /** The inode a path leads to from the root. */
  function Walk(f: FlatFS, path: seq<Name>): Option<nat> {
    if path == [] then Some(1) else
    match Walk(f, path[..|path| - 1])
    case None => None
    case Some(d) =>
      var name := path[|path| - 1];
      if d in f.dirs && name in f.dirs[d] then Some(f.dirs[d][name]) else None
  }

  /** The last step of a path is an entry of the inode's one parent. */
  lemma LastStep(c: nat, m: Model, path: seq<Name>)
    requires c > 0 && TreeOk(m) && path != [] && Walk(FlatOf(c, m), path).Some?
    ensures var ino, d := Walk(FlatOf(c, m), path).value, Walk(FlatOf(c, m), path[..|path| - 1]);
      && ino in m.nodes && ino != 1 && d == Some(m.nodes[ino].parent) && m.nodes[ino].parent < ino
      && exists k :: 0 <= k < |m.nodes[m.nodes[ino].parent].entries|
           && m.nodes[m.nodes[ino].parent].entries[k].ino == ino
           && m.nodes[m.nodes[ino].parent].entries[k].name == path[|path| - 1]
  {
    var d, name := Walk(FlatOf(c, m), path[..|path| - 1]).value, path[|path| - 1];
    FlatKinds(c, m, d);
    FlatEntry(c, m, d, name);
    var k :| 0 <= k < |m.nodes[d].entries| && m.nodes[d].entries[k].name == name;
    assert EntryOk(m, d, m.nodes[d].entries[k]);
  }

  /** Every inode of the tree is reached by a path ... */
  lemma {:induction false} PathExists(c: nat, m: Model, ino: nat) returns (path: seq<Name>)
    requires c > 0 && TreeOk(m) && ino in m.nodes
    ensures Walk(FlatOf(c, m), path) == Some(ino)
    decreases ino
  {
    if ino == 1 { return []; }
    var p := m.nodes[ino].parent;
    assert HasParent(m, ino);
    var k :| 0 <= k < |m.nodes[p].entries| && m.nodes[p].entries[k].ino == ino;
    var name := m.nodes[p].entries[k].name;
    assert EntryOk(m, p, m.nodes[p].entries[k]) by { assert EntriesOk(m, p, m.nodes[p].entries); }
    FlatEntry(c, m, p, name);
    var init := PathExists(c, m, p);
    path := init + [name];
    assert path[..|path| - 1] == init;
    hide FlatOf, TreeOk;
  }

  /** ... and by no other: paths and inodes correspond one to one. */
  lemma {:induction false} PathUnique(c: nat, m: Model, a: seq<Name>, b: seq<Name>)
    requires c > 0 && TreeOk(m)
    requires Walk(FlatOf(c, m), a).Some? && Walk(FlatOf(c, m), a) == Walk(FlatOf(c, m), b)
    ensures a == b
    decreases |a|
  {
    hide TreeOk, FlatOf;
    assert Walk(FlatOf(c, m), []) == Some(1);
    if a != [] && b != [] {
      SameLast(c, m, a, b);
      PathUnique(c, m, a[..|a| - 1], b[..|b| - 1]);
      assert a == a[..|a| - 1] + [a[|a| - 1]] && b == b[..|b| - 1] + [b[|b| - 1]];
    } else if a != [] {
      LastStep(c, m, a);
    } else if b != [] {
      LastStep(c, m, b);
    }
  }

  lemma SameLast(c: nat, m: Model, a: seq<Name>, b: seq<Name>)
    requires c > 0 && TreeOk(m) && a != [] && b != []
    requires Walk(FlatOf(c, m), a).Some? && Walk(FlatOf(c, m), a) == Walk(FlatOf(c, m), b)
    ensures a[|a| - 1] == b[|b| - 1]
    ensures Walk(FlatOf(c, m), a[..|a| - 1]) == Walk(FlatOf(c, m), b[..|b| - 1]) != None
  {
    LastStep(c, m, a);
    LastStep(c, m, b);
    hide Walk, FlatOf;
    var n := Walk(FlatOf(c, m), a).value;
    assert HasParent(m, n);
    hide TreeOk;
    var es := m.nodes[m.nodes[n].parent].entries;
    var i :| 0 <= i < |es| && es[i].ino == n && es[i].name == a[|a| - 1];
    var j :| 0 <= j < |es| && es[j].ino == n && es[j].name == b[|b| - 1];
    OneEntry(m, n, i, j);
  }

  lemma OneEntry(m: Model, ino: nat, i: nat, j: nat)
    requires TreeOk(m) && ino in m.nodes && ino != 1
    requires var p := m.nodes[ino].parent;
      p in m.nodes && m.nodes[p].DirNode?
      && i < |m.nodes[p].entries| && j < |m.nodes[p].entries|
      && m.nodes[p].entries[i].ino == ino && m.nodes[p].entries[j].ino == ino
    ensures i == j
  {
    var es := m.nodes[m.nodes[ino].parent].entries;
    assert EntriesOk(m, m.nodes[ino].parent, es);
    assert Increasing(es);
    hide EntriesOk, TreeOk;
  }
}
