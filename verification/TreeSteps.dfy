/** The elementary steps of truncation and of the namespace operations, and that each keeps the state coherent. */
module TreeSteps {
  import opened Bytes
  import opened Uuid
  import opened Layout
  import opened Storage
  import opened Lru
  import opened Nodes
  import opened Pieces
  import opened Slices
  import opened Coherence
  import opened FileSteps

  // ---------- removing chunks ----------

  /** The loop over a chunk table that removes every chunk from the disk. */
  function RemoveChunks(disk: Disk, chunks: seq<Chunk>): (d: Disk)
    ensures d.Keys <= disk.Keys
  {
    if chunks == [] then disk else
    var d, c := RemoveChunks(disk, chunks[..|chunks| - 1]), chunks[|chunks| - 1];
    if c.uuid == NULL then d else d - {Unparse(c.uuid)}
  }

  /** Exactly the chunks of the table are gone. */
  lemma {:induction false} RemovedExactly(disk: Disk, chunks: seq<Chunk>, u: UUID)
    ensures (exists i :: 0 <= i < |chunks| && chunks[i].uuid == u != NULL) ==> Unparse(u) !in RemoveChunks(disk, chunks)
    ensures (forall i :: 0 <= i < |chunks| ==> chunks[i].uuid != u) || u == NULL ==>
      SameAt(disk, RemoveChunks(disk, chunks), u)
    decreases |chunks|
  {
    hide Unparse;
    if chunks != [] {
      var init, c := chunks[..|chunks| - 1], chunks[|chunks| - 1];
      RemovedExactly(disk, init, u);
      UnparseInjective(u, c.uuid);
      if exists i :: 0 <= i < |init| && init[i].uuid == u != NULL {
        var i :| 0 <= i < |init| && init[i].uuid == u != NULL;
        assert Unparse(u) !in RemoveChunks(disk, init);
      }
    }
  }

  /** The slots of a file no longer stand for anything. */
  ghost function DropSlots(own: Owners, ino: nat): Owners {
    map u | u in own && !(own[u].Slot? && own[u].ino == ino) :: own[u]
  }

  /** The slots of `ino` in use are those of the table `chunks`, and none of its chunks is cached. */
  ghost predicate QuietSlots(s: State, own: Owners, ino: nat, chunks: seq<Chunk>) {
    && (forall u :: u in own && own[u].Slot? && own[u].ino == ino ==>
      own[u].idx < |chunks| && chunks[own[u].idx].uuid == u)
    && (forall i :: 0 <= i < |chunks| && chunks[i].uuid != NULL ==>
          chunks[i].uuid in own && own[chunks[i].uuid] == Slot(ino, i) && chunks[i].uuid !in s.at)
  }

  lemma QuietCache(s: State, own: Owners, ino: nat, chunks: seq<Chunk>, k: UUID)
    requires CacheOk(s, own) && QuietSlots(s, own, ino, chunks) && k in s.at && NULL !in own
    ensures k in own && own[k] == Slot(s.at[k].ino, s.at[k].idx) && s.at[k].ino != ino
  {
  }

  lemma RemovedElsewhere(disk: Disk, s: State, own: Owners, ino: nat, chunks: seq<Chunk>, u: UUID)
    requires QuietSlots(s, own, ino, chunks) && u in own && !(own[u].Slot? && own[u].ino == ino)
    ensures SameAt(disk, RemoveChunks(disk, chunks), u)
  {
    hide SameAt, RemoveChunks;
    assert forall i :: 0 <= i < |chunks| && chunks[i].uuid == u ==> u == NULL;
    RemovedExactly(disk, chunks, u);
  }

  lemma TruncatedTouches(s: State, own: Owners, ino: nat)
    requires CacheOk(s, own) && ino in s.files && QuietSlots(s, own, ino, s.files[ino].chunks) && NULL !in own
    ensures OnlyTouches(s, Truncated(s, ino), own, DropSlots(own, ino), ino)
    ensures CacheOk(Truncated(s, ino), DropSlots(own, ino))
  {
    hide SameAt, RemoveChunks;
    var s', own' := Truncated(s, ino), DropSlots(own, ino);
    forall u | u in own && !Owns(own[u], ino) ensures SameAt(s.disk, s'.disk, u) {
      RemovedElsewhere(s.disk, s, own, ino, s.files[ino].chunks, u);
    }
    forall k | k in s.at ensures k in own && own[k] == Slot(s.at[k].ino, s.at[k].idx) && s.at[k].ino != ino {
      QuietCache(s, own, ino, s.files[ino].chunks, k);
    }
    hide QuietSlots;
  }

  lemma RemovedAccounted(s: State, own: Owners, ino: nat, chunks: seq<Chunk>, s': State)
    requires Accounted(s, own) && s'.disk == RemoveChunks(s.disk, chunks) && NULL !in own
    requires QuietSlots(s, own, ino, chunks)
    ensures Accounted(s', DropSlots(own, ino))
  {
    hide Unparse;
    var own' := DropSlots(own, ino);
    forall key | key in s'.disk ensures key in Names(own') {
      assert key in Names(own);
      var u :| u in own && Unparse(u) == key;
      RemovedExactly(s.disk, chunks, u);
      assert u in own';
    }
  }

  // ---------- truncation ----------

  function Truncated(s: State, ino: nat): State
    requires ino in s.files
  {
    s.(disk := RemoveChunks(s.disk, s.files[ino].chunks),
       files := s.files[ino := s.files[ino].(chunks := [], size := 0)])
  }

  /** What a quiet resident file owns on the disk. */
  lemma QuietTable(cfg: Config, s: State, m: Model, own: Owners, ino: nat)
    requires Coherent(cfg, s, m, own) && OpenFile(s, m, ino) && m.nodes[ino].status == Quiet
    ensures var chunks := s.files[ino].chunks;
      && QuietSlots(s, own, ino, chunks)
      && LoadFilenode(cfg, s.disk, m.nodes[ino].uuid) == Some(s.files[ino].Rec())
  {
    hide GlobalOk, LoadCache, LoadFilenode;
    OpenTable(cfg, s, m, own, ino);
    assert NodeOk(cfg, s, own, ino, m.nodes[ino]);
    var chunks := s.files[ino].chunks;
    forall i | 0 <= i < |chunks| && chunks[i].uuid != NULL
      ensures chunks[i].uuid in own && own[chunks[i].uuid] == Slot(ino, i) && chunks[i].uuid !in s.at
    {
      assert SlotOk(cfg, s, own, ino, i, chunks[i], m.nodes[ino].pieces[i]);
    }
  }

  lemma TruncatedOk(cfg: Config, s: State, m: Model, own: Owners, ino: nat)
    requires Coherent(cfg, s, m, own) && OpenFile(s, m, ino) && m.nodes[ino].status == Quiet
    ensures Coherent(cfg, Truncated(s, ino), SetNode(m, ino, m.nodes[ino].(size := 0, pieces := [], status := Dirty)),
                     DropSlots(own, ino))
    ensures forall u :: u in own ==>
      if own[u].Slot? && own[u].ino == ino then Unparse(u) !in Truncated(s, ino).disk
      else SameAt(s.disk, Truncated(s, ino).disk, u)
  {
    hide OwnersOk, SuperOk, ResidencyOk, Elsewhere, NodeOk, CacheOk, Accounted, LoadFilenode, LoadCache, SameAt,
      RemoveChunks, QuietSlots, Unparse;
    var s', own', node := Truncated(s, ino), DropSlots(own, ino), m.nodes[ino];
    var node' := node.(size := 0, pieces := [], status := Dirty);
    OpenTable(cfg, s, m, own, ino);
    QuietTable(cfg, s, m, own, ino);
    PoolHead(s, m, own);
    TruncatedTouches(s, own, ino);
    RemovedAccounted(s, own, ino, s.files[ino].chunks, s');
    TruncatedNode(cfg, s, own, ino, node);
    var m' := SetNode(m, ino, node');
    DropOwners(s, m, own, ino, s', m');
    SuperTouched(s, s', m, own, own', ino);
    SuperFrame(cfg, s, s', m, m');
    ResidencyFrame(s, s', m, m');
    OneNode(cfg, s, s', m, m', own, own', ino);
    forall u | u in own
      ensures if own[u].Slot? && own[u].ino == ino then Unparse(u) !in s'.disk else SameAt(s.disk, s'.disk, u)
    {
      TruncatedBlob(s, own, ino, u);
    }
  }

  lemma TruncatedBlob(s: State, own: Owners, ino: nat, u: UUID)
    requires ino in s.files && QuietSlots(s, own, ino, s.files[ino].chunks) && u in own && NULL !in own
    ensures if own[u].Slot? && own[u].ino == ino then Unparse(u) !in Truncated(s, ino).disk
      else SameAt(s.disk, Truncated(s, ino).disk, u)
  {
    hide Unparse, SameAt, RemoveChunks;
    var chunks := s.files[ino].chunks;
    if own[u].Slot? && own[u].ino == ino {
      assert chunks[own[u].idx].uuid == u;
      RemovedExactly(s.disk, chunks, u);
    } else {
      RemovedElsewhere(s.disk, s, own, ino, chunks, u);
    }
  }

  lemma SuperTouched(s: State, s': State, m: Model, own: Owners, own': Owners, ino: nat)
    requires OwnersOk(s, m, own) && OnlyTouches(s, s', own, own', ino)
    ensures SameSuper(s, s')
  {
  }

  lemma DropOwners(s: State, m: Model, own: Owners, ino: nat, s': State, m': Model)
    requires OwnersOk(s, m, own) && SameTree(m, m') && s'.sup == s.sup && s'.pool == s.pool
    ensures OwnersOk(s', m', DropSlots(own, ino))
  {
    hide NoDup;
  }

  lemma TruncatedNode(cfg: Config, s: State, own: Owners, ino: nat, node: Node)
    requires cfg.chunkSize > 0 && NodeOk(cfg, s, own, ino, node) && node.FileNode? && ino in s.files
    ensures NodeOk(cfg, Truncated(s, ino), DropSlots(own, ino), ino, node.(size := 0, pieces := [], status := Dirty))
  {
    hide LoadFilenode, LoadCache, RemoveChunks;
  }

  // ---------- removing a node ----------

  ghost function DropOwned(own: Owners, ino: nat): Owners {
    map u | u in own && !Owns(own[u], ino) :: own[u]
  }

  function WithoutNode(m: Model, ino: nat): Model {
    m.(nodes := m.nodes - {ino})
  }

  /** The disk after a node's metadata and then the chunks in its table have been removed. */
  function RemovedNode(s: State, uuid: UUID, chunks: seq<Chunk>): State {
    s.(disk := RemoveChunks(s.disk - {Unparse(uuid)}, chunks))
  }

  /** Nothing of the node is cached, and `chunks` is its table. */
  ghost predicate Removable(s: State, own: Owners, ino: nat, uuid: UUID, chunks: seq<Chunk>) {
    uuid in own && own[uuid] == Meta(ino) && QuietSlots(s, own, ino, chunks)
  }

  /** Removing a node takes precisely its own metadata and chunks off the disk. */
  lemma RemovedPrecisely(s: State, own: Owners, ino: nat, uuid: UUID, chunks: seq<Chunk>, u: UUID)
    requires Removable(s, own, ino, uuid, chunks) && NULL !in own && u in own
    ensures Owns(own[u], ino) && (own[u].Slot? || u == uuid) ==> Unparse(u) !in RemovedNode(s, uuid, chunks).disk
    ensures !Owns(own[u], ino) ==> SameAt(s.disk, RemovedNode(s, uuid, chunks).disk, u)
  {
    hide Unparse;
    var d := s.disk - {Unparse(uuid)};
    RemovedExactly(d, chunks, u);
    UnparseInjective(u, uuid);
    if own[u].Slot? && own[u].ino == ino { assert chunks[own[u].idx].uuid == u; }
    if !Owns(own[u], ino) {
      assert forall i :: 0 <= i < |chunks| ==> chunks[i].uuid != u;
      assert SameAt(s.disk, d, u);
    }
  }

  /** The stored table of a quiet file, resident or not, is the one to remove. */
  lemma QuietStored(cfg: Config, s: State, m: Model, own: Owners, ino: nat)
    requires Coherent(cfg, s, m, own) && ino in m.nodes && m.nodes[ino].FileNode? && m.nodes[ino].status == Quiet
    ensures var r := LoadFilenode(cfg, s.disk, m.nodes[ino].uuid);
      r.Some? && Removable(s, own, ino, m.nodes[ino].uuid, r.value.chunks)
  {
    hide GlobalOk, LoadCache, LoadFilenode;
    assert NodeOk(cfg, s, own, ino, m.nodes[ino]);
    var chunks := Rec(cfg, s, ino, m.nodes[ino].uuid).value.chunks;
    forall i | 0 <= i < |chunks| && chunks[i].uuid != NULL
      ensures chunks[i].uuid in own && own[chunks[i].uuid] == Slot(ino, i) && chunks[i].uuid !in s.at
    {
      assert SlotOk(cfg, s, own, ino, i, chunks[i], m.nodes[ino].pieces[i]);
    }
  }

  /** A directory owns its metadata and no more. */
  lemma DirRemovable(cfg: Config, s: State, m: Model, own: Owners, ino: nat)
    requires Coherent(cfg, s, m, own) && ino in m.nodes && m.nodes[ino].DirNode?
    ensures LoadDirnode(cfg, s.disk, m.nodes[ino].uuid) == Some(DirRec(ino, m.nodes[ino].name, m.nodes[ino].entries))
    ensures Removable(s, own, ino, m.nodes[ino].uuid, [])
  {
    hide LoadDirnode, SuperOk, ResidencyOk, Accounted, CacheOk, NoDup;
    assert NodeOk(cfg, s, own, ino, m.nodes[ino]);
  }

  lemma RemovedNodeOk(cfg: Config, s: State, m: Model, own: Owners, ino: nat, chunks: seq<Chunk>)
    requires Coherent(cfg, s, m, own) && ino in m.nodes && ino != 1
    requires Removable(s, own, ino, m.nodes[ino].uuid, chunks)
    ensures Coherent(cfg, RemovedNode(s, m.nodes[ino].uuid, chunks), WithoutNode(m, ino), DropOwned(own, ino))
  {
    hide OwnersOk, SuperOk, ResidencyOk, Elsewhere, NodeOk, CacheOk, Accounted, SameAt, RemoveChunks;
    var s', own', m' := RemovedNode(s, m.nodes[ino].uuid, chunks), DropOwned(own, ino), WithoutNode(m, ino);
    PoolHead(s, m, own);
    RemovedNodeTouches(s, own, ino, m.nodes[ino].uuid, chunks);
    RemovedNodeOwners(s, m, own, ino, chunks);
    SuperTouched(s, s', m, own, own', ino);
    RemovedNodeGlobal(cfg, s, s', m, ino);
    OneNode(cfg, s, s', m, m', own, own', ino);
  }

  lemma RemovedNodeTouches(s: State, own: Owners, ino: nat, uuid: UUID, chunks: seq<Chunk>)
    requires CacheOk(s, own) && Removable(s, own, ino, uuid, chunks) && NULL !in own
    ensures OnlyTouches(s, RemovedNode(s, uuid, chunks), own, DropOwned(own, ino), ino)
    ensures CacheOk(RemovedNode(s, uuid, chunks), DropOwned(own, ino))
  {
    hide SameAt, RemoveChunks;
    var own' := DropOwned(own, ino);
    forall u | u in own && !Owns(own[u], ino) ensures SameAt(s.disk, RemovedNode(s, uuid, chunks).disk, u) {
      RemovedPrecisely(s, own, ino, uuid, chunks, u);
    }
    forall k | k in s.at ensures k in own' && own'[k] == Slot(s.at[k].ino, s.at[k].idx) {
      QuietCache(s, own, ino, chunks, k);
    }
  }

  lemma RemovedNodeOwners(s: State, m: Model, own: Owners, ino: nat, chunks: seq<Chunk>)
    requires OwnersOk(s, m, own) && Accounted(s, own) && ino in m.nodes
    requires Removable(s, own, ino, m.nodes[ino].uuid, chunks)
    ensures var s' := RemovedNode(s, m.nodes[ino].uuid, chunks);
      OwnersOk(s', WithoutNode(m, ino), DropOwned(own, ino)) && Accounted(s', DropOwned(own, ino))
  {
    hide NoDup, Unparse, RemoveChunks;
    var uuid, own' := m.nodes[ino].uuid, DropOwned(own, ino);
    var s' := RemovedNode(s, uuid, chunks);
    forall key | key in s'.disk ensures key in Names(own') {
      assert s'.disk.Keys <= (s.disk - {Unparse(uuid)}).Keys;
      assert key in Names(own);
      var u :| u in own && Unparse(u) == key;
      RemovedPrecisely(s, own, ino, uuid, chunks, u);
      assert u in own';
    }
  }

  lemma RemovedNodeGlobal(cfg: Config, s: State, s': State, m: Model, ino: nat)
    requires SuperOk(cfg, s, m) && ResidencyOk(s, m) && ino != 1
    requires SameSuper(s, s') && s' == s.(disk := s'.disk)
    ensures SuperOk(cfg, s', WithoutNode(m, ino)) && ResidencyOk(s', WithoutNode(m, ino))
  {
    SameMetadata(cfg, s.disk, s'.disk, s.sup.uuid);
    SameMetadata(cfg, s.disk, s'.disk, s.sup.users);
    hide LoadSuperinfo, SameAt;
  }

  // ---------- saving a directory ----------

  ghost function SavedDir(cfg: Config, s: State, p: nat, entries: seq<Dirent>): State
    requires p in s.dirs && Ideal(cfg.aead)
  {
    var d := s.dirs[p].(entries := entries);
    s.(dirs := s.dirs[p := d], disk := s.disk[Unparse(d.uuid) := SealMetadata(cfg, d.uuid, DumpDir(d.Rec()))])
  }

  ghost predicate OpenDir(s: State, m: Model, p: nat) {
    p in s.dirs && p in m.nodes && m.nodes[p].DirNode?
  }

  /** Directories are written through: the resident node and the stored copy change together. */
  lemma SavedDirOk(cfg: Config, s: State, m: Model, own: Owners, p: nat, entries: seq<Dirent>)
    requires Coherent(cfg, s, m, own) && OpenDir(s, m, p)
    requires DirRecFits(DirRec(p, m.nodes[p].name, entries))
    ensures Coherent(cfg, SavedDir(cfg, s, p, entries), SetNode(m, p, m.nodes[p].(entries := entries)), own)
  {
    hide OwnersOk, SuperOk, ResidencyOk, Elsewhere, CacheOk, Accounted, SameAt, Ideal, SealMetadata, LoadDirnode,
      LoadMetadata;
    var s', node := SavedDir(cfg, s, p, entries), m.nodes[p];
    assert NodeOk(cfg, s, own, p, node);
    SavedDirTouches(cfg, s, own, p, entries);
    SavedDirLoads(cfg, s, p, entries);
    assert SameInodes(s, s');
    NodeStep(cfg, s, s', m, own, p, node.(entries := entries));
  }

  lemma SavedDirTouches(cfg: Config, s: State, own: Owners, p: nat, entries: seq<Dirent>)
    requires p in s.dirs && CacheOk(s, own) && Accounted(s, own) && Ideal(cfg.aead)
    requires s.dirs[p].uuid in own && own[s.dirs[p].uuid] == Meta(p)
    ensures var s' := SavedDir(cfg, s, p, entries);
      OnlyTouches(s, s', own, own, p) && CacheOk(s', own) && Accounted(s', own)
  {
    hide Ideal, SealMetadata, Unparse;
    var s', u := SavedDir(cfg, s, p, entries), s.dirs[p].uuid;
    PutFrame(s.disk, s'.disk, u, SealMetadata(cfg, u, DumpDir(s'.dirs[p].Rec())));
    assert Unparse(u) in Names(own);
    hide SameAt;
  }

  lemma SavedDirLoads(cfg: Config, s: State, p: nat, entries: seq<Dirent>)
    requires Ideal(cfg.aead) && p in s.dirs && DirRecFits(s.dirs[p].Rec().(entries := entries))
    ensures var s' := SavedDir(cfg, s, p, entries);
      LoadDirnode(cfg, s'.disk, s.dirs[p].uuid) == Some(s'.dirs[p].Rec())
  {
    var d := s.dirs[p].(entries := entries);
    MetadataRoundTrip(cfg, s.disk, d.uuid, DumpDir(d.Rec()));
    DirRoundTrip(d.Rec());
    hide DumpDir, LoadDir, LoadMetadata, SealMetadata;
  }

  // ---------- adding a node ----------

  /** gen_rand: the next identifier is drawn. */
  lemma DrawnOk(cfg: Config, s: State, m: Model, own: Owners)
    requires Coherent(cfg, s, m, own) && s.pool != []
    ensures Coherent(cfg, s.(pool := s.pool[1..]), m, own)
    ensures s.pool[0] != NULL && s.pool[0] !in own && s.pool[0] !in s.pool[1..]
  {
    hide OwnersOk, SuperOk, ResidencyOk, NodeOk, CacheOk, Accounted;
    DrawnOwners(s, m, own);
    DrawnParts(cfg, s, m, own);
    forall i | i in m.nodes ensures NodeOk(cfg, s.(pool := s.pool[1..]), own, i, m.nodes[i]) {
      DrawnNode(cfg, s, own, i, m.nodes[i]);
    }
  }

  lemma DrawnOwners(s: State, m: Model, own: Owners)
    requires OwnersOk(s, m, own) && s.pool != []
    ensures OwnersOk(s.(pool := s.pool[1..]), m, own)
    ensures s.pool[0] != NULL && s.pool[0] !in own && s.pool[0] !in s.pool[1..]
  {
  }

  lemma DrawnParts(cfg: Config, s: State, m: Model, own: Owners)
    requires SuperOk(cfg, s, m) && ResidencyOk(s, m) && CacheOk(s, own) && Accounted(s, own) && s.pool != []
    ensures var s' := s.(pool := s.pool[1..]);
      SuperOk(cfg, s', m) && ResidencyOk(s', m) && CacheOk(s', own) && Accounted(s', own)
  {
    hide LoadSuperinfo, LoadMetadata, Names;
  }

  lemma DrawnNode(cfg: Config, s: State, own: Owners, i: nat, node: Node)
    requires cfg.chunkSize > 0 && NodeOk(cfg, s, own, i, node) && s.pool != []
    ensures NodeOk(cfg, s.(pool := s.pool[1..]), own, i, node)
  {
    var s' := s.(pool := s.pool[1..]);
    hide LoadFilenode, LoadCache, LoadDirnode;
    if node.FileNode? {
      var chunks := Rec(cfg, s, i, node.uuid).value.chunks;
      forall j | 0 <= j < |chunks| ensures SlotOk(cfg, s', own, i, j, chunks[j], node.pieces[j]) {
        assert SlotOk(cfg, s, own, i, j, chunks[j], node.pieces[j]);
      }
    }
  }

  /** The new inode is made resident, the inode counter goes up, and superinfo and node are saved. */
  ghost function Added(cfg: Config, s: State, ino: nat, uuid: UUID, node: Node): State
    requires Ideal(cfg.aead)
  {
    var sup := s.sup.(maxIno := s.sup.maxIno + 1);
    var plain := if node.FileNode? then DumpFile(FileRec(ino, 0, [])) else DumpDir(DirRec(ino, node.name, []));
    s.(files := if node.FileNode? then s.files[ino := FileV(uuid, ino, 0, [], 1)] else s.files,
       dirs := if node.FileNode? then s.dirs else s.dirs[ino := DirV(uuid, ino, node.name, [], 1)],
       sup := sup,
       disk := s.disk[Unparse(sup.uuid) := SealMetadata(cfg, sup.uuid, DumpSuper(sup.Rec()))]
                     [Unparse(uuid) := SealMetadata(cfg, uuid, plain)])
  }

  ghost predicate NewNode(node: Node, uuid: UUID) {
    && node.uuid == uuid
    && (if node.FileNode? then node.size == 0 && node.pieces == [] && node.status == Quiet
        else node.entries == [] && |node.name| < MAX_PATH_LEN)
  }

  function WithNode(m: Model, node: Node): Model {
    Model(m.nodes[m.maxIno := node], m.maxIno + 1, m.refs[m.maxIno := 1], m.users)
  }

  ghost predicate Unused(s: State, m: Model, own: Owners, uuid: UUID) {
    && uuid != NULL && uuid !in own && uuid !in s.pool
    && m.maxIno >= 2 && m.maxIno + 1 < WORD
    && forall i :: i in m.nodes ==> i < m.maxIno
  }

  lemma AddedOk(cfg: Config, s: State, m: Model, own: Owners, uuid: UUID, node: Node)
    requires Coherent(cfg, s, m, own) && Unused(s, m, own, uuid) && NewNode(node, uuid)
    ensures Coherent(cfg, Added(cfg, s, m.maxIno, uuid, node), WithNode(m, node), own[uuid := Meta(m.maxIno)])
  {
    hide OwnersOk, SuperOk, ResidencyOk, Elsewhere, NodeOk, CacheOk, Accounted, SameAt, Ideal, Added, LoadFilenode,
      LoadDirnode, LoadMetadata, DumpSuper, DumpFile, DumpDir, NoDup;
    var ino := m.maxIno;
    var s', own', m' := Added(cfg, s, ino, uuid, node), own[uuid := Meta(ino)], WithNode(m, node);
    SuperKnown(s, m, own);
    MaxInoFree(s, m, own);
    AddedDisk(cfg, s, own, ino, uuid, node);
    AddedTouches(cfg, s, own, ino, uuid, node);
    AddedOwners(cfg, s, m, own, uuid, node);
    assert s.sup.users != uuid;
    AddedSuper(cfg, s, m, uuid, node);
    AddedResidency(cfg, s, m, uuid, node);
    AddedLoads(cfg, s'.disk, ino, uuid, node);
    AddedNode(cfg, s, own, ino, uuid, node);
    OneNode(cfg, s, s', m, m', own, own', ino);
  }

  lemma MaxInoFree(s: State, m: Model, own: Owners)
    requires OwnersOk(s, m, own) && ResidencyOk(s, m) && m.maxIno >= 2
    requires forall i :: i in m.nodes ==> i < m.maxIno
    ensures m.maxIno !in s.files && m.maxIno !in s.dirs && forall u :: u in own ==> !Owns(own[u], m.maxIno)
  {
    hide NoDup;
  }

  lemma SuperKnown(s: State, m: Model, own: Owners)
    requires OwnersOk(s, m, own)
    ensures s.sup.uuid in own && own[s.sup.uuid] == Super && NULL !in own
    ensures s.sup.users in own && s.sup.users != s.sup.uuid
  {
  }

  lemma AddedSup(cfg: Config, s: State, ino: nat, uuid: UUID, node: Node)
    requires Ideal(cfg.aead)
    ensures Added(cfg, s, ino, uuid, node).sup == s.sup.(maxIno := s.sup.maxIno + 1)
  {
  }

  lemma AddedDisk(cfg: Config, s: State, own: Owners, ino: nat, uuid: UUID, node: Node)
    requires Ideal(cfg.aead) && s.sup.uuid != uuid
    ensures var s' := Added(cfg, s, ino, uuid, node);
      && (forall u: UUID :: u != uuid && u != s.sup.uuid ==> SameAt(s.disk, s'.disk, u))
      && LoadMetadata(cfg, s'.disk, s.sup.uuid) == Some(DumpSuper(s'.sup.Rec()))
      && LoadMetadata(cfg, s'.disk, uuid) ==
         Some(if node.FileNode? then DumpFile(FileRec(ino, 0, [])) else DumpDir(DirRec(ino, node.name, [])))
  {
    hide Unparse, DumpSuper, DumpDir, DumpFile, SealMetadata, LoadMetadata, Ideal;
    var s' := Added(cfg, s, ino, uuid, node);
    var plain := if node.FileNode? then DumpFile(FileRec(ino, 0, [])) else DumpDir(DirRec(ino, node.name, []));
    var d1 := s.disk[Unparse(s.sup.uuid) := SealMetadata(cfg, s.sup.uuid, DumpSuper(s'.sup.Rec()))];
    PutFrame(s.disk, d1, s.sup.uuid, SealMetadata(cfg, s.sup.uuid, DumpSuper(s'.sup.Rec())));
    PutFrame(d1, s'.disk, uuid, SealMetadata(cfg, uuid, plain));
    MetadataRoundTrip(cfg, s.disk, s.sup.uuid, DumpSuper(s'.sup.Rec()));
    MetadataRoundTrip(cfg, d1, uuid, plain);
    SameMetadata(cfg, d1, s'.disk, s.sup.uuid);
    forall u: UUID | u != uuid && u != s.sup.uuid ensures SameAt(s.disk, s'.disk, u) {
      assert SameAt(s.disk, d1, u) && SameAt(d1, s'.disk, u);
    }
  }

  lemma AddedTouches(cfg: Config, s: State, own: Owners, ino: nat, uuid: UUID, node: Node)
    requires Ideal(cfg.aead) && CacheOk(s, own) && uuid !in own && NULL !in own
    requires forall u: UUID :: u != uuid && u != s.sup.uuid ==> SameAt(s.disk, Added(cfg, s, ino, uuid, node).disk, u)
    requires s.sup.uuid in own && own[s.sup.uuid] == Super
    ensures var s', own' := Added(cfg, s, ino, uuid, node), own[uuid := Meta(ino)];
      Elsewhere(s, s', own, own', ino) && CacheOk(s', own')
  {
    hide SameAt, SealMetadata, Ideal, Unparse, DumpSuper, DumpDir, DumpFile;
    var s', own' := Added(cfg, s, ino, uuid, node), own[uuid := Meta(ino)];
    forall u | u in own && own[u] != Super ensures SameAt(s.disk, s'.disk, u) {
      assert u != s.sup.uuid;
    }
  }

  lemma AddedOwners(cfg: Config, s: State, m: Model, own: Owners, uuid: UUID, node: Node)
    requires Ideal(cfg.aead) && OwnersOk(s, m, own) && Accounted(s, own) && Unused(s, m, own, uuid) && node.uuid == uuid
    ensures var s', own' := Added(cfg, s, m.maxIno, uuid, node), own[uuid := Meta(m.maxIno)];
      OwnersOk(s', WithNode(m, node), own') && Accounted(s', own')
  {
    hide SealMetadata, Ideal, Unparse, DumpSuper, DumpDir, DumpFile, NoDup;
    var s', own' := Added(cfg, s, m.maxIno, uuid, node), own[uuid := Meta(m.maxIno)];
    forall key | key in s'.disk ensures key in Names(own') {
      if key in s.disk {
        assert key in Names(own);
        var u :| u in own && Unparse(u) == key;
        assert u in own';
      } else if key == Unparse(uuid) {
        assert uuid in own';
      } else {
        assert s.sup.uuid in own';
      }
    }
  }

  lemma AddedSuper(cfg: Config, s: State, m: Model, uuid: UUID, node: Node)
    requires Ideal(cfg.aead) && SuperOk(cfg, s, m) && 2 <= m.maxIno && m.maxIno + 1 < WORD
    requires var s' := Added(cfg, s, m.maxIno, uuid, node);
      && LoadMetadata(cfg, s'.disk, s.sup.uuid) == Some(DumpSuper(s'.sup.Rec()))
      && SameAt(s.disk, s'.disk, s.sup.users)
    ensures SuperOk(cfg, Added(cfg, s, m.maxIno, uuid, node), WithNode(m, node))
  {
    hide LoadSuperinfo, LoadMetadata, DumpSuper, DumpDir, DumpFile, SealMetadata, Unparse, Ideal;
    SameMetadata(cfg, s.disk, Added(cfg, s, m.maxIno, uuid, node).disk, s.sup.users);
    SuperLoads(cfg, Added(cfg, s, m.maxIno, uuid, node).disk, s.sup.(maxIno := s.sup.maxIno + 1));
  }

  lemma SuperLoads(cfg: Config, disk: Disk, sup: SuperV)
    requires LoadMetadata(cfg, disk, sup.uuid) == Some(DumpSuper(sup.Rec())) && |sup.hashes| == 64 && sup.maxIno < WORD
    ensures LoadSuperinfo(cfg, disk, sup.uuid) == Some(sup.Rec())
  {
    SuperRoundTrip(sup.Rec());
  }

  lemma AddedResidency(cfg: Config, s: State, m: Model, uuid: UUID, node: Node)
    requires Ideal(cfg.aead) && ResidencyOk(s, m) && m.maxIno >= 2
    requires m.maxIno !in s.files && m.maxIno !in s.dirs
    ensures ResidencyOk(Added(cfg, s, m.maxIno, uuid, node), WithNode(m, node))
  {
    hide DumpSuper, DumpDir, DumpFile, SealMetadata, Unparse, Ideal;
    var s', m' := Added(cfg, s, m.maxIno, uuid, node), WithNode(m, node);
    forall i ensures i in s'.files || i in s'.dirs <==> i == 1 || i in m'.refs {
      assert i in s.files || i in s.dirs <==> i == 1 || i in m.refs;
    }
  }

  lemma AddedLoads(cfg: Config, disk: Disk, ino: nat, uuid: UUID, node: Node)
    requires GoodConfig(cfg) && NewNode(node, uuid) && ino + 1 < WORD
    requires LoadMetadata(cfg, disk, uuid) ==
        Some(if node.FileNode? then DumpFile(FileRec(ino, 0, [])) else DumpDir(DirRec(ino, node.name, [])))
    ensures node.FileNode? ==> LoadFilenode(cfg, disk, uuid) == Some(FileRec(ino, 0, []))
    ensures node.DirNode? ==> LoadDirnode(cfg, disk, uuid) == Some(DirRec(ino, node.name, []))
  {
    hide LoadMetadata, LoadDir, LoadFile, DumpDir, DumpFile, Ideal;
    if node.FileNode? {
      assert CeilDiv(0, cfg.chunkSize) == 0 by { CeilDivUnique(0, 0, cfg.chunkSize); }
      FileRoundTrip(cfg.chunkSize, FileRec(ino, 0, []));
    } else {
      DirRoundTrip(DirRec(ino, node.name, []));
    }
  }

  lemma AddedNode(cfg: Config, s: State, own: Owners, ino: nat, uuid: UUID, node: Node)
    requires GoodConfig(cfg) && NewNode(node, uuid) && uuid !in own
    requires ino !in s.files && ino !in s.dirs
    requires forall u :: u in own ==> !Owns(own[u], ino)
    requires var s' := Added(cfg, s, ino, uuid, node);
      && (node.FileNode? ==> LoadFilenode(cfg, s'.disk, uuid) == Some(FileRec(ino, 0, [])))
      && (node.DirNode? ==> LoadDirnode(cfg, s'.disk, uuid) == Some(DirRec(ino, node.name, [])))
    ensures NodeOk(cfg, Added(cfg, s, ino, uuid, node), own[uuid := Meta(ino)], ino, node)
  {
    hide LoadFilenode, LoadDirnode, LoadCache, DumpDir, DumpFile, DumpSuper, SealMetadata, Unparse, Ideal;
    var own' := own[uuid := Meta(ino)];
    forall u | u in own' && own'[u].Slot? ensures own'[u].ino != ino {
      assert !Owns(own[u], ino);
    }
  }

  // ---------- references ----------

  function RefsOf(m: Model, ino: nat): nat {
    if ino in m.refs then m.refs[ino] else 0
  }

  /** Only whether and how `ino` is resident has changed. */
  ghost predicate InodeOnly(s: State, s': State, ino: nat) {
    && s'.at == s.at && s'.disk == s.disk && s'.sup == s.sup && s'.pool == s.pool
    && (forall i :: i != ino ==> (i in s.files <==> i in s'.files) && (i in s.dirs <==> i in s'.dirs))
    && (forall i :: i != ino && i in s.files ==> s.files[i] == s'.files[i])
    && (forall i :: i != ino && i in s.dirs ==> s.dirs[i] == s'.dirs[i])
  }

  lemma InodeOnlyKeeps(cfg: Config, s: State, s': State, m: Model, m': Model, own: Owners, ino: nat)
    requires OwnersOk(s, m, own) && SuperOk(cfg, s, m) && Accounted(s, own) && InodeOnly(s, s', ino) && ino != 1
    requires m'.nodes == m.nodes && m'.maxIno == m.maxIno && m'.users == m.users
    ensures Elsewhere(s, s', own, own, ino) && Accounted(s', own) && OwnersOk(s', m', own) && SuperOk(cfg, s', m')
  {
    hide LoadSuperinfo, NoDup, Names, Unparse;
  }

  /** What residency asks of one inode. */
  ghost predicate ResidentOk(s: State, m: Model, ino: nat) {
    && !(ino in s.files && ino in s.dirs)
    && (ino in s.files || ino in s.dirs <==> ino in m.refs)
    && (ino in m.refs ==> m.refs[ino] > 0 && ino < m.maxIno)
    && (ino in s.files ==> s.files[ino].refcount == RefsOf(m, ino))
    && (ino in s.dirs ==> s.dirs[ino].refcount == RefsOf(m, ino))
  }

  lemma ResidentAt(s: State, m: Model, ino: nat)
    requires ResidencyOk(s, m) && ino != 1
    ensures ResidentOk(s, m, ino)
  {
  }

  lemma ResidencyAt(s: State, s': State, m: Model, m': Model, ino: nat)
    requires ResidencyOk(s, m) && InodeOnly(s, s', ino) && ino != 1 && ResidentOk(s', m', ino)
    requires m'.maxIno == m.maxIno && forall i :: i != ino ==>
      (i in m.refs <==> i in m'.refs) && (i in m.refs ==> m.refs[i] == m'.refs[i])
    ensures ResidencyOk(s', m')
  {
    forall i ensures i in s'.files || i in s'.dirs <==> i == 1 || i in m'.refs {
      if i != ino { assert i in s.files || i in s.dirs <==> i == 1 || i in m.refs; }
    }
  }

  /** One more reference: a resident node counts it, any other is loaded first. */
  ghost function Referenced(cfg: Config, s: State, ino: nat, node: Node): State
    requires cfg.chunkSize > 0
  {
    if ino in s.files then s.(files := s.files[ino := s.files[ino].(refcount := s.files[ino].refcount + 1)])
    else if ino in s.dirs then s.(dirs := s.dirs[ino := s.dirs[ino].(refcount := s.dirs[ino].refcount + 1)])
    else if node.FileNode? then
      match LoadFilenode(cfg, s.disk, node.uuid)
      case None => s
      case Some(r) => s.(files := s.files[ino := FileV(node.uuid, r.ino, r.size, r.chunks, 1)])
    else
      match LoadDirnode(cfg, s.disk, node.uuid)
      case None => s
      case Some(r) => s.(dirs := s.dirs[ino := DirV(node.uuid, r.ino, r.name, r.entries, 1)])
  }

  function WithRef(m: Model, ino: nat): Model {
    m.(refs := m.refs[ino := RefsOf(m, ino) + 1])
  }

  /** A stored node always loads, with the number its directory entry gives it. */
  lemma StoredLoads(cfg: Config, s: State, m: Model, own: Owners, ino: nat)
    requires Coherent(cfg, s, m, own) && ino in m.nodes && ino !in s.files && ino !in s.dirs
    ensures var node := m.nodes[ino];
      && (node.FileNode? ==>
        LoadFilenode(cfg, s.disk, node.uuid).Some? && LoadFilenode(cfg, s.disk, node.uuid).value.ino == ino)
      && (node.DirNode? ==>
        LoadDirnode(cfg, s.disk, node.uuid).Some? && LoadDirnode(cfg, s.disk, node.uuid).value.ino == ino)
  {
    hide GlobalOk, LoadFilenode, LoadDirnode;
    assert NodeOk(cfg, s, own, ino, m.nodes[ino]);
  }

  lemma ReferencedOk(cfg: Config, s: State, m: Model, own: Owners, ino: nat)
    requires Coherent(cfg, s, m, own) && ino in m.nodes && 1 < ino < m.maxIno
    ensures Coherent(cfg, Referenced(cfg, s, ino, m.nodes[ino]), WithRef(m, ino), own)
  {
    hide OwnersOk, SuperOk, ResidencyOk, Elsewhere, CacheOk, Accounted, NodeOk, Referenced;
    var node := m.nodes[ino];
    var s', m' := Referenced(cfg, s, ino, node), WithRef(m, ino);
    StoredLoadsIfAway(cfg, s, m, own, ino);
    ResidentAt(s, m, ino);
    ReferencedShape(cfg, s, m, own, ino, node);
    InodeOnlyKeeps(cfg, s, s', m, m', own, ino);
    ResidencyAt(s, s', m, m', ino);
    ReferencedNode(cfg, s, own, ino, node);
    OneNode(cfg, s, s', m, m', own, own, ino);
  }

  lemma StoredLoadsIfAway(cfg: Config, s: State, m: Model, own: Owners, ino: nat)
    requires Coherent(cfg, s, m, own) && ino in m.nodes
    ensures Reachable(cfg, s, ino, m.nodes[ino])
  {
    assert NodeOk(cfg, s, own, ino, m.nodes[ino]);
    if ino !in s.files && ino !in s.dirs { StoredLoads(cfg, s, m, own, ino); }
  }

  /** The node is resident as what it is, or loads as that. */
  ghost predicate Reachable(cfg: Config, s: State, ino: nat, node: Node) {
    && (ino in s.files ==> node.FileNode?) && (ino in s.dirs ==> node.DirNode?)
    && (ino !in s.files && ino !in s.dirs ==>
          if node.FileNode? then cfg.chunkSize > 0 && LoadFilenode(cfg, s.disk, node.uuid).Some?
          else LoadDirnode(cfg, s.disk, node.uuid).Some?)
  }

  lemma ReferencedShape(cfg: Config, s: State, m: Model, own: Owners, ino: nat, node: Node)
    requires cfg.chunkSize > 0 && Reachable(cfg, s, ino, node) && CacheOk(s, own)
    requires ino < m.maxIno && ResidentOk(s, m, ino)
    ensures var s', m' := Referenced(cfg, s, ino, node), WithRef(m, ino);
      InodeOnly(s, s', ino) && CacheOk(s', own) && ResidentOk(s', m', ino)
  {
    hide LoadFilenode, LoadDirnode;
  }

  lemma ReferencedNode(cfg: Config, s: State, own: Owners, ino: nat, node: Node)
    requires cfg.chunkSize > 0 && NodeOk(cfg, s, own, ino, node)
    ensures NodeOk(cfg, Referenced(cfg, s, ino, node), own, ino, node)
  {
    hide LoadFilenode, LoadDirnode, LoadCache;
    var s' := Referenced(cfg, s, ino, node);
    if node.FileNode? {
      var chunks := Rec(cfg, s, ino, node.uuid).value.chunks;
      forall j | 0 <= j < |chunks| ensures SlotOk(cfg, s', own, ino, j, chunks[j], node.pieces[j]) {
        assert SlotOk(cfg, s, own, ino, j, chunks[j], node.pieces[j]);
      }
    }
  }

  /** `n` references given back: at zero the node is dropped from memory. */
  function Forgotten(s: State, ino: nat, n: nat): State
  {
    if ino in s.files then
      var f := s.files[ino];
      s.(files := if f.refcount > n then s.files[ino := f.(refcount := f.refcount - n)] else s.files - {ino})
    else if ino in s.dirs then
      var d := s.dirs[ino];
      s.(dirs := if d.refcount > n then s.dirs[ino := d.(refcount := d.refcount - n)] else s.dirs - {ino})
    else s
  }

  function WithoutRefs(m: Model, ino: nat, n: nat): Model {
    m.(refs := if RefsOf(m, ino) > n then m.refs[ino := RefsOf(m, ino) - n] else m.refs - {ino})
  }

  lemma ForgottenOk(cfg: Config, s: State, m: Model, own: Owners, ino: nat, n: nat)
    requires Coherent(cfg, s, m, own) && ino != 1
    requires ino in m.nodes && m.nodes[ino].FileNode? && RefsOf(m, ino) <= n ==> m.nodes[ino].status == Quiet
    ensures Coherent(cfg, Forgotten(s, ino, n), WithoutRefs(m, ino, n), own)
  {
    hide OwnersOk, SuperOk, ResidencyOk, Elsewhere, CacheOk, Accounted, NodeOk, Forgotten;
    var s', m' := Forgotten(s, ino, n), WithoutRefs(m, ino, n);
    ResidentAt(s, m, ino);
    ForgottenShape(s, m, ino, n);
    InodeOnlyKeeps(cfg, s, s', m, m', own, ino);
    ResidencyAt(s, s', m, m', ino);
    if ino in m.nodes { ForgottenNode(cfg, s, own, ino, m.nodes[ino], n); }
    ForgottenCache(cfg, s, m, own, ino, n);
    OneNode(cfg, s, s', m, m', own, own, ino);
  }

  lemma ForgottenCache(cfg: Config, s: State, m: Model, own: Owners, ino: nat, n: nat)
    requires Coherent(cfg, s, m, own) && (ino in s.files ==> s.files[ino].refcount == RefsOf(m, ino))
    requires ino in m.nodes && m.nodes[ino].FileNode? && RefsOf(m, ino) <= n ==> m.nodes[ino].status == Quiet
    ensures CacheOk(Forgotten(s, ino, n), own)
  {
    hide OwnersOk, SuperOk, ResidencyOk, NodeOk, Accounted;
    var s' := Forgotten(s, ino, n);
    forall k | k in s.at ensures s.at[k].ino in s'.files {
      Cached(cfg, s, m, own, k);
      if s.at[k].ino == ino && m.nodes[ino].status == Quiet {
        QuietUncached(cfg, s, m, own, k);
      }
    }
  }

  lemma QuietUncached(cfg: Config, s: State, m: Model, own: Owners, k: UUID)
    requires Coherent(cfg, s, m, own) && k in s.at && s.at[k].ino in m.nodes && m.nodes[s.at[k].ino].FileNode?
    ensures m.nodes[s.at[k].ino].status != Quiet
  {
    Cached(cfg, s, m, own, k);
    assert NodeOk(cfg, s, own, s.at[k].ino, m.nodes[s.at[k].ino]);
  }

  lemma ForgottenShape(s: State, m: Model, ino: nat, n: nat)
    requires ResidentOk(s, m, ino)
    ensures var s', m' := Forgotten(s, ino, n), WithoutRefs(m, ino, n);
      InodeOnly(s, s', ino) && ResidentOk(s', m', ino)
  {
  }

  lemma ForgottenNode(cfg: Config, s: State, own: Owners, ino: nat, node: Node, n: nat)
    requires cfg.chunkSize > 0 && NodeOk(cfg, s, own, ino, node)
    requires node.FileNode? && ino in s.files && s.files[ino].refcount <= n ==> node.status == Quiet
    ensures NodeOk(cfg, Forgotten(s, ino, n), own, ino, node)
  {
    hide LoadFilenode, LoadDirnode, LoadCache;
    var s' := Forgotten(s, ino, n);
    if node.FileNode? {
      var chunks := Rec(cfg, s, ino, node.uuid).value.chunks;
      assert Rec(cfg, s', ino, node.uuid) == Rec(cfg, s, ino, node.uuid);
      forall j | 0 <= j < |chunks| ensures SlotOk(cfg, s', own, ino, j, chunks[j], node.pieces[j]) {
        assert SlotOk(cfg, s, own, ino, j, chunks[j], node.pieces[j]);
      }
    }
  }

  // ---------- mounting again ----------

  /** A new mount: nothing is resident but the root, nothing is cached, all comes from the disk. */
  ghost function Mounted(s: State, sup: SuperRec, root: DirRec): State {
    State(map[], map[1 := DirV(sup.root, root.ino, root.name, root.entries, 0)], map[], s.disk,
          SuperV(s.sup.uuid, sup.root, sup.users, sup.hashes, sup.maxIno), s.pool)
  }

  function Settled(node: Node): Node {
    if node.FileNode? then node.(status := Quiet) else node
  }

  function Remounted(m: Model): Model {
    Model(map i | i in m.nodes :: Settled(m.nodes[i]), m.maxIno, map[], m.users)
  }

  /** With every file flushed, a mount from the disk alone finds the same file system. */
  lemma MountedOk(cfg: Config, s: State, m: Model, own: Owners)
    requires Coherent(cfg, s, m, own)
    requires forall i :: i in m.nodes && m.nodes[i].FileNode? ==> m.nodes[i].status != Dirty
    ensures LoadSuperinfo(cfg, s.disk, s.sup.uuid) == Some(s.sup.Rec())
    ensures LoadMetadata(cfg, s.disk, s.sup.users) == Some(m.users)
    ensures LoadDirnode(cfg, s.disk, s.sup.root).Some? && LoadDirnode(cfg, s.disk, s.sup.root).value.ino == 1
    ensures Coherent(cfg, Mounted(s, s.sup.Rec(), LoadDirnode(cfg, s.disk, s.sup.root).value), Remounted(m), own)
  {
    hide LoadSuperinfo, LoadDirnode, LoadFilenode, LoadCache, NodeOk, ResidencyOk;
    RootStored(cfg, s, m, own);
    var root := LoadDirnode(cfg, s.disk, s.sup.root).value;
    var s', m' := Mounted(s, s.sup.Rec(), root), Remounted(m);
    MountedOwners(s, m, own, s', m');
    MountedRest(s, m, s', m');
    assert SuperOk(cfg, s', m');
    assert Accounted(s', own) && CacheOk(s', own);
    hide OwnersOk, SuperOk, Accounted, CacheOk;
    forall i | i in m'.nodes ensures NodeOk(cfg, s', own, i, m'.nodes[i]) {
      assert NodeOk(cfg, s, own, i, m.nodes[i]);
      MountedNode(cfg, s, own, i, m.nodes[i], root);
    }
  }

  lemma RootStored(cfg: Config, s: State, m: Model, own: Owners)
    requires Coherent(cfg, s, m, own)
    ensures LoadSuperinfo(cfg, s.disk, s.sup.uuid) == Some(s.sup.Rec())
    ensures var r := LoadDirnode(cfg, s.disk, s.sup.root);
      r.Some? && r.value.ino == 1 && 1 in m.nodes && m.nodes[1].DirNode? && m.nodes[1].uuid == s.sup.root
      && r.value == DirRec(1, m.nodes[1].name, m.nodes[1].entries)
      && s.sup.root in own && own[s.sup.root] == Meta(1)
  {
    hide LoadSuperinfo, LoadDirnode, LoadFilenode, OwnersOk, Accounted, CacheOk, ResidencyOk;
    assert NodeOk(cfg, s, own, 1, m.nodes[1]);
  }

  lemma MountedOwners(s: State, m: Model, own: Owners, s': State, m': Model)
    requires OwnersOk(s, m, own) && m' == Remounted(m)
    requires s'.sup.uuid == s.sup.uuid && s'.sup.users == s.sup.users && s'.pool == s.pool
    ensures OwnersOk(s', m', own)
  {
    hide NoDup;
  }

  lemma MountedRest(s: State, m: Model, s': State, m': Model)
    requires m' == Remounted(m) && s'.files == map[] && s'.dirs.Keys == {1}
    ensures ResidencyOk(s', m')
  {
  }

  lemma MountedNode(cfg: Config, s: State, own: Owners, i: nat, node: Node, root: DirRec)
    requires cfg.chunkSize > 0 && NodeOk(cfg, s, own, i, node) && (node.FileNode? ==> node.status != Dirty)
    requires s.sup.root in own && own[s.sup.root] == Meta(1)
    requires i == 1 ==> node.DirNode? && node.uuid == s.sup.root && root == DirRec(1, node.name, node.entries)
    ensures NodeOk(cfg, Mounted(s, s.sup.Rec(), root), own, i, Settled(node))
  {
    hide LoadFilenode, LoadDirnode, LoadCache;
    var s' := Mounted(s, s.sup.Rec(), root);
    if node.FileNode? {
      var chunks := Rec(cfg, s, i, node.uuid).value.chunks;
      assert Rec(cfg, s', i, node.uuid) == Rec(cfg, s, i, node.uuid);
      forall j | 0 <= j < |chunks| ensures SlotOk(cfg, s', own, i, j, chunks[j], node.pieces[j]) {
        assert SlotOk(cfg, s, own, i, j, chunks[j], node.pieces[j]);
      }
    }
  }

  // ---------- a new volume ----------

  /** What sgx_read_rand is assumed to return: identifiers that are all different, and not null. */
  ghost predicate Random(pool: seq<UUID>) {
    NoDup(pool) && forall i :: 0 <= i < |pool| ==> pool[i] != NULL
  }

  function NewDisk(cfg: Config, sp: UUID, ut: UUID, rt: UUID, users: Bytes, hashes: Bytes): Disk {
    map[Unparse(ut) := SealMetadata(cfg, ut, users)]
       [Unparse(rt) := SealMetadata(cfg, rt, DumpDir(DirRec(1, [], [])))]
       [Unparse(sp) := SealMetadata(cfg, sp, DumpSuper(SuperRec(rt, ut, hashes, 2)))]
  }

  function NewModel(rt: UUID, users: Bytes): Model {
    Model(map[1 := DirNode(rt, 0, [], [])], 2, map[], users)
  }

  function NewOwners(sp: UUID, ut: UUID, rt: UUID): Owners {
    map[sp := Super, ut := Users, rt := Meta(1)]
  }

  ghost function NewState(cfg: Config, sp: UUID, ut: UUID, rt: UUID, users: Bytes, hashes: Bytes,
    pool: seq<UUID>): State {
    State(map[], map[1 := DirV(rt, 1, [], [], 0)], map[], NewDisk(cfg, sp, ut, rt, users, hashes),
          SuperV(sp, rt, ut, hashes, 2), pool)
  }

  /** What creating a volume has saved loads again. */
  lemma CreatedLoads(cfg: Config, sp: UUID, ut: UUID, rt: UUID, users: Bytes, hashes: Bytes)
    requires Ideal(cfg.aead) && |hashes| == 64 && sp != ut && sp != rt && ut != rt
    ensures var d := NewDisk(cfg, sp, ut, rt, users, hashes);
      && LoadSuperinfo(cfg, d, sp) == Some(SuperRec(rt, ut, hashes, 2))
      && LoadDirnode(cfg, d, rt) == Some(DirRec(1, [], []))
      && LoadMetadata(cfg, d, ut) == Some(users)
  {
    hide Unparse, DumpSuper, DumpDir, SealMetadata, LoadMetadata, Ideal, LoadDir, LoadSuper;
    var d0: Disk := map[];
    var root, info := DirRec(1, [], []), SuperRec(rt, ut, hashes, 2);
    var d1 := d0[Unparse(ut) := SealMetadata(cfg, ut, users)];
    var d2 := d1[Unparse(rt) := SealMetadata(cfg, rt, DumpDir(root))];
    var d3 := d2[Unparse(sp) := SealMetadata(cfg, sp, DumpSuper(info))];
    MetadataRoundTrip(cfg, d0, ut, users);
    MetadataRoundTrip(cfg, d1, rt, DumpDir(root));
    MetadataRoundTrip(cfg, d2, sp, DumpSuper(info));
    PutFrame(d1, d2, rt, SealMetadata(cfg, rt, DumpDir(root)));
    PutFrame(d2, d3, sp, SealMetadata(cfg, sp, DumpSuper(info)));
    SameMetadata(cfg, d1, d2, ut);
    SameMetadata(cfg, d2, d3, ut);
    SameMetadata(cfg, d2, d3, rt);
    DirRoundTrip(root);
    SuperRoundTrip(info);
  }

  lemma CreatedOwners(cfg: Config, sp: UUID, ut: UUID, rt: UUID, users: Bytes, hashes: Bytes, pool: seq<UUID>)
    requires Random([sp, ut, rt] + pool)
    ensures var s, own := NewState(cfg, sp, ut, rt, users, hashes, pool), NewOwners(sp, ut, rt);
      OwnersOk(s, NewModel(rt, users), own) && Accounted(s, own) && CacheOk(s, own)
    ensures sp != ut && sp != rt && ut != rt
  {
    hide Unparse, SealMetadata, DumpDir, DumpSuper;
    var own, all := NewOwners(sp, ut, rt), [sp, ut, rt] + pool;
    assert all[0] == sp && all[1] == ut && all[2] == rt;
    assert forall i :: 0 <= i < |pool| ==> pool[i] == all[i + 3];
    assert sp in own && ut in own && rt in own;
  }

  lemma CreatedOk(cfg: Config, sp: UUID, ut: UUID, rt: UUID, users: Bytes, hashes: Bytes, pool: seq<UUID>)
    requires GoodConfig(cfg) && |hashes| == 64 && Random([sp, ut, rt] + pool)
    ensures Coherent(cfg, NewState(cfg, sp, ut, rt, users, hashes, pool), NewModel(rt, users), NewOwners(sp, ut, rt))
  {
    hide Unparse, NewDisk, LoadSuperinfo, LoadDirnode, Ideal, OwnersOk, Accounted, CacheOk, Random, LoadFilenode,
      LoadMetadata;
    CreatedOwners(cfg, sp, ut, rt, users, hashes, pool);
    CreatedLoads(cfg, sp, ut, rt, users, hashes);
  }

  // ---------- what the protocol is for ----------

  /** `chunk()` of every cached chunk leads to a slot: its file is resident, and its table is long enough. */
  ghost predicate SlotsExist(s: State) {
    forall k :: k in s.at ==> s.at[k].ino in s.files && s.at[k].idx < |s.files[s.at[k].ino].chunks|
  }

  ghost predicate NoneCached(s: State, ino: nat) {
    forall k :: k in s.at ==> s.at[k].ino != ino
  }

  lemma CoherentSlots(cfg: Config, s: State, m: Model, own: Owners)
    requires Coherent(cfg, s, m, own)
    ensures SlotsExist(s)
  {
    hide Coherent;
    forall k | k in s.at ensures s.at[k].ino in s.files && s.at[k].idx < |s.files[s.at[k].ino].chunks| {
      Cached(cfg, s, m, own, k);
    }
  }

  /** Truncation leaves every later eviction a slot to write its tag to exactly when no chunk of the
      file is cached: otherwise the entry's index lies behind the emptied table. */
  lemma TruncateSafe(cfg: Config, s: State, m: Model, own: Owners, ino: nat)
    requires Coherent(cfg, s, m, own) && OpenFile(s, m, ino)
    ensures SlotsExist(Truncated(s, ino)) <==> NoneCached(s, ino)
  {
    hide Coherent, RemoveChunks;
    CoherentSlots(cfg, s, m, own);
  }

  /** So does dropping a file from memory: otherwise the entry's file has expired. */
  lemma DropSafe(cfg: Config, s: State, m: Model, own: Owners, ino: nat, n: nat)
    requires Coherent(cfg, s, m, own) && ino in s.files && s.files[ino].refcount <= n
    ensures SlotsExist(Forgotten(s, ino, n)) <==> NoneCached(s, ino)
  {
    hide Coherent;
    CoherentSlots(cfg, s, m, own);
  }

  /** So a file that is flushed, and not read since, is safe to truncate and to drop. */
  lemma FlushedSafe(cfg: Config, s: State, m: Model, own: Owners, ino: nat, n: nat)
    requires Coherent(cfg, s, m, own) && OpenFile(s, m, ino) && m.nodes[ino].status == Quiet
    requires s.files[ino].refcount <= n
    ensures SlotsExist(Truncated(s, ino)) && SlotsExist(Forgotten(s, ino, n))
  {
    hide Coherent, SlotsExist;
    assert NoneCached(s, ino) by {
      forall k | k in s.at ensures s.at[k].ino != ino {
        if s.at[k].ino == ino { QuietUncached(cfg, s, m, own, k); }
      }
    }
    TruncateSafe(cfg, s, m, own, ino);
    DropSafe(cfg, s, m, own, ino, n);
  }

  /** Removing the table `chunks` with a file's metadata leaves none of the file's blobs behind exactly
      when every chunk of the file that is on the disk is in that table. */
  lemma UnlinkExact(s: State, own: Owners, ino: nat, uuid: UUID, chunks: seq<Chunk>)
    requires NULL !in own && uuid in own && own[uuid] == Meta(ino)
    ensures (forall u :: u in own && (u == uuid || (own[u].Slot? && own[u].ino == ino)) ==>
               Unparse(u) !in RemovedNode(s, uuid, chunks).disk)
      <==> (forall u :: u in own && own[u].Slot? && own[u].ino == ino && Unparse(u) in s.disk ==> InTable(chunks, u))
  {
    hide Unparse, RemoveChunks, InTable;
    forall u | u in own ensures Unparse(u) in RemovedNode(s, uuid, chunks).disk
      <==> Unparse(u) in s.disk && u != uuid && !InTable(chunks, u)
    {
      RemovedAt(s, own, uuid, chunks, u);
    }
  }

  ghost predicate InTable(chunks: seq<Chunk>, u: UUID) {
    exists i :: 0 <= i < |chunks| && chunks[i].uuid == u
  }

  lemma RemovedAt(s: State, own: Owners, uuid: UUID, chunks: seq<Chunk>, u: UUID)
    requires NULL !in own && u in own
    ensures Unparse(u) in RemovedNode(s, uuid, chunks).disk <==>
      Unparse(u) in s.disk && u != uuid && !InTable(chunks, u)
  {
    hide Unparse, RemoveChunks;
    UnparseInjective(u, uuid);
    RemovedExactly(s.disk - {Unparse(uuid)}, chunks, u);
    if InTable(chunks, u) {
      var i :| 0 <= i < |chunks| && chunks[i].uuid == u;
      assert chunks[i].uuid == u != NULL;
    }
  }

  /** For a file that is flushed, read since or not, the stored table is that one. */
  lemma UnlinkClean(cfg: Config, s: State, m: Model, own: Owners, ino: nat)
    requires Coherent(cfg, s, m, own) && ino in m.nodes && m.nodes[ino].FileNode? && m.nodes[ino].status != Dirty
    ensures var uuid, r := m.nodes[ino].uuid, LoadFilenode(cfg, s.disk, m.nodes[ino].uuid);
      && r.Some?
      && (forall u :: u in own && (u == uuid || (own[u].Slot? && own[u].ino == ino)) ==>
            Unparse(u) !in RemovedNode(s, uuid, r.value.chunks).disk)
      && (forall k :: k in s.at && s.at[k].ino == ino ==> !s.at[k].modified)
  {
    hide Unparse, RemoveChunks, LoadFilenode, LoadCache, SuperOk, ResidencyOk, Accounted, NoDup, Saved;
    assert NodeOk(cfg, s, own, ino, m.nodes[ino]);
    var r := LoadFilenode(cfg, s.disk, m.nodes[ino].uuid);
    SavedTable(cfg, s, own, ino, m.nodes[ino]);
    UnlinkExact(s, own, ino, m.nodes[ino].uuid, r.value.chunks);
    forall u | u in own && own[u].Slot? && own[u].ino == ino ensures InTable(r.value.chunks, u) {
      assert r.value.chunks[own[u].idx].uuid == u;
    }
    forall k | k in s.at && s.at[k].ino == ino ensures !s.at[k].modified {
      Cached(cfg, s, m, own, k);
      SavedCached(cfg, s, own, ino, m.nodes[ino], k);
    }
  }

  lemma SavedTable(cfg: Config, s: State, own: Owners, ino: nat, node: Node)
    requires cfg.chunkSize > 0 && NodeOk(cfg, s, own, ino, node) && node.FileNode? && node.status != Dirty
    ensures var r := LoadFilenode(cfg, s.disk, node.uuid);
      r.Some? && TableOk(cfg, s, own, ino, r.value.chunks, node.pieces)
  {
    hide LoadFilenode, TableOk;
  }

  lemma SavedCached(cfg: Config, s: State, own: Owners, ino: nat, node: Node, k: UUID)
    requires cfg.chunkSize > 0 && NodeOk(cfg, s, own, ino, node) && node.FileNode? && node.status != Dirty
    requires k in s.at && k in own && own[k] == Slot(ino, s.at[k].idx)
    ensures !s.at[k].modified
  {
    hide LoadFilenode, LoadCache;
    var chunks := Rec(cfg, s, ino, node.uuid).value.chunks;
    assert chunks[own[k].idx].uuid == k;
  }

  /** After a removal, and the later eviction of a cached chunk, that chunk's blob is on the disk exactly
      when the cached copy was modified, or the blob lay on the disk and was not in the table removed. */
  lemma EvictedReturns(cfg: Config, s: State, own: Owners, uuid: UUID, chunks: seq<Chunk>, k: UUID)
    requires Ideal(cfg.aead) && NULL !in own && k in own && k != uuid
    requires k in s.at && s.at[k].ino in s.files && s.at[k].idx < |s.files[s.at[k].ino].chunks|
    ensures Unparse(k) in Evicted(cfg, RemovedNode(s, uuid, chunks), k).disk
      <==> s.at[k].modified || (Unparse(k) in s.disk && !InTable(chunks, k))
  {
    hide Unparse, RemoveChunks, SealedBlob, SealedSlot, Ideal, InTable;
    RemovedAt(s, own, uuid, chunks, k);
  }

  // ---------- a state in which the protocol matters ----------

  /** A file of one chunk, written and still cached. */
  lemma CachedExample(cfg: Config, all: seq<UUID>, users: Bytes, hashes: Bytes)
    returns (s: State, m: Model, own: Owners)
    requires GoodConfig(cfg) && |hashes| == 64 && Random(all) && |all| == 5
    ensures Coherent(cfg, s, m, own) && OpenFile(s, m, 2) && !NoneCached(s, 2) && s.files[2].refcount == 1
    ensures all[4] in s.at && s.at[all[4]] == Entry(2, 0, Zeros(cfg.chunkSize), true)
    ensures all[4] in own && own[all[4]] == Slot(2, 0) && m.nodes[2].uuid == all[3] != all[4]
    ensures LoadFilenode(cfg, s.disk, all[3]) == Some(FileRec(2, 0, []))
  {
    hide Coherent, SealMetadata, Unparse, NewDisk, Ideal, NoDup, LoadFilenode;
    assert all[3] != all[4] by { LastDiffer(all); }
    assert all == [all[0], all[1], all[2]] + all[3..];
    s, m, own := NewState(cfg, all[0], all[1], all[2], users, hashes, all[3..]), NewModel(all[2], users),
      NewOwners(all[0], all[1], all[2]);
    CreatedOk(cfg, all[0], all[1], all[2], users, hashes, all[3..]);
    DrawnOk(cfg, s, m, own);
    s := s.(pool := s.pool[1..]);
    var node := FileNode(all[3], 1, 0, [], Quiet);
    AddedOk(cfg, s, m, own, all[3], node);
    s, m, own := Added(cfg, s, 2, all[3], node), WithNode(m, node), own[all[3] := Meta(2)];
    QuietTable(cfg, s, m, own, 2);
    ResizedOk(cfg, s, m, own, 2, 1, cfg.chunkSize);
    s, m := Resized(s, 2, 1, cfg.chunkSize),
      SetNode(m, 2, node.(size := cfg.chunkSize, pieces := Grow(cfg.chunkSize, [], 1), status := Dirty));
    var data := Zeros(cfg.chunkSize);
    AllocatedOk(cfg, s, m, own, 2, 0, data);
    s, m, own := Allocated(s, 2, 0, data), SetNode(m, 2, Written(m.nodes[2], 0, data)), own[s.pool[0] := Slot(2, 0)];
    assert s.at[all[4]].ino == 2;
  }

  /** Truncating that file, or dropping it, leaves a cached chunk without its slot. */
  lemma UnsafeExample() returns (cfg: Config, s: State, m: Model, own: Owners)
    ensures Coherent(cfg, s, m, own) && OpenFile(s, m, 2)
    ensures !SlotsExist(Truncated(s, 2)) && !SlotsExist(Forgotten(s, 2, 1))
  {
    hide Coherent, Unparse, Ideal, NoDup, OneToOne;
    IdealAeadExists();
    var aead :| Ideal(aead);
    cfg := Config(4096, 1, aead);
    var all := seq(5, i requires 0 <= i < 5 => SampleUuid(i + 1));
    SamplesRandom(all);
    s, m, own := CachedExample(cfg, all, [], Zeros(64));
    TruncateSafe(cfg, s, m, own, 2);
    DropSafe(cfg, s, m, own, 2, 1);
  }

  lemma LastDiffer(all: seq<UUID>)
    requires Random(all) && |all| == 5
    ensures all[3] != all[4]
  {
  }

  /** Unlinking it after its chunk has been evicted, but not flushed, leaves the chunk's blob behind: the
      stored table is still the empty one. */
  lemma LeftBehindExample() returns (cfg: Config, s: State, m: Model, own: Owners, u: UUID)
    ensures Coherent(cfg, s, m, own) && OpenFile(s, m, 2) && u in own && own[u] == Slot(2, 0)
    ensures var r := LoadFilenode(cfg, s.disk, m.nodes[2].uuid);
      r.Some? && Unparse(u) in RemovedNode(s, m.nodes[2].uuid, r.value.chunks).disk
  {
    hide Coherent, Unparse, Ideal, NoDup, OneToOne, TagsDiffer, LoadFilenode, RemoveChunks, SealedBlob, SealedSlot,
      InTable;
    IdealAeadExists();
    var aead :| Ideal(aead);
    cfg := Config(4096, 1, aead);
    var all := seq(5, i requires 0 <= i < 5 => SampleUuid(i + 1));
    SamplesRandom(all);
    s, m, own := CachedExample(cfg, all, [], Zeros(64));
    u := all[4];
    Cached(cfg, s, m, own, u);
    EvictedOk(cfg, s, m, own, u);
    var s' := Evicted(cfg, s, u);
    PutFrame(s.disk, s'.disk, u, SealedBlob(cfg, u, Zeros(cfg.chunkSize)));
    SameMetadata(cfg, s.disk, s'.disk, all[3]);
    s := s';
    NotInEmpty(u);
    NullFree(cfg, s, m, own);
    RemovedAt(s, own, all[3], [], u);
  }

  lemma NotInEmpty(u: UUID)
    ensures !InTable([], u)
  {
  }

  lemma NullFree(cfg: Config, s: State, m: Model, own: Owners)
    requires Coherent(cfg, s, m, own)
    ensures NULL !in own
  {
    assert OwnersOk(s, m, own);
    hide Coherent;
  }

  function SampleUuid(b: Byte): (u: UUID)
    ensures u[0] == b
  {
    seq(16, _ => b)
  }

  lemma SamplesRandom(all: seq<UUID>)
    requires |all| == 5 && forall i :: 0 <= i < 5 ==> all[i] == SampleUuid(i + 1)
    ensures Random(all)
  {
    assert forall i :: 0 <= i < 5 ==> all[i][0] == i + 1;
  }

  // ---------- blob accounting ----------

  /** What a blob is for: the superinfo, the user table, a node's metadata, a slot of a file's table. */
  ghost predicate IsFor(cfg: Config, s: State, m: Model, u: UUID, o: Owner) {
    match o
    case Super => u == s.sup.uuid
    case Users => u == s.sup.users
    case Meta(ino) => ino in m.nodes && u == m.nodes[ino].uuid
    case Slot(ino, idx) =>
      ino in m.nodes && m.nodes[ino].FileNode? && cfg.chunkSize > 0
      && var r := Rec(cfg, s, ino, m.nodes[ino].uuid);
      r.Some? && idx < |r.value.chunks| && r.value.chunks[idx].uuid == u != NULL
  }

  lemma OwnedIsFor(cfg: Config, s: State, m: Model, own: Owners, u: UUID, o: Owner)
    requires Coherent(cfg, s, m, own)
    ensures IsFor(cfg, s, m, u, o) <==> u in own && own[u] == o
  {
    hide Accounted, CacheOk, SuperOk, ResidencyOk, LoadFilenode, LoadDirnode, LoadCache, NoDup;
    if (o.Meta? || o.Slot?) && o.ino in m.nodes {
      assert NodeOk(cfg, s, own, o.ino, m.nodes[o.ino]);
      if IsFor(cfg, s, m, u, o) && o.Slot? {
        var chunks := Rec(cfg, s, o.ino, m.nodes[o.ino].uuid).value.chunks;
        assert SlotOk(cfg, s, own, o.ino, o.idx, chunks[o.idx], m.nodes[o.ino].pieces[o.idx]);
      }
    }
  }

  /** Every blob on the disk is for exactly one thing. */
  lemma BlobsAccounted(cfg: Config, s: State, m: Model, own: Owners, key: string)
    requires Coherent(cfg, s, m, own) && key in s.disk
    ensures exists u, o :: Unparse(u) == key && IsFor(cfg, s, m, u, o)
    ensures forall u, o, u', o' ::
      (Unparse(u) == key == Unparse(u') && IsFor(cfg, s, m, u, o) && IsFor(cfg, s, m, u', o') ==> u == u' && o == o')
  {
    assert key in Names(own);
    hide Coherent, Unparse, IsFor;
    var u :| u in own && Unparse(u) == key;
    OwnedIsFor(cfg, s, m, own, u, own[u]);
    forall u, o, u', o' | Unparse(u) == key == Unparse(u') && IsFor(cfg, s, m, u, o) && IsFor(cfg, s, m, u', o')
      ensures u == u' && o == o'
    {
      UnparseInjective(u, u');
      OwnedIsFor(cfg, s, m, own, u, o);
      OwnedIsFor(cfg, s, m, own, u', o');
    }
  }

  // ---------- durability ----------

  ghost function StoredPiece(cfg: Config, disk: Disk, c: Chunk): Option<Bytes> {
    if c.uuid == NULL then Some(Zeros(cfg.chunkSize)) else LoadCache(cfg, disk, c)
  }

  /** A whole file as the disk alone gives it: its table, then every chunk under its nonce and tag; nothing
      if the table or any chunk does not load. */
  ghost function StoredImage(cfg: Config, disk: Disk, uuid: UUID): Option<Bytes>
    requires cfg.chunkSize > 0
  {
    match LoadFilenode(cfg, disk, uuid)
    case None => None
    case Some(r) =>
      if exists i :: 0 <= i < |r.chunks| && StoredPiece(cfg, disk, r.chunks[i]).None? then None else
      var ps := seq(|r.chunks|, i requires 0 <= i < |r.chunks| => StoredPiece(cfg, disk, r.chunks[i]).value);
      Some(FlatBytes(cfg.chunkSize, r.size, ps))
  }

  /** From its flush until it is next written or truncated, a file's bytes are on the disk. */
  lemma Durable(cfg: Config, s: State, m: Model, own: Owners, ino: nat)
    requires Coherent(cfg, s, m, own) && ino in m.nodes && m.nodes[ino].FileNode? && m.nodes[ino].status != Dirty
    ensures StoredImage(cfg, s.disk, m.nodes[ino].uuid)
      == Some(FlatBytes(cfg.chunkSize, m.nodes[ino].size, m.nodes[ino].pieces))
  {
    hide GlobalOk, LoadFilenode, LoadCache, FlatBytes;
    var node := m.nodes[ino];
    assert NodeOk(cfg, s, own, ino, node);
    var r := LoadFilenode(cfg, s.disk, node.uuid).value;
    forall i | 0 <= i < |r.chunks| ensures StoredPiece(cfg, s.disk, r.chunks[i]) == Some(node.pieces[i]) {
      assert SlotOk(cfg, s, own, ino, i, r.chunks[i], node.pieces[i]);
    }
    var ps := seq(|r.chunks|, i requires 0 <= i < |r.chunks| => StoredPiece(cfg, s.disk, r.chunks[i]).value);
    assert ps == node.pieces;
  }
}
