/** The elementary steps of the file operations on the state, and that each keeps it coherent. */
module FileSteps {
  import opened Bytes
  import opened Uuid
  import opened Layout
  import opened Storage
  import opened Lru
  import opened Nodes
  import opened Pieces
  import opened Slices
  import opened Coherence

  // ---------- steps that touch one inode ----------

  /** Nothing that belongs to another inode has changed. */
  ghost predicate Elsewhere(s: State, s': State, own: Owners, own': Owners, ino: nat) {
    && (forall i :: i != ino ==> (i in s.files <==> i in s'.files) && (i in s.dirs <==> i in s'.dirs))
    && (forall i :: i != ino && i in s.files ==> s.files[i] == s'.files[i])
    && (forall i :: i != ino && i in s.dirs ==> s.dirs[i] == s'.dirs[i])
    && (forall u :: u in own && !Owns(own[u], ino) ==>
          && u in own' && own'[u] == own[u] && (own[u] != Super ==> SameAt(s.disk, s'.disk, u))
          && (u in s.at <==> u in s'.at) && (u in s.at ==> s.at[u] == s'.at[u]))
    && (forall u :: u in own' && !Owns(own'[u], ino) ==> u in own && own[u] == own'[u])
  }

  /** ... and the superinfo has not, either. */
  ghost predicate OnlyTouches(s: State, s': State, own: Owners, own': Owners, ino: nat) {
    && Elsewhere(s, s', own, own', ino)
    && forall u :: u in own && own[u] == Super ==> SameAt(s.disk, s'.disk, u)
  }

  /** Only the touched inode has to be looked at again. */
  lemma OneNode(cfg: Config, s: State, s': State, m: Model, m': Model, own: Owners, own': Owners, ino: nat)
    requires Coherent(cfg, s, m, own) && GlobalOk(cfg, s', m', own')
    requires Elsewhere(s, s', own, own', ino)
    requires forall i :: i != ino && i in m'.nodes ==> i in m.nodes && m.nodes[i] == m'.nodes[i]
    requires ino in m'.nodes ==> NodeOk(cfg, s', own', ino, m'.nodes[ino])
    ensures Coherent(cfg, s', m', own')
  {
    assert CacheOk(s, own) && CacheOk(s', own') && NULL !in own && NULL !in own';
    hide GlobalOk, NodeOk, CacheOk;
    forall i | i in m'.nodes ensures NodeOk(cfg, s', own', i, m'.nodes[i]) {
      if i != ino {
        TouchedElsewhere(s, s', own, own', ino, i);
        Frame(cfg, s, s', own, own', i, m'.nodes[i]);
      }
    }
  }

  lemma TouchedElsewhere(s: State, s': State, own: Owners, own': Owners, ino: nat, i: nat)
    requires Elsewhere(s, s', own, own', ino) && i != ino
    ensures Untouched(s, s', own, own', i)
  {
  }

  /** The same tree of nodes: only the contents of files may differ. */
  ghost predicate SameTree(m: Model, m': Model) {
    && m'.maxIno == m.maxIno && m'.refs == m.refs && m'.users == m.users && m'.nodes.Keys == m.nodes.Keys
    && forall i :: i in m.nodes ==> m'.nodes[i].uuid == m.nodes[i].uuid && m'.nodes[i].FileNode? == m.nodes[i].FileNode?
  }

  ghost predicate SameInodes(s: State, s': State) {
    && s'.dirs.Keys == s.dirs.Keys && s'.files.Keys == s.files.Keys
    && (forall i :: i in s.files ==> s'.files[i].refcount == s.files[i].refcount)
    && (forall i :: i in s.dirs ==> s'.dirs[i].refcount == s.dirs[i].refcount)
  }

  lemma OwnersFrame(s: State, s': State, m: Model, m': Model, own: Owners)
    requires OwnersOk(s, m, own) && SameTree(m, m') && s'.sup == s.sup && s'.pool == s.pool
    ensures OwnersOk(s', m', own)
  {
  }

  lemma SuperFrame(cfg: Config, s: State, s': State, m: Model, m': Model)
    requires SuperOk(cfg, s, m) && SameTree(m, m') && SameInodes(s, s') && s'.sup == s.sup
    requires SameSuper(s, s')
    ensures SuperOk(cfg, s', m')
  {
    SameMetadata(cfg, s.disk, s'.disk, s.sup.uuid);
    SameMetadata(cfg, s.disk, s'.disk, s.sup.users);
    hide LoadSuperinfo, SameAt;
  }

  lemma ResidencyFrame(s: State, s': State, m: Model, m': Model)
    requires ResidencyOk(s, m) && SameTree(m, m') && SameInodes(s, s')
    ensures ResidencyOk(s', m')
  {
    assert forall i :: i in s'.files <==> i in s.files;
    assert forall i :: i in s'.dirs <==> i in s.dirs;
  }

  /** What the file operations leave of the whole state. */
  lemma GlobalFrame(cfg: Config, s: State, s': State, m: Model, m': Model, own: Owners)
    requires GlobalOk(cfg, s, m, own)
    requires SameTree(m, m') && SameInodes(s, s') && s'.sup == s.sup && s'.pool == s.pool
    requires SameSuper(s, s') && Accounted(s', own) && CacheOk(s', own)
    ensures GlobalOk(cfg, s', m', own)
  {
    hide OwnersOk, SuperOk, ResidencyOk, SameAt, Accounted, CacheOk, SameTree, SameInodes;
    OwnersFrame(s, s', m, m', own);
    SuperFrame(cfg, s, s', m, m');
    ResidencyFrame(s, s', m, m');
  }

  function SetNode(m: Model, ino: nat, node: Node): Model {
    m.(nodes := m.nodes[ino := node])
  }

  /** A step inside one node: the node itself, and what the cache now holds, is all there is to check. */
  lemma NodeStep(cfg: Config, s: State, s': State, m: Model, own: Owners, ino: nat, node: Node)
    requires Coherent(cfg, s, m, own)
    requires ino in m.nodes && node.FileNode? == m.nodes[ino].FileNode? && node.uuid == m.nodes[ino].uuid
    requires OnlyTouches(s, s', own, own, ino) && SameInodes(s, s') && s'.sup == s.sup && s'.pool == s.pool
    requires Accounted(s', own) && CacheOk(s', own) && NodeOk(cfg, s', own, ino, node)
    ensures Coherent(cfg, s', SetNode(m, ino, node), own)
  {
    hide NodeOk, OwnersOk, SuperOk, ResidencyOk, Elsewhere, SameInodes, Accounted, CacheOk, SameAt;
    SuperUntouched(s, s', m, own, ino);
    GlobalFrame(cfg, s, s', m, SetNode(m, ino, node), own);
    OneNode(cfg, s, s', m, SetNode(m, ino, node), own, own, ino);
  }

  lemma SuperUntouched(s: State, s': State, m: Model, own: Owners, ino: nat)
    requires OwnersOk(s, m, own) && OnlyTouches(s, s', own, own, ino)
    ensures SameSuper(s, s')
  {
    hide NoDup;
    assert !Owns(own[s.sup.uuid], ino);
  }

  // ---------- eviction and flushing ----------

  function SetSlot(files: map<nat, FileV>, ino: nat, idx: nat, c: Chunk): map<nat, FileV>
    requires ino in files && idx < |files[ino].chunks|
  {
    files[ino := files[ino].(chunks := files[ino].chunks[idx := c])]
  }

  /** A chunk leaves the cache; if it was modified it is sealed, stored, and its slot gets the new tag. */
  ghost function Evicted(cfg: Config, s: State, k: UUID): State
    requires Ideal(cfg.aead) && k in s.at && s.at[k].ino in s.files && s.at[k].idx < |s.files[s.at[k].ino].chunks|
  {
    var e := s.at[k];
    if !e.modified then s.(at := s.at - {k})
    else s.(at := s.at - {k},
            disk := s.disk[Unparse(k) := SealedBlob(cfg, k, e.data)],
            files := SetSlot(s.files, e.ino, e.idx, SealedSlot(cfg, k, e.data)))
  }

  /** A cached chunk's owner, slot and data. */
  lemma Cached(cfg: Config, s: State, m: Model, own: Owners, k: UUID)
    requires Coherent(cfg, s, m, own) && k in s.at
    ensures k in own && own[k] == Slot(s.at[k].ino, s.at[k].idx)
    ensures var e := s.at[k];
      e.ino in s.files && e.ino in m.nodes && m.nodes[e.ino].FileNode?
      && e.idx < |s.files[e.ino].chunks| == |m.nodes[e.ino].pieces|
      && s.files[e.ino].chunks[e.idx].uuid == k != NULL
      && e.data == m.nodes[e.ino].pieces[e.idx] && |e.data| == cfg.chunkSize
  {
    var e := s.at[k];
    assert e.ino in m.nodes;
    assert NodeOk(cfg, s, own, e.ino, m.nodes[e.ino]);
    assert SlotOk(cfg, s, own, e.ino, e.idx, s.files[e.ino].chunks[e.idx], m.nodes[e.ino].pieces[e.idx]);
  }

  ghost predicate Evictable(cfg: Config, s: State, own: Owners, k: UUID) {
    && Ideal(cfg.aead) && k in s.at && s.at[k].ino in s.files
    && s.at[k].idx < |s.files[s.at[k].ino].chunks|
    && k in own && own[k] == Slot(s.at[k].ino, s.at[k].idx)
  }

  lemma EvictedTouches(cfg: Config, s: State, own: Owners, k: UUID)
    requires Evictable(cfg, s, own, k)
    ensures OnlyTouches(s, Evicted(cfg, s, k), own, own, s.at[k].ino)
    ensures forall u: UUID :: u != k ==> SameAt(s.disk, Evicted(cfg, s, k).disk, u)
  {
    var s' := Evicted(cfg, s, k);
    assert forall u: UUID :: u != k ==> SameAt(s.disk, s'.disk, u) by {
      if s.at[k].modified {
        PutFrame(s.disk, s'.disk, k, SealedBlob(cfg, k, s.at[k].data));
      }
    }
    hide SameAt, SealedBlob, SealedSlot, Ideal;
    assert Owns(own[k], s.at[k].ino);
  }

  lemma EvictedLoads(cfg: Config, s: State, k: UUID)
    requires Ideal(cfg.aead) && k in s.at && s.at[k].ino in s.files
    requires s.at[k].idx < |s.files[s.at[k].ino].chunks| && |s.at[k].data| == cfg.chunkSize
    ensures var s', e := Evicted(cfg, s, k), s.at[k];
      e.modified ==> LoadCache(cfg, s'.disk, s'.files[e.ino].chunks[e.idx]) == Some(e.data)
  {
    var e := s.at[k];
    if e.modified { ChunkLoads(cfg, s.disk, k, e.data); }
  }

  lemma EvictedNode(cfg: Config, s: State, own: Owners, k: UUID, node: Node)
    requires Evictable(cfg, s, own, k) && k != NULL && GoodConfig(cfg)
    requires NodeOk(cfg, s, own, s.at[k].ino, node) && node.FileNode?
    requires var e := s.at[k];
      s.files[e.ino].chunks[e.idx].uuid == k && e.data == node.pieces[e.idx] && |e.data| == cfg.chunkSize
    ensures NodeOk(cfg, Evicted(cfg, s, k), own, s.at[k].ino, node)
  {
    hide LoadCache, LoadFilenode, Ideal, OnlyTouches, LoadDirnode, LoadSuperinfo, SameAt;
    var s', e := Evicted(cfg, s, k), s.at[k];
    var ino := e.ino;
    EvictedTouches(cfg, s, own, k);
    var chunks, chunks' := s.files[ino].chunks, s'.files[ino].chunks;
    assert node.uuid != k;
    SameMetadata(cfg, s.disk, s'.disk, node.uuid);
    EvictedLoads(cfg, s, k);
    assert e.modified ==> chunks'[e.idx].uuid == k;
    hide SealedSlot, SealedBlob;
    forall i | 0 <= i < |chunks'|
      ensures SlotOk(cfg, s', own, ino, i, chunks'[i], node.pieces[i])
      ensures i != e.idx ==> chunks'[i] == chunks[i]
      ensures i != e.idx && chunks[i].uuid != NULL ==>
        LoadCache(cfg, s'.disk, chunks[i]) == LoadCache(cfg, s.disk, chunks[i])
    {
      assert SlotOk(cfg, s, own, ino, i, chunks[i], node.pieces[i]);
      if i != e.idx && chunks[i].uuid != NULL {
        assert chunks[i].uuid != k;
        SameChunk(cfg, s.disk, s'.disk, chunks[i]);
      }
    }
  }

  lemma EvictedCache(cfg: Config, s: State, own: Owners, k: UUID)
    requires Evictable(cfg, s, own, k) && CacheOk(s, own) && Accounted(s, own)
    ensures var s' := Evicted(cfg, s, k);
      CacheOk(s', own) && Accounted(s', own) && SameInodes(s, s') && s'.sup == s.sup && s'.pool == s.pool
  {
    hide SealedBlob, SealedSlot, Ideal, Unparse;
    assert Unparse(k) in Names(own);
  }

  /** Evicting or flushing any cached chunk changes no file: neither its bytes nor its size. */
  lemma EvictedOk(cfg: Config, s: State, m: Model, own: Owners, k: UUID)
    requires Coherent(cfg, s, m, own) && k in s.at
    ensures s.at[k].ino in s.files && s.at[k].idx < |s.files[s.at[k].ino].chunks|
    ensures Coherent(cfg, Evicted(cfg, s, k), m, own)
  {
    hide NodeOk, OwnersOk, SuperOk, ResidencyOk, Elsewhere, SameAt, Evicted, Accounted, CacheOk;
    Cached(cfg, s, m, own, k);
    var ino := s.at[k].ino;
    EvictedTouches(cfg, s, own, k);
    EvictedCache(cfg, s, own, k);
    EvictedNode(cfg, s, own, k, m.nodes[ino]);
    NodeStep(cfg, s, Evicted(cfg, s, k), m, own, ino, m.nodes[ino]);
    assert SetNode(m, ino, m.nodes[ino]) == m;
  }

  // ---------- reading a chunk ----------

  /** The live file `ino` as the file operations find it. */
  ghost predicate OpenFile(s: State, m: Model, ino: nat) {
    ino in s.files && ino in m.nodes && m.nodes[ino].FileNode?
  }

  /** A read may leave chunks in the cache. */
  function Touched(node: Node): Node
    requires node.FileNode?
  {
    if node.status == Quiet then node.(status := Clean) else node
  }

  /** What load_chunk finds: the cached chunk, or a clean one read from disk. */
  ghost function Loaded(cfg: Config, s: State, ino: nat, idx: nat): Option<Entry>
    requires ino in s.files && idx < |s.files[ino].chunks|
  {
    var c := s.files[ino].chunks[idx];
    if c.uuid in s.at then Some(s.at[c.uuid])
    else match LoadCache(cfg, s.disk, c)
         case None => None
         case Some(data) => Some(Entry(ino, idx, data, false))
  }

  function Pushed(s: State, k: UUID, e: Entry): State {
    s.(at := s.at[k := e])
  }

  lemma OpenTable(cfg: Config, s: State, m: Model, own: Owners, ino: nat)
    requires Coherent(cfg, s, m, own) && OpenFile(s, m, ino)
    ensures var f, node := s.files[ino], m.nodes[ino];
      f.uuid == node.uuid && f.ino == ino && f.size == node.size && |f.chunks| == |node.pieces|
      && TableOk(cfg, s, own, ino, f.chunks, node.pieces) && ino !in s.dirs
      && node.uuid in own && own[node.uuid] == Meta(ino)
      && forall i :: 0 <= i < |f.chunks| ==> SlotOk(cfg, s, own, ino, i, f.chunks[i], node.pieces[i])
  {
    assert NodeOk(cfg, s, own, ino, m.nodes[ino]);
  }

  lemma PushTouches(s: State, own: Owners, k: UUID, e: Entry)
    requires CacheOk(s, own) && k in own && own[k] == Slot(e.ino, e.idx) && e.ino in s.files
    ensures OnlyTouches(s, Pushed(s, k, e), own, own, e.ino)
    ensures CacheOk(Pushed(s, k, e), own)
  {
    assert Owns(own[k], e.ino);
  }

  /** Loading a chunk never fails, yields the file's bytes, and pushing it back changes no file. */
  lemma LoadedOk(cfg: Config, s: State, m: Model, own: Owners, ino: nat, idx: nat)
    requires Coherent(cfg, s, m, own) && OpenFile(s, m, ino)
    requires idx < |s.files[ino].chunks| && s.files[ino].chunks[idx].uuid != NULL
    ensures Loaded(cfg, s, ino, idx).Some? && idx < |m.nodes[ino].pieces|
    ensures var e := Loaded(cfg, s, ino, idx).value;
      e.ino == ino && e.idx == idx && e.data == m.nodes[ino].pieces[idx]
      && Coherent(cfg, Pushed(s, s.files[ino].chunks[idx].uuid, e), SetNode(m, ino, Touched(m.nodes[ino])), own)
  {
    hide OwnersOk, SuperOk, ResidencyOk, Elsewhere, LoadCache, LoadFilenode, NodeOk, CacheOk, Accounted, Saved, SameAt;
    var k, node := s.files[ino].chunks[idx].uuid, m.nodes[ino];
    OpenTable(cfg, s, m, own, ino);
    if k in s.at { CachedSlot(s, own, k); }
    var e := Loaded(cfg, s, ino, idx).value;
    PushTouches(s, own, k, e);
    PushedNode(cfg, s, own, ino, idx, node, e);
    AccountedSame(s, Pushed(s, k, e), own, own);
    NodeStep(cfg, s, Pushed(s, k, e), m, own, ino, Touched(node));
  }

  lemma CachedSlot(s: State, own: Owners, k: UUID)
    requires CacheOk(s, own) && k in s.at
    ensures k in own && own[k] == Slot(s.at[k].ino, s.at[k].idx)
  {
  }

  /** Using more identifiers, and no more of the disk, leaves everything accounted for. */
  lemma AccountedSame(s: State, s': State, own: Owners, own': Owners)
    requires Accounted(s, own) && s'.disk == s.disk && own.Keys <= own'.Keys
    ensures Accounted(s', own')
  {
    forall key | key in s'.disk ensures key in Names(own') {
      assert key in Names(own);
      var u :| u in own && Unparse(u) == key;
      assert u in own'.Keys;
    }
  }

  /** Expecting less of a file's status is always right. */
  lemma TouchedOk(cfg: Config, s: State, m: Model, own: Owners, ino: nat)
    requires Coherent(cfg, s, m, own) && OpenFile(s, m, ino)
    ensures Coherent(cfg, s, SetNode(m, ino, Touched(m.nodes[ino])), own)
  {
    hide OwnersOk, SuperOk, ResidencyOk, LoadCache, LoadFilenode, NodeOk, CacheOk, Accounted, Saved;
    assert NodeOk(cfg, s, own, ino, Touched(m.nodes[ino])) by { TouchedNode(cfg, s, own, ino, m.nodes[ino]); }
    NothingTouched(s, own, ino);
    hide OnlyTouches, SameInodes;
    NodeStep(cfg, s, s, m, own, ino, Touched(m.nodes[ino]));
  }

  lemma NothingTouched(s: State, own: Owners, ino: nat)
    ensures OnlyTouches(s, s, own, own, ino) && SameInodes(s, s)
  {
  }

  lemma TouchedNode(cfg: Config, s: State, own: Owners, ino: nat, node: Node)
    requires cfg.chunkSize > 0 && NodeOk(cfg, s, own, ino, node) && node.FileNode? && ino in s.files
    ensures NodeOk(cfg, s, own, ino, Touched(node))
  {
    hide LoadCache, LoadFilenode;
  }

  lemma PushedNode(cfg: Config, s: State, own: Owners, ino: nat, idx: nat, node: Node, e: Entry)
    requires cfg.chunkSize > 0 && NodeOk(cfg, s, own, ino, node) && node.FileNode? && ino in s.files
    requires idx < |s.files[ino].chunks| && s.files[ino].chunks[idx].uuid != NULL
    requires Loaded(cfg, s, ino, idx) == Some(e)
    ensures NodeOk(cfg, Pushed(s, s.files[ino].chunks[idx].uuid, e), own, ino, Touched(node))
  {
    hide LoadCache, LoadFilenode;
    var chunks, k := s.files[ino].chunks, s.files[ino].chunks[idx].uuid;
    var s' := Pushed(s, k, e);
    forall i | 0 <= i < |chunks|
      ensures SlotOk(cfg, s', own, ino, i, chunks[i], node.pieces[i])
      ensures i != idx ==> chunks[i].uuid != k
    {
      assert SlotOk(cfg, s, own, ino, i, chunks[i], node.pieces[i]);
      assert SlotOk(cfg, s, own, ino, idx, chunks[idx], node.pieces[idx]);
    }
  }

  // ---------- writing a chunk ----------

  /** The file with piece `idx` replaced, and not yet flushed. */
  function Written(node: Node, idx: nat, data: Bytes): Node
    requires node.FileNode? && idx < |node.pieces|
  {
    node.(pieces := node.pieces[idx := data], status := Dirty)
  }

  /** A modified chunk pushed under the identifier of its slot. */
  lemma OverwrittenOk(cfg: Config, s: State, m: Model, own: Owners, ino: nat, idx: nat, data: Bytes)
    requires Coherent(cfg, s, m, own) && OpenFile(s, m, ino)
    requires idx < |s.files[ino].chunks| && s.files[ino].chunks[idx].uuid != NULL && |data| == cfg.chunkSize
    ensures idx < |m.nodes[ino].pieces|
    ensures Coherent(cfg, Pushed(s, s.files[ino].chunks[idx].uuid, Entry(ino, idx, data, true)),
                     SetNode(m, ino, Written(m.nodes[ino], idx, data)), own)
  {
    hide OwnersOk, SuperOk, ResidencyOk, Elsewhere, LoadCache, LoadFilenode, NodeOk, CacheOk, Accounted, Saved, SameAt;
    var k, node, e := s.files[ino].chunks[idx].uuid, m.nodes[ino], Entry(ino, idx, data, true);
    OpenTable(cfg, s, m, own, ino);
    PushTouches(s, own, k, e);
    OverwrittenNode(cfg, s, own, ino, idx, node, data);
    AccountedSame(s, Pushed(s, k, e), own, own);
    NodeStep(cfg, s, Pushed(s, k, e), m, own, ino, Written(node, idx, data));
  }

  lemma OverwrittenNode(cfg: Config, s: State, own: Owners, ino: nat, idx: nat, node: Node, data: Bytes)
    requires cfg.chunkSize > 0 && NodeOk(cfg, s, own, ino, node) && node.FileNode? && ino in s.files
    requires idx < |s.files[ino].chunks| == |node.pieces| && s.files[ino].chunks[idx].uuid != NULL &&
      |data| == cfg.chunkSize
    ensures NodeOk(cfg, Pushed(s, s.files[ino].chunks[idx].uuid, Entry(ino, idx, data, true)), own, ino,
      Written(node, idx, data))
  {
    var chunks, k := s.files[ino].chunks, s.files[ino].chunks[idx].uuid;
    var s', node' := Pushed(s, k, Entry(ino, idx, data, true)), Written(node, idx, data);
    hide LoadCache, LoadFilenode;
    forall i | 0 <= i < |chunks|
      ensures SlotOk(cfg, s', own, ino, i, chunks[i], node'.pieces[i])
    {
      assert SlotOk(cfg, s, own, ino, i, chunks[i], node.pieces[i]);
      assert SlotOk(cfg, s, own, ino, idx, chunks[idx], node.pieces[idx]);
    }
  }

  /** The hole at `idx` gets the next random identifier, and a modified chunk is pushed under it. */
  function Allocated(s: State, ino: nat, idx: nat, data: Bytes): State
    requires ino in s.files && idx < |s.files[ino].chunks| && s.pool != []
  {
    var k := s.pool[0];
    Pushed(s.(files := SetSlot(s.files, ino, idx, s.files[ino].chunks[idx].(uuid := k)), pool := s.pool[1..]),
           k, Entry(ino, idx, data, true))
  }

  lemma AllocatedOk(cfg: Config, s: State, m: Model, own: Owners, ino: nat, idx: nat, data: Bytes)
    requires Coherent(cfg, s, m, own) && OpenFile(s, m, ino) && s.pool != []
    requires idx < |s.files[ino].chunks| && s.files[ino].chunks[idx].uuid == NULL && |data| == cfg.chunkSize
    ensures idx < |m.nodes[ino].pieces|
    ensures Coherent(cfg, Allocated(s, ino, idx, data), SetNode(m, ino, Written(m.nodes[ino], idx, data)),
                     own[s.pool[0] := Slot(ino, idx)])
  {
    hide OwnersOk, SuperOk, ResidencyOk, Elsewhere, LoadCache, LoadFilenode, NodeOk, CacheOk, Accounted, Saved, SameAt;
    var k, node := s.pool[0], m.nodes[ino];
    var s', own' := Allocated(s, ino, idx, data), own[k := Slot(ino, idx)];
    OpenTable(cfg, s, m, own, ino);
    PoolHead(s, m, own);
    AllocatedTouches(s, own, ino, idx, data);
    AllocatedNode(cfg, s, own, ino, idx, node, data);
    var m' := SetNode(m, ino, Written(node, idx, data));
    AllocatedGlobal(cfg, s, m, own, ino, idx, data);
    OneNode(cfg, s, s', m, m', own, own', ino);
  }

  lemma AllocatedTouches(s: State, own: Owners, ino: nat, idx: nat, data: Bytes)
    requires ino in s.files && idx < |s.files[ino].chunks| && s.pool != [] && s.pool[0] !in own && CacheOk(s, own)
    ensures var s', own' := Allocated(s, ino, idx, data), own[s.pool[0] := Slot(ino, idx)];
      OnlyTouches(s, s', own, own', ino) && CacheOk(s', own')
  {
    hide Allocated, SameAt;
    var s', own' := Allocated(s, ino, idx, data), own[s.pool[0] := Slot(ino, idx)];
    AllocatedParts(s, ino, idx, data);
    forall u | u in own ensures SameAt(s.disk, s'.disk, u) {
      SameDisk(s.disk, u);
    }
  }

  lemma SameDisk(d: Disk, u: UUID)
    ensures SameAt(d, d, u)
  {
  }

  lemma AllocatedParts(s: State, ino: nat, idx: nat, data: Bytes)
    requires ino in s.files && idx < |s.files[ino].chunks| && s.pool != []
    ensures var s' := Allocated(s, ino, idx, data);
      && s'.disk == s.disk && s'.dirs == s.dirs && s'.files.Keys == s.files.Keys
      && s'.at == s.at[s.pool[0] := Entry(ino, idx, data, true)]
      && forall i :: i != ino && i in s.files ==> s.files[i] == s'.files[i]
  {
  }

  lemma AllocatedGlobal(cfg: Config, s: State, m: Model, own: Owners, ino: nat, idx: nat, data: Bytes)
    requires GlobalOk(cfg, s, m, own) && OpenFile(s, m, ino) && s.pool != []
    requires idx < |s.files[ino].chunks| == |m.nodes[ino].pieces|
    ensures GlobalOk(cfg, Allocated(s, ino, idx, data), SetNode(m, ino, Written(m.nodes[ino], idx, data)),
                     own[s.pool[0] := Slot(ino, idx)])
  {
    var s', own', m' := Allocated(s, ino, idx, data), own[s.pool[0] := Slot(ino, idx)],
      SetNode(m, ino, Written(m.nodes[ino], idx, data));
    hide OwnersOk, SuperOk, ResidencyOk, OnlyTouches, Accounted, CacheOk, SameAt, Allocated, SameTree, SameInodes,
      Written;
    PoolHead(s, m, own);
    AllocatedShape(s, m, ino, idx, data);
    AllocatedTouches(s, own, ino, idx, data);
    AllocatedOwners(s, m, own, ino, idx, m', s');
    SuperFrame(cfg, s, s', m, m');
    ResidencyFrame(s, s', m, m');
    AccountedSame(s, s', own, own');
  }

  lemma AllocatedShape(s: State, m: Model, ino: nat, idx: nat, data: Bytes)
    requires OpenFile(s, m, ino) && s.pool != [] && idx < |s.files[ino].chunks| == |m.nodes[ino].pieces|
    ensures var s', m' := Allocated(s, ino, idx, data), SetNode(m, ino, Written(m.nodes[ino], idx, data));
      && SameTree(m, m') && SameInodes(s, s') && s'.sup == s.sup && s'.disk == s.disk && s'.pool == s.pool[1..]
      && SameSuper(s, s')
  {
  }

  lemma PoolHead(s: State, m: Model, own: Owners)
    requires OwnersOk(s, m, own)
    ensures NULL !in own
    ensures s.pool != [] ==> s.pool[0] !in own && s.pool[0] != NULL
  {
  }

  lemma AllocatedOwners(s: State, m: Model, own: Owners, ino: nat, idx: nat, m': Model, s': State)
    requires OwnersOk(s, m, own) && s.pool != [] && SameTree(m, m') && s'.sup == s.sup && s'.pool == s.pool[1..]
    requires ino in m.nodes && m.nodes[ino].FileNode?
    ensures OwnersOk(s', m', own[s.pool[0] := Slot(ino, idx)])
  {
  }

  lemma AllocatedNode(cfg: Config, s: State, own: Owners, ino: nat, idx: nat, node: Node, data: Bytes)
    requires cfg.chunkSize > 0 && NodeOk(cfg, s, own, ino, node) && node.FileNode? && ino in s.files && s.pool != []
    requires NULL !in own && s.pool[0] !in own && s.pool[0] != NULL && CacheOk(s, own)
    requires idx < |s.files[ino].chunks| == |node.pieces| && s.files[ino].chunks[idx].uuid == NULL &&
      |data| == cfg.chunkSize
    ensures NodeOk(cfg, Allocated(s, ino, idx, data), own[s.pool[0] := Slot(ino, idx)], ino, Written(node, idx, data))
  {
    var chunks, k := s.files[ino].chunks, s.pool[0];
    var s', own', node' := Allocated(s, ino, idx, data), own[k := Slot(ino, idx)], Written(node, idx, data);
    var chunks' := s'.files[ino].chunks;
    hide LoadCache, LoadFilenode;
    forall i | 0 <= i < |chunks'|
      ensures SlotOk(cfg, s', own', ino, i, chunks'[i], node'.pieces[i])
    {
      assert SlotOk(cfg, s, own, ino, i, chunks[i], node.pieces[i]);
    }
    assert TableOk(cfg, s', own', ino, chunks', node'.pieces);
  }

  // ---------- the size and the table ----------

  function Resized(s: State, ino: nat, n: nat, size: nat): State
    requires ino in s.files
  {
    var f := s.files[ino];
    var chunks' := if n <= |f.chunks| then f.chunks else f.chunks + seq(n - |f.chunks|, _ => HOLE);
    s.(files := s.files[ino := f.(chunks := chunks', size := size)])
  }

  /** Growing the table by holes, or setting the size. */
  lemma ResizedOk(cfg: Config, s: State, m: Model, own: Owners, ino: nat, n: nat, size: nat)
    requires Coherent(cfg, s, m, own) && OpenFile(s, m, ino)
    ensures var node := m.nodes[ino];
      Coherent(cfg, Resized(s, ino, n, size),
        SetNode(m, ino, node.(size := size, pieces := Grow(cfg.chunkSize, node.pieces, n), status := Dirty)), own)
  {
    hide OwnersOk, SuperOk, ResidencyOk, Elsewhere, LoadCache, LoadFilenode, NodeOk, CacheOk, Accounted, Saved, SameAt;
    var s', node := Resized(s, ino, n, size), m.nodes[ino];
    var node' := node.(size := size, pieces := Grow(cfg.chunkSize, node.pieces, n), status := Dirty);
    OpenTable(cfg, s, m, own, ino);
    ResizedTouches(s, own, ino, n, size);
    ResizedNode(cfg, s, own, ino, node, n, size);
    AccountedSame(s, s', own, own);
    NodeStep(cfg, s, s', m, own, ino, node');
  }

  lemma ResizedTouches(s: State, own: Owners, ino: nat, n: nat, size: nat)
    requires ino in s.files && CacheOk(s, own)
    ensures OnlyTouches(s, Resized(s, ino, n, size), own, own, ino) && CacheOk(Resized(s, ino, n, size), own)
  {
  }

  lemma ResizedNode(cfg: Config, s: State, own: Owners, ino: nat, node: Node, n: nat, size: nat)
    requires cfg.chunkSize > 0 && NodeOk(cfg, s, own, ino, node) && node.FileNode? && ino in s.files
    ensures NodeOk(cfg, Resized(s, ino, n, size), own, ino,
                   node.(size := size, pieces := Grow(cfg.chunkSize, node.pieces, n), status := Dirty))
  {
    var s', chunks := Resized(s, ino, n, size), s.files[ino].chunks;
    var chunks', pieces' := s'.files[ino].chunks, Grow(cfg.chunkSize, node.pieces, n);
    hide LoadCache, LoadFilenode;
    forall i | 0 <= i < |chunks'|
      ensures SlotOk(cfg, s', own, ino, i, chunks'[i], pieces'[i])
    {
      if i < |chunks| { assert SlotOk(cfg, s, own, ino, i, chunks[i], node.pieces[i]); }
    }
  }

  // ---------- saving the filenode ----------

  ghost function SavedFile(cfg: Config, s: State, ino: nat): State
    requires ino in s.files && Ideal(cfg.aead)
  {
    var f := s.files[ino];
    s.(disk := s.disk[Unparse(f.uuid) := SealMetadata(cfg, f.uuid, DumpFile(f.Rec()))])
  }

  /** No chunk of the file is cached. */
  ghost predicate Uncached(s: State, ino: nat)
    requires ino in s.files
  {
    forall i :: 0 <= i < |s.files[ino].chunks| ==> s.files[ino].chunks[i].uuid !in s.at
  }

  /** Saving a file none of whose chunks is cached makes the disk hold all of it. The load-time check of
      the table's length passes because the table has the length the size calls for. */
  lemma SavedFileOk(cfg: Config, s: State, m: Model, own: Owners, ino: nat)
    requires Coherent(cfg, s, m, own) && OpenFile(s, m, ino) && Uncached(s, ino)
    requires ino < WORD && FileShape(cfg.chunkSize, m.nodes[ino].size, m.nodes[ino].pieces)
    ensures Coherent(cfg, SavedFile(cfg, s, ino), SetNode(m, ino, m.nodes[ino].(status := Quiet)), own)
  {
    hide OwnersOk, SuperOk, ResidencyOk, Elsewhere, LoadCache, LoadFilenode, NodeOk, CacheOk, Accounted, Saved,
      SameAt, Ideal, SealMetadata;
    var s', node := SavedFile(cfg, s, ino), m.nodes[ino];
    OpenTable(cfg, s, m, own, ino);
    SavedFileTouches(cfg, s, own, ino);
    PoolHead(s, m, own);
    SavedFileNode(cfg, s, own, ino, node);
    NodeStep(cfg, s, s', m, own, ino, node.(status := Quiet));
  }

  lemma SavedFileTouches(cfg: Config, s: State, own: Owners, ino: nat)
    requires ino in s.files && CacheOk(s, own) && Accounted(s, own) && Ideal(cfg.aead)
    requires s.files[ino].uuid in own && own[s.files[ino].uuid] == Meta(ino)
    ensures var s' := SavedFile(cfg, s, ino);
      OnlyTouches(s, s', own, own, ino) && CacheOk(s', own) && Accounted(s', own)
      && forall u: UUID :: u != s.files[ino].uuid ==> SameAt(s.disk, s'.disk, u)
  {
    hide Ideal, SealMetadata, Unparse;
    var s', u := SavedFile(cfg, s, ino), s.files[ino].uuid;
    PutFrame(s.disk, s'.disk, u, SealMetadata(cfg, u, DumpFile(s.files[ino].Rec())));
    assert Unparse(u) in Names(own);
    hide SameAt;
  }

  lemma SavedFileNode(cfg: Config, s: State, own: Owners, ino: nat, node: Node)
    requires GoodConfig(cfg) && NodeOk(cfg, s, own, ino, node) && node.FileNode? && ino in s.files && Uncached(s, ino)
    requires CacheOk(s, own) && Accounted(s, own) && NULL !in own
    requires ino < WORD && FileShape(cfg.chunkSize, node.size, node.pieces)
    ensures NodeOk(cfg, SavedFile(cfg, s, ino), own, ino, node.(status := Quiet))
  {
    hide LoadCache, LoadFilenode, Ideal, SealMetadata, DumpFile, FileShape, OnlyTouches, SameAt;
    var s', f := SavedFile(cfg, s, ino), s.files[ino];
    SavedFileTouches(cfg, s, own, ino);
    SavedFileLoads(cfg, s, ino, node.size, node.pieces);
    forall i | 0 <= i < |f.chunks|
      ensures SlotOk(cfg, s', own, ino, i, f.chunks[i], node.pieces[i])
      ensures f.chunks[i].uuid != NULL ==> LoadCache(cfg, s'.disk, f.chunks[i]) == Some(node.pieces[i])
    {
      assert SlotOk(cfg, s, own, ino, i, f.chunks[i], node.pieces[i]);
      if f.chunks[i].uuid != NULL {
        assert f.chunks[i].uuid != f.uuid;
        SameChunk(cfg, s.disk, s'.disk, f.chunks[i]);
      }
    }
  }

  lemma SavedFileLoads(cfg: Config, s: State, ino: nat, size: nat, pieces: Pieces)
    requires GoodConfig(cfg) && ino in s.files && s.files[ino].ino < WORD
    requires FileShape(cfg.chunkSize, size, pieces) && s.files[ino].size == size && |s.files[ino].chunks| == |pieces|
    ensures LoadFilenode(cfg, SavedFile(cfg, s, ino).disk, s.files[ino].uuid) == Some(s.files[ino].Rec())
  {
    var f := s.files[ino];
    MetadataRoundTrip(cfg, s.disk, f.uuid, DumpFile(f.Rec()));
    FewEnough(size, cfg.chunkSize);
    FileRoundTrip(cfg.chunkSize, f.Rec());
    hide DumpFile, LoadFile, LoadMetadata, SealMetadata;
  }

  lemma FewEnough(size: nat, c: nat)
    requires c > 0 && size + c - 1 < WORD
    ensures CeilDiv(size, c) < WORD
  {
    CeilDivBounds(size, c);
    MulGrows(CeilDiv(size, c), c);
  }
}
