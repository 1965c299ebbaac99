/** What ties the enclave's memory, its chunk cache and the encrypted disk to one file system of pieces. */
module Coherence {
  import opened Bytes
  import opened Uuid
  import opened Layout
  import opened Storage
  import opened Lru
  import opened Nodes
  import opened Pieces

  // ---------- the file system behind the enclave ----------

  /** How much of a file lives only in the enclave. Quiet: flushed, and no chunk of it is cached.
      Clean: the disk alone holds all of it. Dirty: it may have to be flushed. */
  datatype Status = Quiet | Clean | Dirty

  datatype Node =
    | DirNode(uuid: UUID, parent: nat, name: Name, entries: seq<Dirent>)
    | FileNode(uuid: UUID, parent: nat, size: nat, pieces: Pieces, status: Status)

  /** Every directory and file reachable by name; `refs` counts what the kernel still holds; `users` is the
      dumped user table. */
  datatype Model = Model(nodes: map<nat, Node>, maxIno: nat, refs: map<nat, nat>, users: Bytes)

  /** What an identifier in use stands for. */
  datatype Owner = Super | Users | Meta(ino: nat) | Slot(ino: nat, idx: nat)

  type Owners = map<UUID, Owner>

  // ---------- the enclave's state, as a value ----------

  datatype Entry = Entry(ino: nat, idx: nat, data: Bytes, modified: bool)

  datatype SuperV = SuperV(uuid: UUID, root: UUID, users: UUID, hashes: Bytes, maxIno: nat) {
    function Rec(): SuperRec { SuperRec(root, users, hashes, maxIno) }
  }

  /** Resident inodes, cached chunks, the disk, the superinfo, and the random identifiers still to be drawn. */
  datatype State = State(files: map<nat, FileV>, dirs: map<nat, DirV>, at: map<UUID, Entry>, disk: Disk,
                         sup: SuperV, pool: seq<UUID>)

  // ---------- one slot, one node ----------

  /** Slot `idx` of file `ino` holds `data`: a hole holds zeros; otherwise the cache holds the data, or
      the disk does under the slot's nonce and tag; a clean cached copy is on the disk too. */
  ghost predicate SlotOk(cfg: Config, s: State, own: Owners, ino: nat, idx: nat, c: Chunk, data: Bytes) {
    && |data| == cfg.chunkSize
    && if c.uuid == NULL then data == Zeros(cfg.chunkSize)
       else
         && c.uuid in own && own[c.uuid] == Slot(ino, idx)
         && (c.uuid in s.at ==> s.at[c.uuid].data == data)
         && ((c.uuid in s.at && s.at[c.uuid].modified) || LoadCache(cfg, s.disk, c) == Some(data))
  }

  /** A file's metadata: the resident node if there is one, the stored one otherwise. */
  ghost function Rec(cfg: Config, s: State, ino: nat, uuid: UUID): Option<FileRec>
    requires cfg.chunkSize > 0
  {
    if ino in s.files then Some(s.files[ino].Rec()) else LoadFilenode(cfg, s.disk, uuid)
  }

  ghost predicate TableOk(cfg: Config, s: State, own: Owners, ino: nat, chunks: seq<Chunk>, pieces: Pieces) {
    && |chunks| == |pieces|
    && (forall i :: 0 <= i < |chunks| ==> SlotOk(cfg, s, own, ino, i, chunks[i], pieces[i]))
    && (forall u :: u in own && own[u].Slot? && own[u].ino == ino ==>
          own[u].idx < |chunks| && chunks[own[u].idx].uuid == u)
  }

  /** The disk alone holds the file: its stored table is the current one and every chunk loads. */
  ghost predicate Saved(cfg: Config, s: State, ino: nat, uuid: UUID, chunks: seq<Chunk>, pieces: Pieces)
    requires cfg.chunkSize > 0 && |chunks| == |pieces|
  {
    && LoadFilenode(cfg, s.disk, uuid) == Rec(cfg, s, ino, uuid)
    && (forall i :: 0 <= i < |chunks| && chunks[i].uuid != NULL ==>
      LoadCache(cfg, s.disk, chunks[i]) == Some(pieces[i]))
    && (forall i :: 0 <= i < |chunks| && chunks[i].uuid in s.at ==> !s.at[chunks[i].uuid].modified)
  }

  ghost predicate FileOk(cfg: Config, s: State, own: Owners, ino: nat, node: Node)
    requires cfg.chunkSize > 0 && node.FileNode?
  {
    && ino !in s.dirs
    && (ino in s.files ==> s.files[ino].uuid == node.uuid)
    && (ino !in s.files ==> node.status == Quiet)
    && var r := Rec(cfg, s, ino, node.uuid);
    && r.Some? && r.value.ino == ino && r.value.size == node.size
    && TableOk(cfg, s, own, ino, r.value.chunks, node.pieces)
    && (node.status != Dirty ==> Saved(cfg, s, ino, node.uuid, r.value.chunks, node.pieces))
    && (node.status == Quiet ==> forall i :: 0 <= i < |r.value.chunks| ==> r.value.chunks[i].uuid !in s.at)
  }

  /** A resident directory equals its stored copy. */
  ghost predicate DirOk(cfg: Config, s: State, ino: nat, node: Node)
    requires node.DirNode?
  {
    && LoadDirnode(cfg, s.disk, node.uuid) == Some(DirRec(ino, node.name, node.entries))
    && ino !in s.files
    && (ino in s.dirs ==> s.dirs[ino].uuid == node.uuid && s.dirs[ino].Rec() == DirRec(ino, node.name, node.entries))
  }

  ghost predicate NodeOk(cfg: Config, s: State, own: Owners, ino: nat, node: Node)
    requires cfg.chunkSize > 0
  {
    && node.uuid in own && own[node.uuid] == Meta(ino)
    && (if node.FileNode? then FileOk(cfg, s, own, ino, node) else DirOk(cfg, s, ino, node))
  }

  // ---------- the whole state ----------

  /** Every identifier in use stands for exactly one thing, and the ones still to be drawn for none. */
  ghost predicate OwnersOk(s: State, m: Model, own: Owners) {
    && NULL !in own
    && s.sup.uuid in own && own[s.sup.uuid] == Super
    && s.sup.users in own && own[s.sup.users] == Users
    && (forall u :: u in own ==>
          match own[u]
          case Super => u == s.sup.uuid
          case Users => u == s.sup.users
          case Meta(ino) => ino in m.nodes && m.nodes[ino].uuid == u
          case Slot(ino, _) => ino in m.nodes && m.nodes[ino].FileNode?)
    && NoDup(s.pool)
    && (forall i :: 0 <= i < |s.pool| ==> s.pool[i] != NULL && s.pool[i] !in own)
  }

  ghost function Names(own: Owners): set<string> {
    set u | u in own :: Unparse(u)
  }

  /** Nothing lies on the disk but what an identifier in use names. */
  ghost predicate Accounted(s: State, own: Owners) {
    s.disk.Keys <= Names(own)
  }

  /** A cached chunk is filed under the identifier of the slot it stands for, in a resident file. */
  ghost predicate CacheOk(s: State, own: Owners) {
    forall k :: k in s.at ==> k in own && own[k] == Slot(s.at[k].ino, s.at[k].idx) && s.at[k].ino in s.files
  }

  ghost predicate SuperOk(cfg: Config, s: State, m: Model) {
    && LoadSuperinfo(cfg, s.disk, s.sup.uuid) == Some(s.sup.Rec()) && |s.sup.hashes| == 64
    && LoadMetadata(cfg, s.disk, s.sup.users) == Some(m.users)
    && s.sup.maxIno == m.maxIno
    && 1 in m.nodes && m.nodes[1].DirNode? && m.nodes[1].uuid == s.sup.root && 1 in s.dirs
  }

  /** An inode is resident exactly while the kernel holds references to it; the root always is. */
  ghost predicate ResidencyOk(s: State, m: Model) {
    && s.files.Keys !! s.dirs.Keys
    && (forall ino :: ino in s.files || ino in s.dirs <==> ino == 1 || ino in m.refs)
    && 1 !in m.refs && 1 !in s.files
    && (forall ino :: ino in m.refs ==> m.refs[ino] > 0 && ino < m.maxIno)
    && (forall ino :: ino in m.refs && ino in s.files ==> s.files[ino].refcount == m.refs[ino])
    && (forall ino :: ino in m.refs && ino in s.dirs ==> s.dirs[ino].refcount == m.refs[ino])
  }

  ghost predicate GlobalOk(cfg: Config, s: State, m: Model, own: Owners) {
    OwnersOk(s, m, own) && Accounted(s, own) && CacheOk(s, own) && SuperOk(cfg, s, m) && ResidencyOk(s, m)
  }

  /** The enclave, with its cache and disk, stands for the file system `m`. */
  ghost predicate Coherent(cfg: Config, s: State, m: Model, own: Owners) {
    && GoodConfig(cfg)
    && GlobalOk(cfg, s, m, own)
    && forall ino :: ino in m.nodes ==> NodeOk(cfg, s, own, ino, m.nodes[ino])
  }

  // ---------- the frame of one node ----------

  ghost predicate Owns(o: Owner, ino: nat) {
    (o.Meta? || o.Slot?) && o.ino == ino
  }

  /** Nothing that belongs to inode `ino` has changed. */
  ghost predicate Untouched(s: State, s': State, own: Owners, own': Owners, ino: nat) {
    && (ino in s.files <==> ino in s'.files) && (ino in s.files ==> s.files[ino] == s'.files[ino])
    && (ino in s.dirs <==> ino in s'.dirs) && (ino in s.dirs ==> s.dirs[ino] == s'.dirs[ino])
    && (forall u :: u in own && Owns(own[u], ino) ==>
          && u in own' && own'[u] == own[u] && SameAt(s.disk, s'.disk, u)
          && (u in s.at <==> u in s'.at) && (u in s.at ==> s.at[u] == s'.at[u]))
    && (forall u :: u in own' && Owns(own'[u], ino) ==> u in own && own[u] == own'[u])
  }

  /** Superinfo and user table have not changed. */
  ghost predicate SameSuper(s: State, s': State) {
    SameAt(s.disk, s'.disk, s.sup.uuid) && SameAt(s.disk, s'.disk, s.sup.users)
  }

  lemma SameMetadata(cfg: Config, d: Disk, d': Disk, u: UUID)
    requires SameAt(d, d', u)
    ensures LoadMetadata(cfg, d, u) == LoadMetadata(cfg, d', u)
    ensures cfg.chunkSize > 0 ==> LoadFilenode(cfg, d, u) == LoadFilenode(cfg, d', u)
    ensures LoadDirnode(cfg, d, u) == LoadDirnode(cfg, d', u)
    ensures LoadSuperinfo(cfg, d, u) == LoadSuperinfo(cfg, d', u)
  {
  }

  lemma SameChunk(cfg: Config, d: Disk, d': Disk, c: Chunk)
    requires SameAt(d, d', c.uuid)
    ensures LoadCache(cfg, d, c) == LoadCache(cfg, d', c)
  {
  }

  /** An operation that leaves alone all that an inode owns leaves its content and its saved image alone. */
  lemma Frame(cfg: Config, s: State, s': State, own: Owners, own': Owners, ino: nat, node: Node)
    requires GoodConfig(cfg) && CacheOk(s', own') && CacheOk(s, own) && NULL !in own && NULL !in own'
    requires NodeOk(cfg, s, own, ino, node) && Untouched(s, s', own, own', ino)
    ensures NodeOk(cfg, s', own', ino, node)
  {
    assert SameAt(s.disk, s'.disk, node.uuid);
    SameMetadata(cfg, s.disk, s'.disk, node.uuid);
    if node.FileNode? {
      var chunks := Rec(cfg, s, ino, node.uuid).value.chunks;
      assert Rec(cfg, s', ino, node.uuid) == Rec(cfg, s, ino, node.uuid);
      FrameTable(cfg, s, s', own, own', ino, chunks, node.pieces);
    }
  }

  lemma FrameTable(cfg: Config, s: State, s': State, own: Owners, own': Owners, ino: nat, chunks: seq<Chunk>,
    pieces: Pieces)
    requires CacheOk(s', own') && CacheOk(s, own) && NULL !in own && NULL !in own'
    requires TableOk(cfg, s, own, ino, chunks, pieces) && Untouched(s, s', own, own', ino)
    ensures TableOk(cfg, s', own', ino, chunks, pieces)
    ensures forall i :: 0 <= i < |chunks| ==>
      LoadCache(cfg, s'.disk, chunks[i]) == LoadCache(cfg, s.disk, chunks[i]) || chunks[i].uuid == NULL
    ensures forall i :: 0 <= i < |chunks| ==> (chunks[i].uuid in s.at <==> chunks[i].uuid in s'.at)
    ensures forall i :: 0 <= i < |chunks| && chunks[i].uuid in s.at ==> s.at[chunks[i].uuid] == s'.at[chunks[i].uuid]
  {
    forall i | 0 <= i < |chunks|
      ensures SlotOk(cfg, s', own', ino, i, chunks[i], pieces[i])
      ensures LoadCache(cfg, s'.disk, chunks[i]) == LoadCache(cfg, s.disk, chunks[i]) || chunks[i].uuid == NULL
      ensures chunks[i].uuid in s.at <==> chunks[i].uuid in s'.at
      ensures chunks[i].uuid in s.at ==> s.at[chunks[i].uuid] == s'.at[chunks[i].uuid]
    {
      assert SlotOk(cfg, s, own, ino, i, chunks[i], pieces[i]);
      if chunks[i].uuid != NULL {
        assert Owns(own[chunks[i].uuid], ino);
        SameChunk(cfg, s.disk, s'.disk, chunks[i]);
      }
    }
    assert forall u :: u in own' && own'[u].Slot? && own'[u].ino == ino ==> Owns(own'[u], ino);
  }
}
