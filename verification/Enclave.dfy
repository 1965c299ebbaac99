/** The enclave: its global state, and the operations on chunks and files (enclave/storage.cpp,
    enclave/ecall_fs.cpp). Every operation keeps the whole state coherent and does to the flat file
    system exactly what `Flat` says. */
module Enclaves {
  import opened Bytes
  import opened Uuid
  import opened Layout
  import opened Storage
  import opened Lru
  import opened Nodes
  import opened ChunkStores
  import opened Pieces
  import opened Slices
  import opened Coherence
  import opened FileSteps
  import opened TreeSteps
  import opened Namespace
  import opened Flat
  import opened FlatSteps
  import opened Accesses
  import Runs

  function InoOf(i: Inode): nat {
    match i
    case File(fn) => fn.ino
    case Dir(dn) => dn.ino
  }

  function EntryOf(c: ChunkCache): Entry {
    Entry(c.filenode.ino, c.idx, c.data, c.modified)
  }

  ghost function CacheOf(es: map<UUID, ChunkCache>): map<UUID, Entry> {
    map k | k in es :: EntryOf(es[k])
  }

  class Enclave {
    const cfg: Config
    const store: ChunkStore
    var inodeMap: map<nat, Inode>
    var sup: SuperV
    /** The files behind the OCALLs. */
    var disk: Disk
    /** What sgx_read_rand is still to return. */
    var pool: seq<UUID>

    /** The file system of pieces that the state stands for, and who owns which identifier. */
    ghost var m: Model
    ghost var own: Owners
    /** The chunk accesses and flushes since the enclave was started. */
    ghost var trace: seq<Access>

    /** ecall_create_volume: superinfo, user table and an empty root directory are saved under fresh
        identifiers; then the volume is mounted. */
    constructor (cfg: Config, users: Bytes, hashes: Bytes, pool: seq<UUID>)
      requires GoodConfig(cfg) && |hashes| == 64 && Random(pool) && |pool| >= 3
      ensures Valid() && FS() == EMPTY && this.cfg == cfg && this.pool == pool[3..]
      ensures fresh(store) && fresh(FileObjs()) && fresh(DirObjs())
      ensures IdState() == Ids(NewOwners(pool[0], pool[1], pool[2]), pool[3..], [])
      ensures m.users == users && sup.hashes == hashes
    {
      hide Unparse, DumpDir, DumpSuper, SealMetadata, Coherent, FlatOf, TreeOk, ShapesOk, NoDup, Bijection, Ideal;
      var spUuid, utUuid, rtUuid := pool[0], pool[1], pool[2];
      var info := SuperRec(rtUuid, utUuid, hashes, 2);
      this.cfg := cfg;
      store := new ChunkStore();
      inodeMap := map[];
      this.pool := pool[3..];
      sup := SuperV(spUuid, NULL, NULL, hashes, 0);
      disk := map[Unparse(utUuid) := SealMetadata(cfg, utUuid, users)]
                 [Unparse(rtUuid) := SealMetadata(cfg, rtUuid, DumpDir(DirRec(1, [], [])))]
                 [Unparse(spUuid) := SealMetadata(cfg, spUuid, DumpSuper(info))];
      m := NewModel(rtUuid, users);
      own := NewOwners(spUuid, utUuid, rtUuid);
      trace := [];
      new;
      assert pool == [spUuid, utUuid, rtUuid] + pool[3..];
      FirstMount(spUuid, utUuid, rtUuid, users, hashes);
    }

    /** The new volume is mounted. */
    method FirstMount(ghost sp: UUID, ghost ut: UUID, ghost rt: UUID, ghost users: Bytes, ghost hashes: Bytes)
      requires GoodConfig(cfg) && |hashes| == 64 && Random([sp, ut, rt] + pool)
      requires HeapOk() && inodeMap == map[] && Abs().at == map[] && Traced()
      requires disk == NewDisk(cfg, sp, ut, rt, users, hashes) && sup.uuid == sp
      requires m == NewModel(rt, users) && own == NewOwners(sp, ut, rt)
      modifies this`inodeMap, this`sup
      ensures Valid() && FS() == EMPTY
      ensures fresh(FileObjs() - old(FileObjs())) && fresh(DirObjs() - old(DirObjs()))
      ensures sup.hashes == hashes
    {
      hide Unparse, DumpDir, DumpSuper, Coherent, NoDup, FlatOf, TreeOk, HeapOk, Abs, LoadSuperinfo, LoadDirnode,
        NewDisk, NewModel, NewOwners;
      Fields();
      var all := [sp, ut, rt] + pool;
      assert all[0] == sp && all[1] == ut && all[2] == rt;
      assert sp != ut && sp != rt && ut != rt by { AllDifferent(all); }
      CreatedLoads(cfg, sp, ut, rt, users, hashes);
      CreatedOk(cfg, sp, ut, rt, users, hashes, pool);
      CreatedTree(cfg.chunkSize, rt, users);
      var err := LoadRoot();
    }

    lemma AllDifferent(all: seq<UUID>)
      requires Random(all) && |all| >= 3
      ensures all[0] != all[1] && all[0] != all[2] && all[1] != all[2]
    {
    }

    /** The resident inode objects. */
    ghost function FileObjs(): set<Filenode>
      reads this`inodeMap
    {
      set i | i in inodeMap && inodeMap[i].File? :: inodeMap[i].fn
    }

    ghost function DirObjs(): set<Dirnode>
      reads this`inodeMap
    {
      set i | i in inodeMap && inodeMap[i].Dir? :: inodeMap[i].dn
    }

    ghost function Files(): map<nat, FileV>
      reads this`inodeMap, FileObjs()`size, FileObjs()`chunks, FileObjs()`refcount
    {
      map i | i in inodeMap && inodeMap[i].File? :: inodeMap[i].fn.Val()
    }

    ghost function Dirs(): map<nat, DirV>
      reads this`inodeMap, DirObjs()`entries, DirObjs()`refcount
    {
      map i | i in inodeMap && inodeMap[i].Dir? :: inodeMap[i].dn.Val()
    }

    ghost function Cache(): map<UUID, Entry>
      reads store`index
    {
      CacheOf(store.Entries())
    }

    ghost function Abs(): State
      reads this`inodeMap, this`disk, this`sup, this`pool, store`index
      reads FileObjs()`size, FileObjs()`chunks, FileObjs()`refcount, DirObjs()`entries, DirObjs()`refcount
    {
      State(Files(), Dirs(), Cache(), disk, sup, pool)
    }

    /** Inodes are filed under their own number, and cached chunks belong to resident files. */
    ghost predicate HeapOk()
      reads this`inodeMap, store`list, store`index
    {
      && store.Valid()
      && (forall i :: i in inodeMap ==> InoOf(inodeMap[i]) == i)
      && (forall k :: k in store.Entries() ==> IsFile(store.Entries()[k].filenode))
    }

    ghost predicate IsFile(fn: Filenode)
      reads this`inodeMap
    {
      fn.ino in inodeMap && inodeMap[fn.ino] == File(fn)
    }

    /** The store's order is what the accesses made of it. */
    ghost predicate Traced()
      reads this`trace, store`list
    {
      store.Keys() == Order(cfg.maxCache, trace)
    }

    ghost predicate Coherently()
      reads this, store`list, store`index, FileObjs()`size, FileObjs()`chunks, FileObjs()`refcount, DirObjs()`entries,
        DirObjs()`refcount
    {
      GoodConfig(cfg) && HeapOk() && Traced() && Coherent(cfg, Abs(), m, own)
    }

    ghost predicate Valid()
      reads this, store`list, store`index, FileObjs()`size, FileObjs()`chunks, FileObjs()`refcount, DirObjs()`entries,
        DirObjs()`refcount
    {
      Coherently() && TreeOk(m) && ShapesOk(cfg.chunkSize, m)
    }

    /** Who owns which identifier, which are still to be drawn, and the accesses so far. */
    ghost function IdState(): Ids
      reads this`own, this`pool, this`trace
    {
      Ids(own, pool, trace)
    }

    /** The file system a user sees. */
    ghost function FS(): FlatFS
      reads this`m
      requires cfg.chunkSize > 0
    {
      FlatOf(cfg.chunkSize, m)
    }

    // ---------- the fields of one file ----------

    lemma FileValue(fn: Filenode)
      requires HeapOk() && IsFile(fn)
      ensures fn.ino in Abs().files && Abs().files[fn.ino] == fn.Val()
    {
    }

    method PutSlot(fn: Filenode, idx: nat, c: Chunk)
      requires HeapOk() && IsFile(fn) && idx < |fn.chunks|
      modifies fn`chunks
      ensures HeapOk() && fn.chunks == old(fn.chunks)[idx := c]
      ensures fn.ino in old(Abs()).files && idx < |old(Abs()).files[fn.ino].chunks|
      ensures Abs() == old(Abs()).(files := SetSlot(old(Abs()).files, fn.ino, idx, c))
    {
      ghost var before := Files();
      fn.chunks := fn.chunks[idx := c];
      assert Files() == SetSlot(before, fn.ino, idx, c);
    }

    method PutTable(fn: Filenode, chunks: seq<Chunk>, size: nat)
      requires HeapOk() && IsFile(fn)
      modifies fn`chunks, fn`size
      ensures HeapOk() && fn.chunks == chunks && fn.size == size
      ensures fn.ino in old(Abs()).files
      ensures Abs() == old(Abs()).(files :=
        old(Abs()).files[fn.ino := old(Abs()).files[fn.ino].(chunks := chunks, size := size)])
    {
      ghost var before := Files();
      fn.chunks, fn.size := chunks, size;
      assert Files() == before[fn.ino := before[fn.ino].(chunks := chunks, size := size)];
    }

    // ---------- save_cache, load_chunk, save_chunk, flush_chunk ----------

    /** Seals a chunk and stores it; the slot gets a zero nonce and the new tag. */
    method SaveCache(chunk: Chunk, data: Bytes) returns (ok: bool, out: Chunk)
      requires Ideal(cfg.aead)
      modifies this`disk
      ensures ok <==> |data| <= cfg.chunkSize
      ensures !ok ==> disk == old(disk)
      ensures ok ==> out == SealedSlot(cfg, chunk.uuid, data)
      ensures ok ==> disk == old(disk)[Unparse(chunk.uuid) :=
        SealedBlob(cfg, chunk.uuid, data) + Zeros(cfg.chunkSize - |data|)]
    {
      out := chunk.(iv := ZERO_IV);
      if |data| > cfg.chunkSize {
        return false, out;
      }
      var sealed := cfg.aead.seal(out.iv, out.uuid, data);
      out := out.(tag := sealed.tag);
      disk := disk[Unparse(out.uuid) := sealed.ct + Zeros(cfg.chunkSize - |sealed.ct|)];
      ok := true;
    }

    /** get_erase_by_key, seen from the whole state. */
    method Take(uuid: UUID, cache: ChunkCache) returns (found: bool, out: ChunkCache)
      requires HeapOk()
      modifies store
      ensures HeapOk() && Abs() == old(Abs()).(at := old(Abs()).at - {uuid})
      ensures found <==> uuid in old(Abs()).at
      ensures found ==> EntryOf(out) == old(Abs()).at[uuid] && IsFile(out.filenode)
      ensures !found ==> out == cache
      ensures store.Keys() == Without(old(store.Keys()), uuid)
    {
      hide Without, Bijection, KeysOf, NoDup;
      ghost var before := Cache();
      found, out := store.GetEraseByKey(uuid, cache);
      assert Cache() == before - {uuid};
      assert Files() == old(Files()) && Dirs() == old(Dirs());
    }

    /** Takes the chunk of `cache`'s slot out of the store, or reads it from disk. */
    method LoadChunk(cache: ChunkCache) returns (ok: bool, out: ChunkCache)
      requires HeapOk() && IsFile(cache.filenode) && cache.idx < |cache.filenode.chunks| && !cache.modified
      modifies store
      ensures HeapOk()
      ensures cache.filenode.ino in old(Abs()).files && cache.idx < |old(Abs()).files[cache.filenode.ino].chunks|
      ensures Abs() == old(Abs()).(at := old(Abs()).at - {cache.filenode.chunks[cache.idx].uuid})
      ensures ok <==> Loaded(cfg, old(Abs()), cache.filenode.ino, cache.idx).Some?
      ensures ok ==> IsFile(out.filenode)
      ensures ok ==> EntryOf(out) == Loaded(cfg, old(Abs()), cache.filenode.ino, cache.idx).value
      ensures store.Keys() == Without(old(store.Keys()), cache.filenode.chunks[cache.idx].uuid)
    {
      hide Without, HeapOk, LoadCache;
      FileValue(cache.filenode);
      var chunk := cache.filenode.chunks[cache.idx];
      var found;
      found, out := Take(chunk.uuid, cache);
      if found {
        return true, out;
      }
      var r := LoadCache(cfg, disk, chunk);
      if r.None? {
        return false, out;
      }
      ok, out := true, cache.(data := r.value);
    }

    /** get_pop_front, seen from the whole state. */
    method PopFront() returns (k: UUID, cache: ChunkCache)
      requires HeapOk() && store.list != []
      modifies store
      ensures HeapOk() && Abs() == old(Abs()).(at := old(Abs()).at - {k})
      ensures k in old(Abs()).at && EntryOf(cache) == old(Abs()).at[k] && IsFile(cache.filenode)
      ensures old(store.Keys()) == [k] + store.Keys()
    {
      hide Without, Bijection, KeysOf, NoDup;
      ghost var before := Cache();
      k, cache := store.GetPopFront();
      assert Cache() == before - {k};
      assert Files() == old(Files()) && Dirs() == old(Dirs());
    }

    /** push_get_back, seen from the whole state. */
    method Push(uuid: UUID, cache: ChunkCache)
      requires HeapOk() && IsFile(cache.filenode)
      modifies store
      ensures HeapOk() && Abs() == Pushed(old(Abs()), uuid, EntryOf(cache))
      ensures store.Keys() == Without(old(store.Keys()), uuid) + [uuid]
    {
      hide Without, Bijection, KeysOf, NoDup;
      ghost var before := Cache();
      store.PushGetBack(uuid, cache);
      assert Cache() == before[uuid := EntryOf(cache)];
      assert Files() == old(Files()) && Dirs() == old(Dirs());
    }

    /** save_cache on a whole chunk, seen from the whole state. */
    method StoreChunk(chunk: Chunk, data: Bytes) returns (ok: bool, out: Chunk)
      requires HeapOk() && Ideal(cfg.aead) && |data| == cfg.chunkSize
      modifies this`disk
      ensures ok && HeapOk() && out == SealedSlot(cfg, chunk.uuid, data)
      ensures Abs() == old(Abs()).(disk := old(Abs()).disk[Unparse(chunk.uuid) := SealedBlob(cfg, chunk.uuid, data)])
    {
      hide Unparse, Ideal;
      ok, out := SaveCache(chunk, data);
      assert SealedBlob(cfg, chunk.uuid, data) + Zeros(0) == SealedBlob(cfg, chunk.uuid, data);
      assert Files() == old(Files()) && Dirs() == old(Dirs());
    }

    /** A chunk that has left the store is written back if it was modified. */
    method WriteBack(cache: ChunkCache, ghost s: State, ghost k: UUID) returns (ok: bool)
      requires HeapOk() && IsFile(cache.filenode) && Ideal(cfg.aead)
      requires k in s.at && EntryOf(cache) == s.at[k] && Abs() == s.(at := s.at - {k})
      requires cache.filenode.ino in s.files && cache.idx < |s.files[cache.filenode.ino].chunks|
      requires s.files[cache.filenode.ino].chunks[cache.idx].uuid == k && |cache.data| == cfg.chunkSize
      modifies this`disk, cache.filenode`chunks
      ensures ok && HeapOk() && Abs() == Evicted(cfg, s, k)
    {
      FileValue(cache.filenode);
      hide Abs, HeapOk, Ideal, Unparse, SealedBlob, SealedSlot;
      if cache.modified {
        var fn := cache.filenode;
        var chunk := Chunk(fn.chunks[cache.idx].uuid, ZERO_IV, Zeros(16));
        ok, chunk := StoreChunk(chunk, cache.data);
        if !ok {
          return false;
        }
        PutSlot(fn, cache.idx, chunk);
      }
      ok := true;
    }

    /** Pushes a chunk at the back, then evicts from the front until the store is within its bound. */
    method SaveChunk(cache: ChunkCache) returns (ok: bool)
      requires GoodConfig(cfg) && HeapOk() && IsFile(cache.filenode) && cache.idx < |cache.filenode.chunks|
      requires Coherent(cfg, Pushed(Abs(), cache.filenode.chunks[cache.idx].uuid, EntryOf(cache)), m, own)
      requires var u := cache.filenode.chunks[cache.idx].uuid;
        Use(cfg.maxCache, store.Keys(), u) == Use(cfg.maxCache, Order(cfg.maxCache, trace), u)
      modifies this`disk, this`trace, store, FileObjs()`chunks
      ensures ok && Coherently()
      ensures trace == old(trace) + [Used(old(cache.filenode.chunks[cache.idx].uuid))]
    {
      hide Coherent, Without, HeapOk, Abs, Evicted, Bijection, KeysOf, NoDup, Order;
      var uuid := cache.filenode.chunks[cache.idx].uuid;
      Push(uuid, cache);
      ghost var all := store.Keys();
      while |store.list| > cfg.maxCache
        invariant HeapOk() && Coherent(cfg, Abs(), m, own) && trace == old(trace)
        invariant |store.list| <= |all| && store.Keys() == all[|all| - |store.list|..]
        invariant if |all| > cfg.maxCache then |store.list| >= cfg.maxCache else |store.list| == |all|
        decreases |store.list|
      {
        ghost var s, keys := Abs(), store.Keys();
        var k, oldCache := PopFront();
        assert store.Keys() == keys[1..];
        FrontCached(s, k);
        var saved := WriteBack(oldCache, s, k);
        if !saved {
          return false;
        }
        EvictedOk(cfg, s, m, own, k);
      }
      OrderNext(cfg.maxCache, trace, Used(uuid));
      trace := trace + [Used(uuid)];
      ok := true;
    }

    lemma FrontCached(s: State, k: UUID)
      requires Coherent(cfg, s, m, own) && k in s.at
      ensures var e := s.at[k];
        && e.ino in s.files && e.idx < |s.files[e.ino].chunks| && s.files[e.ino].chunks[e.idx].uuid == k
        && |e.data| == cfg.chunkSize && Ideal(cfg.aead)
    {
      hide GlobalOk, NodeOk;
      Cached(cfg, s, m, own, k);
    }

    /** findbykey, seen from the whole state. */
    method Find(uuid: UUID) returns (it: ListNode?)
      requires HeapOk()
      ensures HeapOk() && Abs() == old(Abs())
      ensures it == null <==> uuid !in Abs().at
      ensures it != null ==> it in store.list && it.key == uuid
      ensures it == null ==> Without(store.Keys(), uuid) == store.Keys()
    {
      hide Without, Bijection, KeysOf, NoDup;
      it := store.FindByKey(uuid);
      assert Files() == old(Files()) && Dirs() == old(Dirs());
      if it == null {
        KeysDistinct(store.list, store.index);
        WithoutAbsent(store.Keys(), uuid);
      }
    }

    /** get_erase, seen from the whole state. */
    method Erase(it: ListNode) returns (cache: ChunkCache)
      requires HeapOk() && it in store.list
      modifies store
      ensures HeapOk() && Abs() == old(Abs()).(at := old(Abs()).at - {it.key})
      ensures it.key in old(Abs()).at && EntryOf(cache) == old(Abs()).at[it.key] && IsFile(cache.filenode)
      ensures store.Keys() == Without(old(store.Keys()), it.key)
    {
      hide Without, Bijection, KeysOf, NoDup;
      ghost var before := Cache();
      InStore(it);
      cache := store.GetErase(it);
      assert Cache() == before - {it.key};
      assert Files() == old(Files()) && Dirs() == old(Dirs());
    }

    lemma InStore(it: ListNode)
      requires store.Valid() && it in store.list
      ensures it.key in store.Entries() && store.Entries()[it.key] == it.cache
    {
    }

    lemma SlotCached(s: State, ino: nat, idx: nat)
      requires Coherent(cfg, s, m, own) && OpenFile(s, m, ino) && idx < |s.files[ino].chunks|
      requires s.files[ino].chunks[idx].uuid in s.at
      ensures var e := s.at[s.files[ino].chunks[idx].uuid];
        e.ino == ino && e.idx == idx && |e.data| == cfg.chunkSize && Ideal(cfg.aead)
    {
      var k := s.files[ino].chunks[idx].uuid;
      Cached(cfg, s, m, own, k);
      OpenTable(cfg, s, m, own, ino);
      assert SlotOk(cfg, s, own, ino, idx, s.files[ino].chunks[idx], m.nodes[ino].pieces[idx]);
      hide Coherent;
    }

    /** Takes a chunk of an open file out of the store, writing it back if it was modified. */
    method FlushChunk(fn: Filenode, idx: nat) returns (ok: bool)
      requires Coherently() && IsFile(fn) && idx < |fn.chunks| && OpenFile(Abs(), m, fn.ino)
      modifies this`disk, this`trace, store, fn`chunks
      ensures ok && Coherently() && IsFile(fn)
      ensures |fn.chunks| == |old(fn.chunks)| && forall i :: 0 <= i < |fn.chunks| ==>
        fn.chunks[i].uuid == old(fn.chunks)[i].uuid
      ensures Abs().at == old(Abs()).at - {fn.chunks[idx].uuid} && OpenFile(Abs(), m, fn.ino)
      ensures trace == old(trace) + [Flushed(old(fn.chunks[idx].uuid))]
    {
      hide Coherent, Without, HeapOk, Abs, Evicted, Bijection, KeysOf, NoDup, Order;
      ghost var s := Abs();
      var uuid := fn.chunks[idx].uuid;
      FileValue(fn);
      OrderNext(cfg.maxCache, trace, Flushed(uuid));
      trace := trace + [Flushed(uuid)];
      var it := Find(uuid);
      if it == null {
        assert Abs().at - {uuid} == Abs().at;
        return true;
      }
      SlotCached(s, fn.ino, idx);
      var cache := Erase(it);
      ok := WriteBack(cache, s, uuid);
      EvictedOk(cfg, s, m, own, uuid);
      EvictedTable(s, uuid);
      FileValue(fn);
    }

    lemma EvictedTable(s: State, k: UUID)
      requires Ideal(cfg.aead) && k in s.at && s.at[k].ino in s.files && s.at[k].idx < |s.files[s.at[k].ino].chunks|
      requires s.files[s.at[k].ino].chunks[s.at[k].idx].uuid == k
      ensures var s', ino := Evicted(cfg, s, k), s.at[k].ino;
        && s'.at == s.at - {k} && s'.files.Keys == s.files.Keys
        && |s'.files[ino].chunks| == |s.files[ino].chunks|
        && forall i :: 0 <= i < |s.files[ino].chunks| ==> s'.files[ino].chunks[i].uuid == s.files[ino].chunks[i].uuid
    {
    }

    // ---------- ecall_fs_read ----------

    /** What the enclave finds under an inode number is what the file system has there. */
    lemma ResidentInFS(ino: nat)
      requires Valid() && Known(FS(), ino)
      ensures ino in inodeMap <==> Resident(FS(), ino)
      ensures ino in inodeMap ==>
        (inodeMap[ino].File? <==> ino in FS().files) && (inodeMap[ino].Dir? <==> ino in FS().dirs)
      ensures ino in inodeMap && inodeMap[ino].File? ==> inodeMap[ino].fn in FileObjs()
      ensures ino in inodeMap && inodeMap[ino].File? ==>
        OpenFile(Abs(), m, ino) && IsFile(inodeMap[ino].fn) && inodeMap[ino].fn.ino == ino
      ensures ino in inodeMap && inodeMap[ino].Dir? ==> OpenDir(Abs(), m, ino) && inodeMap[ino].dn.ino == ino
      ensures ino in FS().files ==> FS().files[ino] == FileOf(cfg.chunkSize, m.nodes[ino])
    {
      FlatKinds(cfg.chunkSize, m, ino);
      assert ResidencyOk(Abs(), m);
      if ino in m.nodes {
        assert NodeOk(cfg, Abs(), own, ino, m.nodes[ino]);
        hide LoadFilenode, LoadDirnode, TableOk, Saved, TreeOk, ShapesOk, OwnersOk, SuperOk, Accounted;
      }
    }

    /** Filling the caller's buffer touches nothing of the enclave. */
    method CopyOut(buf: array<Byte>, at: nat, src: Bytes)
      requires at + |src| <= buf.Length && HeapOk()
      modifies buf
      ensures buf[..] == old(buf[..at]) + src + old(buf[at + |src|..])
      ensures HeapOk() && Abs() == old(Abs())
    {
      CopyInto(buf, at, src);
      assert Files() == old(Files()) && Dirs() == old(Dirs()) && Cache() == old(Cache());
    }

    /** One turn of the read loop: a hole reads as zeros, any other chunk passes through the cache. */
    method ReadTurn(fn: Filenode, idx: nat, buf: array<Byte>, w: nat, s: nat, e: nat, ghost piece: Bytes)
      returns (ok: bool)
      requires s <= e <= cfg.chunkSize == |piece| && w + (e - s) <= buf.Length
      requires idx < |fn.chunks| && FilePiece(fn.ino, idx, piece) && m.nodes[fn.ino].status != Quiet
      requires IsFile(fn) && Coherently()
      modifies this`disk, this`trace, store, FileObjs()`chunks, buf
      ensures buf[..] == old(buf[..w]) + piece[s..e] + old(buf[w + (e - s)..])
      ensures |fn.chunks| == |m.nodes[fn.ino].pieces|
      ensures ok && Coherently()
      ensures IdState() == ReadId(old(IdState()), fn.ino, idx)
    {
      hide Coherent, HeapOk, Abs;
      StillOpen(fn);
      SlotName(fn, idx);
      if fn.chunks[idx].uuid == NULL {
        CopyOut(buf, w, Zeros(e - s));
        assert Zeros(e - s) == piece[s..e];
        return true;
      }
      ok := ReadChunk(fn, idx, buf, w, s, e, piece);
      StillOpen(fn);
    }

    /** A chunk that is not a hole is loaded, copied out, and pushed back. */
    method ReadChunk(fn: Filenode, idx: nat, buf: array<Byte>, w: nat, s: nat, e: nat, ghost piece: Bytes)
      returns (ok: bool)
      requires s <= e <= cfg.chunkSize == |piece| && w + (e - s) <= buf.Length
      requires idx < |fn.chunks| && fn.chunks[idx].uuid != NULL
      requires FilePiece(fn.ino, idx, piece) && m.nodes[fn.ino].status != Quiet
      requires IsFile(fn) && Coherently()
      modifies this`disk, this`trace, store, FileObjs()`chunks, buf
      ensures buf[..] == old(buf[..w]) + piece[s..e] + old(buf[w + (e - s)..])
      ensures trace == old(trace) + [Used(old(fn.chunks[idx].uuid))]
      ensures ok && Coherently()
    {
      hide Coherent, HeapOk, Abs, Lru.Without, Use, KeysOf;
      UseTaken(cfg.maxCache, store.Keys(), fn.chunks[idx].uuid);
      var cache := ChunkCache(Zeros(cfg.chunkSize), false, fn, idx);
      ghost var st := Abs();
      FileValue(fn);
      LoadedOk(cfg, st, m, own, fn.ino, idx);
      SameNode(fn.ino);
      ok, cache := LoadChunk(cache);
      if !ok {
        return false;
      }
      CopyOut(buf, w, cache.data[s..e]);
      assert Pushed(Abs(), fn.chunks[idx].uuid, EntryOf(cache)) == Pushed(st, fn.chunks[idx].uuid, EntryOf(cache));
      ok := SaveChunk(cache);
    }

    /** Piece `idx` of the file `ino`. */
    ghost predicate FilePiece(ino: nat, idx: nat, piece: Bytes)
      reads this`m
    {
      ino in m.nodes && m.nodes[ino].FileNode? && idx < |m.nodes[ino].pieces| && m.nodes[ino].pieces[idx] == piece
    }

    lemma SameNode(ino: nat)
      requires ino in m.nodes && m.nodes[ino].FileNode? && m.nodes[ino].status != Quiet
      ensures SetNode(m, ino, Touched(m.nodes[ino])) == m
    {
    }

    lemma StillOpen(fn: Filenode)
      requires HeapOk() && IsFile(fn) && Coherent(cfg, Abs(), m, own) && fn.ino in m.nodes && m.nodes[fn.ino].FileNode?
      ensures OpenFile(Abs(), m, fn.ino) && |fn.chunks| == |m.nodes[fn.ino].pieces| && fn.size == m.nodes[fn.ino].size
      ensures forall i :: 0 <= i < |fn.chunks| ==> |m.nodes[fn.ino].pieces[i]| == cfg.chunkSize
      ensures forall i :: 0 <= i < |fn.chunks| && fn.chunks[i].uuid == NULL ==>
        m.nodes[fn.ino].pieces[i] == Zeros(cfg.chunkSize)
    {
      FileValue(fn);
      OpenTable(cfg, Abs(), m, own, fn.ino);
      assert forall i :: 0 <= i < |fn.chunks| ==>
        SlotOk(cfg, Abs(), own, fn.ino, i, fn.chunks[i], m.nodes[fn.ino].pieces[i]);
      hide Coherent, TableOk;
    }

    lemma SlotName(fn: Filenode, idx: nat)
      requires HeapOk() && IsFile(fn) && Coherent(cfg, Abs(), m, own) && OpenFile(Abs(), m, fn.ino) && idx < |fn.chunks|
      ensures NameOf(own, fn.ino, idx) == fn.chunks[idx].uuid
    {
      hide NameOf, HeapOk, Abs, Coherent;
      FileValue(fn);
      OpenTable(cfg, Abs(), m, own, fn.ino);
      Metas(Abs());
      NameInTable(cfg, Abs(), own, fn.ino, fn.chunks, m.nodes[fn.ino].pieces, idx);
    }

    /** The read loop: the chunks of [offset, offset + n) in order, holes as zeros. */
    method ReadLoop(fn: Filenode, buf: array<Byte>, offset: nat, n: nat, ghost pieces: Pieces)
      returns (ok: bool, wsize: nat)
      requires n <= buf.Length && NoWrap(cfg.chunkSize, offset, n) && Cut(cfg.chunkSize, pieces)
      requires cfg.chunkSize > 0 && ChunkEnd(cfg.chunkSize, offset, n) <= |fn.chunks|
      requires fn.ino in m.nodes && m.nodes[fn.ino].FileNode? && m.nodes[fn.ino].pieces == pieces
      requires |fn.chunks| == |pieces| && m.nodes[fn.ino].status != Quiet
      requires IsFile(fn) && Coherently()
      modifies this`disk, this`trace, store, FileObjs()`chunks, buf
      ensures ok && wsize == n && buf[..n] == ReadRange(cfg.chunkSize, pieces, offset, n) && buf[n..] == old(buf[n..])
      ensures Coherently()
      ensures var c := cfg.chunkSize;
        IdState() == ReadIds(old(IdState()), fn.ino, ChunkStart(c, offset), ChunkEnd(c, offset, n))
    {
      hide Coherent, HeapOk, Abs, ChunkStart, ChunkEnd, OffStart, OffEnd, Served, Use, KeysOf, Traced, NameOf,
        ReadRange,
        NoWrap;
      var c := cfg.chunkSize;
      var st, en := ChunkStart(c, offset), ChunkEnd(c, offset, n);
      EmptyTile(c, offset, n);
      ghost var r := ReadRange(c, pieces, offset, n);
      wsize := 0;
      var idx := st;
      ServedSums(c, offset, n, st);
      while idx < en
        invariant st <= idx <= en && IsFile(fn) && Coherently()
        invariant |fn.chunks| == |pieces| && IdState() == ReadIds(old(IdState()), fn.ino, st, idx)
        invariant wsize == Served(c, offset, n, idx) <= n
        invariant buf[..wsize] == r[..wsize] && buf[n..] == old(buf[n..])
      {
        var s, e := OffStart(c, offset, idx), OffEnd(c, offset, n, idx);
        ServedSums(c, offset, n, idx);
        SliceOfRange(c, pieces, offset, n, idx);
        ok := ReadTurn(fn, idx, buf, wsize, s, e, pieces[idx]);
        if !ok {
          return false, wsize;
        }
        assert r[..wsize] + r[wsize..wsize + (e - s)] == r[..wsize + (e - s)];
        wsize := wsize + (e - s);
        idx := idx + 1;
      }
      ServedSums(c, offset, n, en);
      ok := true;
    }

    /** inode_map.find and the cast to Filenode. */
    method FindFile(ino: nat) returns (fn: Filenode?)
      requires Valid() && Known(FS(), ino)
      ensures Valid() && Abs() == old(Abs())
      ensures fn == null <==> !(Resident(FS(), ino) && ino in FS().files)
      ensures fn != null ==>
        && fn.ino == ino && IsFile(fn) && fn in FileObjs() && OpenFile(Abs(), m, ino)
        && ino in m.nodes && m.nodes[ino].FileNode? && FS().files[ino] == FileOf(cfg.chunkSize, m.nodes[ino])
        && fn.size == m.nodes[ino].size && |fn.chunks| == |m.nodes[ino].pieces|
        && FileShape(cfg.chunkSize, m.nodes[ino].size, m.nodes[ino].pieces)
    {
      hide Coherent, HeapOk, Abs, TreeOk, FlatOf, FileShape, FileOf;
      ResidentInFS(ino);
      if ino !in inodeMap || !inodeMap[ino].File? {
        return null;
      }
      fn := inodeMap[ino].fn;
      StillOpen(fn);
    }

    /** `*size` becomes `n`, the number of bytes read. */
    method Read(ino: nat, buf: array<Byte>, offset: nat, size: nat) returns (err: int, n: nat)
      requires Valid() && Legal(cfg.chunkSize, FS(), Op.Read(ino, offset, size)) && size <= buf.Length
      modifies this`disk, this`trace, this`m, store, FileObjs()`chunks, buf
      ensures Valid() && n <= size
      ensures (FS(), Out(err, 0, if err == 0 then buf[..n] else []))
        == DoRead(cfg.chunkSize, old(FS()), ino, offset, size)
      ensures buf[n..] == old(buf[n..])
      ensures Descends(old(m), m)
      ensures IdState() == IdStep(cfg.chunkSize, old(FS()), old(IdState()), Op.Read(ino, offset, size))
      ensures var f := old(FS());
        n == if Resident(f, ino) && ino in f.files then Min(size, U64(|f.files[ino].bytes| - offset)) else size
    {
      hide Coherent, HeapOk, Abs, TreeOk, FlatOf, ReadRange, FileShape, FileOf, ExactRead, ChunkEnd;
      var fn := FindFile(ino);
      if fn == null {
        return EINVAL, size;
      }
      ghost var node := m.nodes[ino];
      SizeAndTable(cfg.chunkSize, node);
      FlatRead(cfg.chunkSize, node, offset, size);
      n := Min(size, U64(fn.size - offset));
      if ChunkEnd(cfg.chunkSize, offset, n) > |fn.chunks| {
        return EINVAL, n;
      }
      MarkTouched(ino);
      var ok, wsize := ReadLoop(fn, buf, offset, n, node.pieces);
      if !ok || wsize != n {
        return EINVAL, n;
      }
      err := 0;
    }

    ghost method MarkTouched(ino: nat)
      requires Valid() && ino in FS().files && OpenFile(Abs(), m, ino)
      modifies this`m
      ensures Valid() && m == SetNode(old(m), ino, Touched(old(m.nodes[ino])))
      ensures Cut(cfg.chunkSize, m.nodes[ino].pieces)
      ensures var f := old(FS()).files[ino];
        FS() == if f.status != Quiet then old(FS())
          else old(FS()).(files := old(FS()).files[ino := f.(status := Clean)])
      ensures Descends(old(m), m)
    {
      hide Coherent, HeapOk, Abs, TreeOk, FlatOf, FlatBytes;
      TouchedOk(cfg, Abs(), m, own, ino);
      FlatFileStep(cfg.chunkSize, m, ino, Touched(m.nodes[ino]));
      FlatKinds(cfg.chunkSize, m, ino);
      ContentOk(m, ino, Touched(m.nodes[ino]));
      assert ShapesOk(cfg.chunkSize, SetNode(m, ino, Touched(m.nodes[ino])));
      m := SetNode(m, ino, Touched(m.nodes[ino]));
      assert HeapOk();
      assert Coherent(cfg, Abs(), m, own);
      assert TreeOk(m);
    }

    // ---------- ecall_fs_write ----------

    /** UUID::gen_rand. */
    method GenRand() returns (u: UUID)
      requires pool != []
      modifies this`pool
      ensures u == old(pool)[0] && pool == old(pool)[1..]
      ensures Files() == old(Files()) && Dirs() == old(Dirs()) && (HeapOk() <==> old(HeapOk()))
      ensures Abs() == old(Abs()).(pool := pool)
    {
      u, pool := pool[0], pool[1..];
    }

    lemma Fields()
      ensures Abs().pool == pool && Abs().disk == disk && Abs().sup == sup
    {
    }

    /** The state in which chunk `idx` of `fn`, holding `data`, is ready to be pushed. */
    ghost predicate Ready(fn: Filenode, idx: nat, data: Bytes)
      reads this, store`list, store`index, FileObjs()`size, FileObjs()`chunks, FileObjs()`refcount, DirObjs()`entries,
        DirObjs()`refcount
      reads fn`chunks
    {
      && GoodConfig(cfg) && HeapOk() && IsFile(fn) && idx < |fn.chunks|
      && Coherent(cfg, Pushed(Abs(), fn.chunks[idx].uuid, Entry(fn.ino, idx, data, true)), m, own)
      && var u := fn.chunks[idx].uuid;
      Use(cfg.maxCache, store.Keys(), u) == Use(cfg.maxCache, Order(cfg.maxCache, trace), u)
    }

    /** A hole gets an identifier. */
    method NameHole(fn: Filenode, idx: nat, ghost data: Bytes)
      requires idx < |fn.chunks| && fn.chunks[idx].uuid == NULL && pool != [] && |data| == cfg.chunkSize
      requires fn.ino in m.nodes && m.nodes[fn.ino].FileNode? && idx < |m.nodes[fn.ino].pieces|
      requires IsFile(fn) && Coherently()
      modifies this`pool, this`m, this`own, fn`chunks
      ensures |pool| == |old(pool)| - 1 && |fn.chunks| == |old(fn.chunks)|
      ensures m == SetNode(old(m), fn.ino, Written(old(m.nodes[fn.ino]), idx, data))
      ensures fn.chunks[idx].uuid == old(pool)[0]
      ensures own == old(own)[old(pool)[0] := Slot(fn.ino, idx)] && pool == old(pool)[1..]
      ensures Ready(fn, idx, data)
    {
      hide Coherent, HeapOk, Abs;
      ghost var st := Abs();
      Fields();
      StillOpen(fn);
      FileValue(fn);
      AllocatedOk(cfg, st, m, own, fn.ino, idx, data);
      m, own := SetNode(m, fn.ino, Written(m.nodes[fn.ino], idx, data)), own[pool[0] := Slot(fn.ino, idx)];
      var uuid := GenRand();
      PutSlot(fn, idx, fn.chunks[idx].(uuid := uuid));
    }

    /** A chunk that the slice does not cover is loaded. */
    method LoadOld(fn: Filenode, idx: nat, skip: bool, cache: ChunkCache, ghost piece: Bytes, ghost data: Bytes)
      returns (ok: bool, out: ChunkCache)
      requires idx < |fn.chunks| && fn.chunks[idx].uuid != NULL && |data| == cfg.chunkSize
      requires cache == ChunkCache(Zeros(cfg.chunkSize), false, fn, idx) && FilePiece(fn.ino, idx, piece)
      requires IsFile(fn) && Coherently()
      modifies this`m, store
      ensures ok && out.data == (if skip then Zeros(cfg.chunkSize) else piece) && out.filenode == fn && out.idx == idx
      ensures m == SetNode(old(m), fn.ino, Written(old(m.nodes[fn.ino]), idx, data))
      ensures Ready(fn, idx, data)
    {
      hide Coherent, HeapOk, Abs, Lru.Without, Use, KeysOf;
      UseTaken(cfg.maxCache, store.Keys(), fn.chunks[idx].uuid);
      ghost var st := Abs();
      StillOpen(fn);
      FileValue(fn);
      OverwrittenOk(cfg, st, m, own, fn.ino, idx, data);
      ok, out := true, cache;
      if !skip {
        LoadedOk(cfg, st, m, own, fn.ino, idx);
        ok, out := LoadChunk(cache);
        PushedAgain(st, Abs(), fn.chunks[idx].uuid, Entry(fn.ino, idx, data, true));
      }
      m := SetNode(m, fn.ino, Written(m.nodes[fn.ino], idx, data));
    }

    /** Loading a chunk before it is pushed again makes no difference to what the store then holds. */
    lemma PushedAgain(s: State, s': State, k: UUID, e: Entry)
      ensures s' == s || s' == s.(at := s.at - {k}) ==> Pushed(s', k, e) == Pushed(s, k, e)
    {
    }

    /** One turn of the write loop: a hole gets an identifier, a chunk that the slice does not cover is loaded,
        the slice is copied in, and the modified chunk is pushed. */
    method WriteTurn(fn: Filenode, idx: nat, s: nat, src: Bytes, skip: bool, ghost piece: Bytes) returns (ok: bool)
      requires s + |src| <= cfg.chunkSize == |piece| && idx < |fn.chunks| && FilePiece(fn.ino, idx, piece)
      requires pool != []
      requires IsFile(fn) && Coherently()
      modifies this`disk, this`trace, this`pool, this`m, this`own, store, FileObjs()`chunks
      ensures |pool| >= |old(pool)| - 1
      ensures var d := Overlay(if skip then Zeros(cfg.chunkSize) else piece, s, src);
        m == SetNode(old(m), fn.ino, Written(old(m.nodes[fn.ino]), idx, d))
      ensures |fn.chunks| == |old(m.nodes[fn.ino].pieces)|
      ensures IdState() == WriteId(old(IdState()), fn.ino, idx)
      ensures ok && Coherently()
    {
      hide Coherent, HeapOk, Abs, Overlay, Use, KeysOf;
      var cache := ChunkCache(Zeros(cfg.chunkSize), false, fn, idx);
      ghost var data := Overlay(if skip then Zeros(cfg.chunkSize) else piece, s, src);
      StillOpen(fn);
      SlotName(fn, idx);
      if fn.chunks[idx].uuid == NULL {
        NameHole(fn, idx, data);
      } else {
        ok, cache := LoadOld(fn, idx, skip, cache, piece, data);
      }
      cache := cache.(data := Overlay(cache.data, s, src), modified := true);
      ok := SaveChunk(cache);
      StillOpen(fn);
    }

    /** The file's pieces when the write loop comes to chunk `idx`. */
    ghost predicate WrittenTo(ino: nat, m0: Model, ps: Pieces, surplus: nat, offset: nat, data: Bytes, idx: nat)
      reads this`m
      requires cfg.chunkSize > 0 && NoWrap(cfg.chunkSize, offset, |data|) && Cut(cfg.chunkSize, ps)
      requires ino in m0.nodes && m0.nodes[ino].FileNode?
    {
      m == SetNode(m0, ino,
        m0.nodes[ino].(pieces := Partly(cfg.chunkSize, ps, surplus, offset, data, idx), status := Dirty))
    }

    /** One turn of the write loop, seen from the whole range: `w` bytes have been written before it. */
    method WriteStep(fn: Filenode, data: Bytes, offset: nat, prev: nat, surplus: nat, idx: nat, w: nat,
      ghost m0: Model, ghost ps: Pieces)
      returns (ok: bool, wsize: nat)
      requires cfg.chunkSize > 0 && NoWrap(cfg.chunkSize, offset, |data|) && prev == |ps| && Cut(cfg.chunkSize, ps)
      requires ChunkStart(cfg.chunkSize, offset) <= idx < ChunkEnd(cfg.chunkSize, offset, |data|) <= |fn.chunks|
      requires fn.ino in m0.nodes && m0.nodes[fn.ino].FileNode?
      requires WrittenTo(fn.ino, m0, ps, surplus, offset, data, idx)
      requires w == Served(cfg.chunkSize, offset, |data|, idx) && pool != []
      requires IsFile(fn) && Coherently()
      modifies this`disk, this`trace, this`pool, this`m, this`own, store, FileObjs()`chunks
      ensures WrittenTo(fn.ino, m0, ps, surplus, offset, data, idx + 1)
      ensures wsize == Served(cfg.chunkSize, offset, |data|, idx + 1) && |pool| >= |old(pool)| - 1
      ensures |fn.chunks| == |old(fn.chunks)|
      ensures ok && Coherently()
      ensures IdState() == WriteId(old(IdState()), fn.ino, idx)
    {
      hide Coherent, HeapOk, Abs, ChunkStart, ChunkEnd, OffStart, OffEnd, Served, Use, KeysOf, Traced, NoWrap,
        Skipped, Overlay, Partly, SetNode, Written;
      var c := cfg.chunkSize;
      var s, e := OffStart(c, offset, idx), OffEnd(c, offset, |data|, idx);
      ghost var p := Partly(c, ps, surplus, offset, data, idx);
      ServedSums(c, offset, |data|, idx);
      PartlyStep(c, ps, surplus, offset, data, idx);
      NodeSet(m0, fn.ino, m0.nodes[fn.ino].(pieces := p, status := Dirty));
      StillOpen(fn);
      var skip := !(s != 0 || e != OffChunkEnd(c, prev, surplus, idx));
      assert skip == Skipped(c, |ps|, surplus, offset, |data|, idx) by {
        SkipTest(c, |ps|, surplus, offset, |data|, idx);
      }
      ghost var d := Overlay(if skip then Zeros(c) else p[idx], s, data[w..w + (e - s)]);
      StepModel(m0, fn.ino, p, idx, d);
      ok := WriteTurn(fn, idx, s, data[w..w + (e - s)], skip, p[idx]);
      wsize := w + (e - s);
    }

    /** The write loop, over a table that already has its new length. `prev` is the length it had. */
    method WriteLoop(fn: Filenode, data: Bytes, offset: nat, prev: nat, surplus: nat,
      ghost m0: Model, ghost ps: Pieces)
      returns (ok: bool, wsize: nat)
      requires cfg.chunkSize > 0 && NoWrap(cfg.chunkSize, offset, |data|) && prev == |ps| && Cut(cfg.chunkSize, ps)
      requires fn.ino in m0.nodes && m0.nodes[fn.ino].FileNode?
      requires var grown := Grow(cfg.chunkSize, ps, ChunkEnd(cfg.chunkSize, offset, |data|));
        m == SetNode(m0, fn.ino, m0.nodes[fn.ino].(pieces := grown, status := Dirty))
      requires |pool| >= ChunkEnd(cfg.chunkSize, offset, |data|) - ChunkStart(cfg.chunkSize, offset)
      requires IsFile(fn) && Coherently()
      modifies this`disk, this`trace, this`pool, this`m, this`own, store, FileObjs()`chunks
      ensures var written := WritePieces(cfg.chunkSize, ps, surplus, offset, data);
        m == SetNode(m0, fn.ino, m0.nodes[fn.ino].(pieces := written, status := Dirty))
      ensures |pool| >= |old(pool)| - (ChunkEnd(cfg.chunkSize, offset, |data|) - ChunkStart(cfg.chunkSize, offset))
      ensures ok && wsize == |data| && Coherently()
      ensures var c := cfg.chunkSize;
        IdState() == WriteIds(old(IdState()), fn.ino, ChunkStart(c, offset), ChunkEnd(c, offset, |data|))
    {
      hide Coherent, HeapOk, Abs, ChunkStart, ChunkEnd, Served, Traced, NoWrap, Grow, Partly, WritePieces, SetNode;
      var c := cfg.chunkSize;
      var st, en := ChunkStart(c, offset), ChunkEnd(c, offset, |data|);
      EmptyTile(c, offset, |data|);
      PartlyEnds(c, ps, surplus, offset, data);
      NodeSet(m0, fn.ino, m0.nodes[fn.ino].(pieces := Grow(c, ps, en), status := Dirty));
      StillOpen(fn);
      wsize := 0;
      var idx := st;
      ServedSums(c, offset, |data|, st);
      while idx < en
        invariant st <= idx <= en <= |fn.chunks| && IsFile(fn) && Coherently()
        invariant WrittenTo(fn.ino, m0, ps, surplus, offset, data, idx)
        invariant IdState() == WriteIds(old(IdState()), fn.ino, st, idx)
        invariant wsize == Served(c, offset, |data|, idx)
        invariant |pool| >= |old(pool)| - (idx - st)
      {
        ok, wsize := WriteStep(fn, data, offset, prev, surplus, idx, wsize, m0, ps);
        if !ok {
          return false, wsize;
        }
        idx := idx + 1;
      }
      ServedSums(c, offset, |data|, en);
      ok := true;
    }

    lemma NodeSet(m0: Model, ino: nat, node: Node)
      ensures ino in SetNode(m0, ino, node).nodes && SetNode(m0, ino, node).nodes[ino] == node
    {
    }

    lemma StepModel(m0: Model, ino: nat, p: Pieces, idx: nat, d: Bytes)
      requires ino in m0.nodes && m0.nodes[ino].FileNode? && idx < |p|
      ensures var node := m0.nodes[ino].(pieces := p, status := Dirty);
        var m1 := SetNode(m0, ino, node);
        && ino in m1.nodes && m1.nodes[ino] == node
        && SetNode(m1, ino, Written(node, idx, d))
           == SetNode(m0, ino, m0.nodes[ino].(pieces := p[idx := d], status := Dirty))
    {
    }

    lemma SkipTest(c: nat, prev: nat, surplus: nat, off: nat, n: nat, idx: nat)
      requires c > 0
      ensures Skipped(c, prev, surplus, off, n, idx)
        == !(OffStart(c, off, idx) != 0 || OffEnd(c, off, n, idx) != OffChunkEnd(c, prev, surplus, idx))
    {
    }

    /** resize() of a table, and the size beside it. */
    method Resize(fn: Filenode, n: nat, size: nat)
      requires fn.ino in m.nodes && m.nodes[fn.ino].FileNode?
      requires IsFile(fn) && Coherently()
      modifies fn`chunks, fn`size, this`m
      ensures m == SetNode(old(m), fn.ino, old(m.nodes[fn.ino]).(size := size, status := Dirty,
                           pieces := Grow(cfg.chunkSize, old(m.nodes[fn.ino].pieces), n)))
      ensures fn.size == size && |fn.chunks| == Max(|old(fn.chunks)|, n)
      ensures Coherently()
    {
      hide Coherent, HeapOk, Abs, Grow;
      StillOpen(fn);
      FileValue(fn);
      ResizedOk(cfg, Abs(), m, own, fn.ino, n, size);
      var chunks := if n <= |fn.chunks| then fn.chunks else fn.chunks + seq(n - |fn.chunks|, _ => HOLE);
      m := SetNode(m, fn.ino, m.nodes[fn.ino].(size := size, status := Dirty,
        pieces := Grow(cfg.chunkSize, m.nodes[fn.ino].pieces, n)));
      PutTable(fn, chunks, size);
    }

    /** A file's new content, seen from the flat file system. */
    lemma FileStepKeepsShape(m0: Model, ino: nat, node: Node)
      requires cfg.chunkSize > 0 && TreeOk(m0) && ShapesOk(cfg.chunkSize, m0) && ino in m0.nodes &&
        m0.nodes[ino].FileNode?
      requires node.FileNode? && node.uuid == m0.nodes[ino].uuid && node.parent == m0.nodes[ino].parent
      requires FileShape(cfg.chunkSize, node.size, node.pieces)
      ensures TreeOk(SetNode(m0, ino, node)) && ShapesOk(cfg.chunkSize, SetNode(m0, ino, node))
      ensures Descends(m0, SetNode(m0, ino, node))
    {
      hide TreeOk, FileShape;
      ContentOk(m0, ino, node);
    }

    /** The file after a write. */
    ghost function WrittenFile(node: Node, offset: nat, data: Bytes): Node
      requires node.FileNode? && cfg.chunkSize > 0 && NoWrap(cfg.chunkSize, offset, |data|)
      requires forall i :: 0 <= i < |node.pieces| ==> |node.pieces[i]| == cfg.chunkSize
    {
      node.(size := Max(node.size, offset + |data|), status := Dirty,
            pieces := WritePieces(cfg.chunkSize, node.pieces, LastSurplus(cfg.chunkSize, node.size), offset, data))
    }

    /** The table grows, the loop runs, the size follows. */
    method WriteFile(fn: Filenode, data: Bytes, offset: nat, ghost node: Node) returns (ok: bool, wsize: nat)
      requires fn.ino in m.nodes && m.nodes[fn.ino] == node && node.FileNode? && fn.size == node.size
      requires cfg.chunkSize > 0 && NoWrap(cfg.chunkSize, offset, |data|) && Cut(cfg.chunkSize, node.pieces)
      requires |pool| >= ChunkEnd(cfg.chunkSize, offset, |data|) - ChunkStart(cfg.chunkSize, offset)
      requires IsFile(fn) && fn in FileObjs() && |fn.chunks| == |node.pieces| && Coherently()
      modifies this`disk, this`trace, this`pool, this`m, this`own, store, FileObjs()`chunks, fn`size
      ensures m == SetNode(old(m), fn.ino, WrittenFile(node, offset, data))
      ensures |pool| >= |old(pool)| - (ChunkEnd(cfg.chunkSize, offset, |data|) - ChunkStart(cfg.chunkSize, offset))
      ensures ok && wsize == |data| && Coherently()
      ensures var c := cfg.chunkSize;
        IdState() == WriteIds(old(IdState()), fn.ino, ChunkStart(c, offset), ChunkEnd(c, offset, |data|))
    {
      hide Coherent, HeapOk, Abs, WritePieces, Grow, ChunkEnd, ChunkStart, LastSurplus, SetNode;
      var c := cfg.chunkSize;
      ghost var m0, ino := m, fn.ino;
      var en := ChunkEnd(c, offset, |data|);
      var prev := |fn.chunks|;
      var surplus := LastSurplus(c, fn.size);
      Resize(fn, en, fn.size);
      ok, wsize := WriteLoop(fn, data, offset, prev, surplus, m0, node.pieces);
      if !ok {
        return;
      }
      NodeSet(m0, ino, node.(pieces := WritePieces(c, node.pieces, surplus, offset, data), status := Dirty));
      Resize(fn, 0, Max(fn.size, offset + wsize));
      assert Grow(c, WritePieces(c, node.pieces, surplus, offset, data), 0)
          == WritePieces(c, node.pieces, surplus, offset, data) by {
        GrowNone(c, WritePieces(c, node.pieces, surplus, offset, data));
      }
      SetAgain(m0, ino, node.(pieces := WritePieces(c, node.pieces, surplus, offset, data), status := Dirty),
        WrittenFile(node, offset, data));
    }

    lemma GrowNone(c: nat, ps: Pieces)
      ensures Grow(c, ps, 0) == ps
    {
    }

    lemma SetAgain(m0: Model, ino: nat, a: Node, b: Node)
      ensures SetNode(SetNode(m0, ino, a), ino, b) == SetNode(m0, ino, b)
    {
    }

    method Write(ino: nat, data: Bytes, offset: nat) returns (err: int, n: nat)
      requires Valid() && Legal(cfg.chunkSize, FS(), Op.Write(ino, offset, data))
      requires |pool| >= Draws(cfg.chunkSize, Op.Write(ino, offset, data))
      modifies this`disk, this`trace, this`pool, this`m, this`own, store, FileObjs()`chunks, FileObjs()`size
      ensures Valid() && |pool| >= |old(pool)| - Draws(cfg.chunkSize, Op.Write(ino, offset, data))
      ensures (FS(), Fail(err)) == DoWrite(cfg.chunkSize, old(FS()), ino, offset, data)
      ensures n == |data|
      ensures Descends(old(m), m)
      ensures IdState() == IdStep(cfg.chunkSize, old(FS()), old(IdState()), Op.Write(ino, offset, data))
    {
      hide Coherent, HeapOk, Abs, TreeOk, FlatOf, FileShape, FileOf, ExactWrite, WritePieces, ChunkEnd, ChunkStart,
        LastSurplus, SetNode;
      var fn := FindFile(ino);
      if fn == null {
        return EINVAL, |data|;
      }
      ghost var m0, node := m, m.nodes[ino];
      FlatWrite(cfg.chunkSize, m0, ino, offset, data);
      ShapeCut(node);
      FileStepKeepsShape(m0, ino, WrittenFile(node, offset, data));
      var ok;
      ok, n := WriteFile(fn, data, offset, node);
      err := if ok then 0 else EINVAL;
    }

    lemma ShapeCut(node: Node)
      requires node.FileNode? && FileShape(cfg.chunkSize, node.size, node.pieces)
      ensures Cut(cfg.chunkSize, node.pieces)
    {
    }

    // ---------- ecall_fs_fallocate, ecall_fs_open, ecall_fs_flush ----------

    method Fallocate(ino: nat, offset: nat, length: nat) returns (err: int)
      requires Valid() && Legal(cfg.chunkSize, FS(), Op.Fallocate(ino, offset, length))
      modifies this`m, FileObjs()`chunks, FileObjs()`size
      ensures Valid()
      ensures (FS(), Fail(err)) == DoFallocate(old(FS()), ino, offset, length)
      ensures Descends(old(m), m)
      ensures IdState() == IdStep(cfg.chunkSize, old(FS()), old(IdState()), Op.Fallocate(ino, offset, length))
    {
      hide Coherent, HeapOk, Abs, TreeOk, FlatOf, FileShape, FileOf, Grow, ChunkEnd, SetNode;
      var fn := FindFile(ino);
      if fn == null {
        return EACCES;
      }
      ghost var m0, node := m, m.nodes[ino];
      FlatFallocate(cfg.chunkSize, m0, ino, offset, length);
      FileStepKeepsShape(m0, ino, node.(size := Max(node.size, offset + length), status := Dirty,
                            pieces := Grow(cfg.chunkSize, node.pieces, ChunkEnd(cfg.chunkSize, offset, length))));
      Resize(fn, ChunkEnd(cfg.chunkSize, offset, length), Max(fn.size, offset + length));
      err := 0;
    }

    /** remove_chunk and remove_metadata: the file is taken off the disk. */
    method RemoveFile(uuid: UUID)
      modifies this`disk
      ensures disk == old(disk) - {Unparse(uuid)}
    {
      disk := disk - {Unparse(uuid)};
    }

    /** The loop that removes every chunk of a table. */
    method RemoveAll(chunks: seq<Chunk>)
      modifies this`disk
      ensures disk == RemoveChunks(old(disk), chunks)
    {
      hide Unparse;
      var i := 0;
      while i < |chunks|
        invariant 0 <= i <= |chunks| && disk == RemoveChunks(old(disk), chunks[..i])
      {
        assert chunks[..i + 1][..i] == chunks[..i];
        if chunks[i].uuid != NULL {
          RemoveFile(chunks[i].uuid);
        }
        i := i + 1;
      }
      assert chunks[..i] == chunks;
    }

    method TakeOff(chunks: seq<Chunk>)
      requires HeapOk()
      modifies this`disk
      ensures HeapOk() && Abs() == old(Abs()).(disk := RemoveChunks(old(Abs()).disk, chunks))
    {
      hide RemoveChunks;
      RemoveAll(chunks);
      assert Files() == old(Files()) && Dirs() == old(Dirs());
    }

    /** Opening with OF_TRUNC takes every chunk off the disk and empties the table. */
    method Truncate(fn: Filenode)
      requires fn.ino in m.nodes && m.nodes[fn.ino].FileNode? && m.nodes[fn.ino].status == Quiet
      requires IsFile(fn) && Coherently()
      modifies fn`chunks, fn`size, this`m, this`own, this`disk
      ensures m == SetNode(old(m), fn.ino, old(m.nodes[fn.ino]).(size := 0, pieces := [], status := Dirty))
      ensures Coherently()
      ensures forall u :: u in old(own) ==>
        if old(own)[u].Slot? && old(own)[u].ino == fn.ino then Unparse(u) !in disk else SameAt(old(disk), disk, u)
      ensures own == DropSlots(old(own), fn.ino)
    {
      hide Coherent, HeapOk, RemoveChunks, Abs, SameAt, Unparse;
      StillOpen(fn);
      FileValue(fn);
      Fields();
      TruncatedOk(cfg, Abs(), m, own, fn.ino);
      TakeOff(fn.chunks);
      PutTable(fn, [], 0);
      m, own := SetNode(m, fn.ino, m.nodes[fn.ino].(size := 0, pieces := [], status := Dirty)), DropSlots(own, fn.ino);
      Fields();
    }

    method Open(ino: nat, flags: nat) returns (err: int)
      requires Valid() && Legal(cfg.chunkSize, FS(), Op.Open(ino, flags))
      modifies this`disk, this`m, this`own, FileObjs()`chunks, FileObjs()`size
      ensures Valid()
      ensures (FS(), Fail(err)) == DoOpen(old(FS()), ino, flags)
      ensures Descends(old(m), m)
      ensures err != 0 || !Truncates(flags) ==> disk == old(disk)
      ensures err == 0 && Truncates(flags) ==> forall u :: u in old(own) ==>
        if old(own)[u].Slot? && old(own)[u].ino == ino then Unparse(u) !in disk else SameAt(old(disk), disk, u)
      ensures IdState() == IdStep(cfg.chunkSize, old(FS()), old(IdState()), Op.Open(ino, flags))
    {
      hide Coherent, HeapOk, Abs, TreeOk, FlatOf, FileShape, SetNode, FlatBytes, SameAt, Unparse;
      var fn := FindFile(ino);
      if fn == null {
        return EACCES;
      }
      if (flags / 512) % 2 == 1 {
        ghost var m0, node := m, m.nodes[ino];
        ghost var node' := node.(size := 0, pieces := [], status := Dirty);
        FlatFileStep(cfg.chunkSize, m0, ino, node');
        EmptyShape(cfg.chunkSize, node');
        FileStepKeepsShape(m0, ino, node');
        Truncate(fn);
      }
      err := 0;
    }

    lemma EmptyShape(c: nat, node: Node)
      requires 0 < c < WORD && node.FileNode? && node.size == 0 && node.pieces == []
      ensures FileShape(c, node.size, node.pieces) && FileOf(c, node) == FlatFile([], node.status)
    {
      CeilDivUnique(0, 0, c);
    }

    /** The sealing half of save_metadata. */
    method PutMetadata(uuid: UUID, plain: Bytes)
      requires HeapOk() && Ideal(cfg.aead)
      modifies this`disk
      ensures HeapOk() && Abs() == old(Abs()).(disk := old(Abs()).disk[Unparse(uuid) := SealMetadata(cfg, uuid, plain)])
    {
      hide Unparse, Ideal;
      var sealed := cfg.aead.seal(ZERO_IV, uuid, plain);
      disk := disk[Unparse(uuid) := sealed.ct + sealed.tag];
      assert Files() == old(Files()) && Dirs() == old(Dirs());
    }

    /** The buffer half of save_metadata: the size is asked for, and the node dumped into a buffer of it. */
    method DumpFilenode(fn: Filenode) returns (ok: bool, plain: Bytes)
      requires HeapOk()
      ensures HeapOk() && Abs() == old(Abs())
      ensures ok && plain == DumpFile(fn.Val().Rec())
    {
      hide DumpFile, HeapOk;
      var ibuf := new Byte[24 + 44 * |fn.chunks|];
      var n := fn.Dump(ibuf);
      assert Files() == old(Files()) && Dirs() == old(Dirs()) && Cache() == old(Cache());
      if n == 0 {
        return false, [];
      }
      assert ibuf[..] == ibuf[..n];
      return true, ibuf[..];
    }

    method DumpDirnode(dn: Dirnode) returns (ok: bool, plain: Bytes)
      requires HeapOk()
      ensures HeapOk() && Abs() == old(Abs())
      ensures ok && plain == DumpDir(dn.Val().Rec())
    {
      hide DumpDir, HeapOk;
      var ibuf := new Byte[272 + 288 * |dn.entries|];
      var n := dn.Dump(ibuf);
      assert Files() == old(Files()) && Dirs() == old(Dirs()) && Cache() == old(Cache());
      if n == 0 {
        return false, [];
      }
      assert ibuf[..] == ibuf[..n];
      return true, ibuf[..];
    }

    /** save_metadata on a filenode. */
    method SaveFilenode(fn: Filenode) returns (ok: bool)
      requires HeapOk() && IsFile(fn) && Ideal(cfg.aead)
      modifies this`disk
      ensures fn.ino in old(Abs()).files
      ensures ok && HeapOk() && Abs() == SavedFile(cfg, old(Abs()), fn.ino)
    {
      hide HeapOk, Abs, Ideal, DumpFile, SealMetadata;
      FileValue(fn);
      var plain;
      ok, plain := DumpFilenode(fn);
      if !ok {
        return false;
      }
      PutMetadata(fn.uuid, plain);
    }

    /** No chunk of the file is cached when the loop is through. */
    method FlushLoop(fn: Filenode) returns (ok: bool)
      requires fn.ino in m.nodes && m.nodes[fn.ino].FileNode?
      requires IsFile(fn) && Coherently()
      modifies this`disk, this`trace, store, fn`chunks
      ensures forall i :: 0 <= i < |fn.chunks| ==> fn.chunks[i].uuid !in Abs().at
      ensures ok && Coherently()
      ensures IdState() == FlushIds(old(IdState()), fn.ino, |old(fn.chunks)|) && |fn.chunks| == |old(fn.chunks)|
    {
      hide Coherent, HeapOk, Abs, Traced, NameOf, Order, KeysOf;
      StillOpen(fn);
      var i := 0;
      while i < |fn.chunks|
        invariant 0 <= i <= |fn.chunks| == |old(fn.chunks)|
        invariant IsFile(fn) && Coherently() && OpenFile(Abs(), m, fn.ino)
        invariant IdState() == FlushIds(old(IdState()), fn.ino, i)
        invariant forall j :: 0 <= j < i ==> fn.chunks[j].uuid !in Abs().at
      {
        ghost var before, was := Abs().at, fn.chunks;
        SlotName(fn, i);
        ok := FlushChunk(fn, i);
        if !ok {
          return false;
        }
        assert forall j :: 0 <= j < i ==> fn.chunks[j].uuid == was[j].uuid && was[j].uuid !in before;
        i := i + 1;
      }
      ok := true;
    }

    method Flush(ino: nat) returns (err: int)
      requires Valid() && Legal(cfg.chunkSize, FS(), Op.Flush(ino))
      modifies this`disk, this`trace, this`m, store, FileObjs()`chunks
      ensures Valid()
      ensures (FS(), Fail(err)) == DoFlush(old(FS()), ino)
      ensures Descends(old(m), m)
      ensures IdState() == IdStep(cfg.chunkSize, old(FS()), old(IdState()), Op.Flush(ino))
    {
      hide Coherent, HeapOk, Abs, TreeOk, FlatOf, FileShape, SetNode, FlatBytes, SavedFile, FileOf, FlushIds, Traced,
        CeilDiv;
      var fn := FindFile(ino);
      if fn == null {
        return EINVAL;
      }
      ghost var node := m.nodes[ino];
      SizeAndTable(cfg.chunkSize, node);
      QuietFile(cfg.chunkSize, node);
      InoFits(ino);
      FlatFileStep(cfg.chunkSize, m, ino, node.(status := Quiet));
      FileStepKeepsShape(m, ino, node.(status := Quiet));
      var ok := FlushLoop(fn);
      if !ok {
        return EIO;
      }
      StillOpen(fn);
      FileValue(fn);
      SavedFileOk(cfg, Abs(), m, own, ino);
      ok := SaveFilenode(fn);
      if !ok {
        return EIO;
      }
      m := SetNode(m, ino, node.(status := Quiet));
      err := 0;
    }

    lemma InoFits(ino: nat)
      requires TreeOk(m) && ino in m.nodes
      ensures ino < WORD
    {
    }

    // ---------- directories ----------

    ghost predicate IsDir(dn: Dirnode)
      reads this`inodeMap
    {
      dn.ino in inodeMap && inodeMap[dn.ino] == Dir(dn)
    }

    lemma DirValue(dn: Dirnode)
      requires HeapOk() && IsDir(dn)
      ensures dn.ino in Abs().dirs && Abs().dirs[dn.ino] == dn.Val()
    {
    }

    /** inode_map.find and the cast to Dirnode. */
    method FindDir(ino: nat) returns (present: bool, dn: Dirnode?)
      requires Valid() && Known(FS(), ino)
      ensures Valid() && Abs() == old(Abs())
      ensures present <==> Resident(FS(), ino)
      ensures dn != null <==> present && ino in FS().dirs
      ensures dn != null ==>
        && dn.ino == ino && IsDir(dn) && dn in DirObjs() && OpenDir(Abs(), m, ino)
        && dn.entries == m.nodes[ino].entries && dn.name == m.nodes[ino].name
    {
      hide Coherent, HeapOk, Abs, TreeOk, FlatOf;
      ResidentInFS(ino);
      if ino !in inodeMap {
        return false, null;
      }
      if !inodeMap[ino].Dir? {
        return true, null;
      }
      present, dn := true, inodeMap[ino].dn;
      DirFields(dn);
    }

    lemma DirFields(dn: Dirnode)
      requires HeapOk() && IsDir(dn) && Coherent(cfg, Abs(), m, own) && OpenDir(Abs(), m, dn.ino)
      ensures dn in DirObjs() && dn.entries == m.nodes[dn.ino].entries && dn.name == m.nodes[dn.ino].name
      ensures dn.uuid == m.nodes[dn.ino].uuid
    {
      DirValue(dn);
      assert NodeOk(cfg, Abs(), own, dn.ino, m.nodes[dn.ino]);
      hide GlobalOk, LoadDirnode;
    }

    /** The loop over the entries that looks for a name. */
    method FindEntry(dn: Dirnode, name: Name) returns (k: nat)
      requires Valid()
      ensures Valid() && Abs() == old(Abs())
      ensures k <= |dn.entries|
      ensures k < |dn.entries| ==> dn.entries[k].name == name
      ensures k == |dn.entries| ==> Fresh(dn.entries, name)
    {
      hide Coherent, HeapOk, Abs, TreeOk, ShapesOk;
      k := 0;
      while k < |dn.entries|
        invariant k <= |dn.entries|
        invariant forall i :: 0 <= i < k ==> dn.entries[i].name != name
      {
        if dn.entries[k].name == name {
          return;
        }
        k := k + 1;
      }
    }

    /** The entries change in memory, and the directory is saved. */
    method SaveEntries(dn: Dirnode, entries: seq<Dirent>) returns (ok: bool)
      requires HeapOk() && IsDir(dn) && Ideal(cfg.aead)
      modifies dn`entries, this`disk
      ensures dn.ino in old(Abs()).dirs
      ensures ok && HeapOk() && IsDir(dn) && Abs() == SavedDir(cfg, old(Abs()), dn.ino, entries)
    {
      hide HeapOk, Ideal, DumpDir, SealMetadata, Unparse;
      ghost var s := Abs();
      DirValue(dn);
      PutEntries(dn, entries);
      hide Abs;
      DirValue(dn);
      var plain;
      ok, plain := DumpDirnode(dn);
      if !ok {
        return false;
      }
      PutMetadata(dn.uuid, plain);
    }

    method PutEntries(dn: Dirnode, entries: seq<Dirent>)
      requires HeapOk() && IsDir(dn)
      modifies dn`entries
      ensures HeapOk() && dn.entries == entries && dn.ino in old(Abs()).dirs
      ensures Abs() == old(Abs()).(dirs := old(Abs()).dirs[dn.ino := old(Abs()).dirs[dn.ino].(entries := entries)])
    {
      ghost var before := Dirs();
      dn.entries := entries;
      assert Dirs() == before[dn.ino := before[dn.ino].(entries := entries)];
      assert Files() == old(Files());
    }

    /** inode_map[ino] = fn, for a number that is not resident. */
    method InsertFile(fn: Filenode)
      requires HeapOk() && fn.ino !in inodeMap
      modifies this`inodeMap
      ensures HeapOk() && inodeMap == old(inodeMap)[fn.ino := File(fn)]
      ensures Abs() == old(Abs()).(files := old(Abs()).files[fn.ino := fn.Val()])
    {
      hide Bijection, KeysOf, EntryOf;
      ghost var files, dirs, cache := Files(), Dirs(), Cache();
      inodeMap := inodeMap[fn.ino := File(fn)];
      assert HeapOk() by { hide Abs; }
      assert Cache() == cache by { hide HeapOk; }
      assert Dirs() == dirs by { hide HeapOk, Bijection; }
      assert Files() == files[fn.ino := fn.Val()];
    }

    method InsertDir(dn: Dirnode)
      requires HeapOk() && dn.ino !in inodeMap
      modifies this`inodeMap
      ensures HeapOk() && inodeMap == old(inodeMap)[dn.ino := Dir(dn)]
      ensures Abs() == old(Abs()).(dirs := old(Abs()).dirs[dn.ino := dn.Val()])
    {
      hide Bijection, KeysOf, EntryOf;
      ghost var files, dirs, cache := Files(), Dirs(), Cache();
      inodeMap := inodeMap[dn.ino := Dir(dn)];
      assert HeapOk() by { hide Abs; }
      assert Cache() == cache by { hide HeapOk; }
      assert Files() == files by { hide HeapOk, Bijection; }
      assert Dirs() == dirs[dn.ino := dn.Val()];
    }

    // ---------- ecall_fs_mkdir, ecall_fs_create ----------

    /** A directory's entries change, and it is saved. */
    method ChangeEntries(dn: Dirnode, entries: seq<Dirent>, ghost m': Model) returns (ok: bool)
      requires dn.ino in m.nodes && m.nodes[dn.ino].DirNode?
      requires DirRecFits(DirRec(dn.ino, m.nodes[dn.ino].name, entries))
      requires m' == SetNode(m, dn.ino, m.nodes[dn.ino].(entries := entries))
      requires IsDir(dn) && Coherently()
      modifies dn`entries, this`disk, this`m
      ensures m == m' && ok && Coherently()
      ensures forall u: UUID :: u != dn.uuid ==> SameAt(old(disk), disk, u)
    {
      hide Coherent, HeapOk, Abs, SavedDir, DirRecFits, SetNode, SameAt;
      DirValue(dn);
      Fields();
      SavedElsewhere(Abs(), dn.ino, entries);
      SavedDirOk(cfg, Abs(), m, own, dn.ino, entries);
      ok := SaveEntries(dn, entries);
      m := m';
      Fields();
    }

    lemma SavedElsewhere(s: State, p: nat, entries: seq<Dirent>)
      requires p in s.dirs && Ideal(cfg.aead)
      ensures forall u: UUID :: u != s.dirs[p].uuid ==> SameAt(s.disk, SavedDir(cfg, s, p, entries).disk, u)
    {
      hide Ideal, SealMetadata, Unparse, SameAt;
      var d := s.dirs[p].(entries := entries);
      PutFrame(s.disk, SavedDir(cfg, s, p, entries).disk, d.uuid, SealMetadata(cfg, d.uuid, DumpDir(d.Rec())));
    }

    /** save_metadata on the superinfo. */
    method SaveSuperinfo()
      requires HeapOk() && Ideal(cfg.aead)
      modifies this`disk
      ensures HeapOk() && Abs() == old(Abs()).(disk :=
        old(Abs()).disk[Unparse(sup.uuid) := SealMetadata(cfg, sup.uuid, DumpSuper(sup.Rec()))])
    {
      PutMetadata(sup.uuid, DumpSuper(sup.Rec()));
    }

    /** max_ino++. */
    method CountInode()
      requires HeapOk()
      modifies this`sup
      ensures sup == old(sup).(maxIno := old(sup).maxIno + 1)
      ensures HeapOk() && Abs() == old(Abs()).(sup := sup)
    {
      sup := sup.(maxIno := sup.maxIno + 1);
      assert Files() == old(Files()) && Dirs() == old(Dirs());
    }

    /** A node made from a record. */
    method MakeFile(uuid: UUID, rec: FileRec) returns (fn: Filenode)
      requires HeapOk()
      ensures HeapOk() && Abs() == old(Abs()) && fresh(fn)
      ensures fn.Val() == FileV(uuid, rec.ino, rec.size, rec.chunks, 0)
    {
      fn := new Filenode(uuid, rec);
      assert Files() == old(Files()) && Dirs() == old(Dirs());
    }

    method MakeDir(uuid: UUID, rec: DirRec) returns (dn: Dirnode)
      requires HeapOk()
      ensures HeapOk() && Abs() == old(Abs()) && fresh(dn)
      ensures dn.Val() == DirV(uuid, rec.ino, rec.name, rec.entries, 0)
    {
      dn := new Dirnode(uuid, rec);
      assert Files() == old(Files()) && Dirs() == old(Dirs());
    }

    /** refcount is set. */
    method CountFile(fn: Filenode, n: nat)
      requires HeapOk() && IsFile(fn)
      modifies fn`refcount
      ensures HeapOk() && fn.ino in old(Abs()).files
      ensures Abs() == old(Abs()).(files := old(Abs()).files[fn.ino := old(Abs()).files[fn.ino].(refcount := n)])
    {
      ghost var before := Files();
      fn.refcount := n;
      assert Files() == before[fn.ino := before[fn.ino].(refcount := n)];
    }

    method CountDir(dn: Dirnode, n: nat)
      requires HeapOk() && IsDir(dn)
      modifies dn`refcount
      ensures HeapOk() && dn.ino in old(Abs()).dirs
      ensures Abs() == old(Abs()).(dirs := old(Abs()).dirs[dn.ino := old(Abs()).dirs[dn.ino].(refcount := n)])
    {
      ghost var before := Dirs();
      dn.refcount := n;
      assert Dirs() == before[dn.ino := before[dn.ino].(refcount := n)];
    }

    method AddFileInode(uuid: UUID, ghost node: Node)
      requires HeapOk() && Ideal(cfg.aead) && sup.maxIno !in inodeMap && node.FileNode?
      modifies this`inodeMap, this`sup, this`disk
      ensures HeapOk() && Abs() == Added(cfg, old(Abs()), old(sup).maxIno, uuid, node)
      ensures fresh(FileObjs() - old(FileObjs())) && fresh(DirObjs() - old(DirObjs()))
      ensures sup == old(sup).(maxIno := old(sup).maxIno + 1)
    {
      hide HeapOk, Abs, SealMetadata, DumpSuper, DumpFile, DumpDir, Unparse, Ideal;
      Fields();
      var fn := MakeFile(uuid, FileRec(sup.maxIno, 0, []));
      InsertFile(fn);
      CountInode();
      CountFile(fn, fn.refcount + 1);
      SaveSuperinfo();
      Fields();
      var ok := SaveFilenode(fn);
    }

    method AddDirInode(uuid: UUID, name: Name, ghost node: Node)
      requires HeapOk() && Ideal(cfg.aead) && sup.maxIno !in inodeMap && node.DirNode? && node.name == name
      modifies this`inodeMap, this`sup, this`disk
      ensures HeapOk() && Abs() == Added(cfg, old(Abs()), old(sup).maxIno, uuid, node)
      ensures fresh(FileObjs() - old(FileObjs())) && fresh(DirObjs() - old(DirObjs()))
      ensures sup == old(sup).(maxIno := old(sup).maxIno + 1)
    {
      hide HeapOk, Abs, SealMetadata, DumpSuper, DumpFile, DumpDir, Unparse, Ideal;
      Fields();
      var dn := MakeDir(uuid, DirRec(sup.maxIno, name, []));
      InsertDir(dn);
      CountInode();
      CountDir(dn, dn.refcount + 1);
      SaveSuperinfo();
      Fields();
      var ok, plain := DumpDirnode(dn);
      PutMetadata(uuid, plain);
    }

    /** The new inode becomes resident with one reference, is counted, and is saved after the superinfo. */
    method AddInode(uuid: UUID, name: Name, isFile: bool, ghost node: Node) returns (ino: nat)
      requires uuid == node.uuid && isFile == node.FileNode? && (node.DirNode? ==> node.name == name) &&
        NewNode(node, uuid)
      requires Unused(Abs(), m, own, uuid)
      requires Coherently()
      modifies this`inodeMap, this`sup, this`disk, this`m, this`own
      ensures ino == old(m).maxIno && m == WithNode(old(m), node)
      ensures Coherently()
      ensures fresh(FileObjs() - old(FileObjs())) && fresh(DirObjs() - old(DirObjs()))
      ensures own == old(own)[uuid := Meta(ino)]
      ensures sup == old(sup).(maxIno := old(sup).maxIno + 1)
    {
      hide Coherent, HeapOk, Abs, Added;
      NewNumber();
      AddedOk(cfg, Abs(), m, own, uuid, node);
      ino := sup.maxIno;
      if isFile {
        AddFileInode(uuid, node);
      } else {
        AddDirInode(uuid, name, node);
      }
      m, own := WithNode(m, node), own[uuid := Meta(ino)];
    }

    /** The counter in memory is the file system's. */
    lemma SuperView()
      requires Valid()
      ensures sup.maxIno == FS().maxIno
    {
      assert SuperOk(cfg, Abs(), m);
      hide HeapOk, Coherent, TreeOk, ShapesOk, Abs;
      Fields();
      MaxInoView();
    }

    lemma NewNumber()
      requires Coherently() && m.maxIno >= 2 && forall i :: i in m.nodes ==> i < m.maxIno
      ensures sup.maxIno == m.maxIno && m.maxIno !in inodeMap
    {
      assert SuperOk(cfg, Abs(), m) && ResidencyOk(Abs(), m);
      MaxInoFree(Abs(), m, own);
      assert m.maxIno in inodeMap ==> m.maxIno in Abs().files || m.maxIno in Abs().dirs;
    }

    /** The new inode, as the disk alone gives it. */
    ghost predicate NewOnDisk(ino: nat, uuid: UUID, name: Name, isFile: bool)
      reads this`disk
      requires cfg.chunkSize > 0
    {
      if isFile then LoadFilenode(cfg, disk, uuid) == Some(FileRec(ino, 0, []))
      else LoadDirnode(cfg, disk, uuid) == Some(DirRec(ino, name, []))
    }

    lemma NewStored(ino: nat, uuid: UUID, parent: nat, name: Name, isFile: bool)
      requires |name| < MAX_PATH_LEN && ino in m.nodes && m.nodes[ino] == MadeNode(uuid, parent, name, isFile)
      requires Coherently()
      ensures NewOnDisk(ino, uuid, name, isFile)
    {
      hide Coherent, HeapOk, Abs, LoadFilenode, LoadDirnode;
      NewLoads(Abs(), ino, uuid, m.nodes[ino]);
      Fields();
    }

    lemma NodeAdded(m1: Model, node: Node)
      ensures m1.maxIno in WithNode(m1, node).nodes && WithNode(m1, node).nodes[m1.maxIno] == node
    {
    }

    lemma NewLoads(s: State, ino: nat, uuid: UUID, node: Node)
      requires Coherent(cfg, s, m, own) && ino in m.nodes && m.nodes[ino] == node && NewNode(node, uuid)
      ensures node.FileNode? ==> LoadFilenode(cfg, s.disk, uuid) == Some(FileRec(ino, 0, []))
      ensures node.DirNode? ==> LoadDirnode(cfg, s.disk, uuid) == Some(DirRec(ino, node.name, []))
    {
      hide GlobalOk, LoadFilenode, LoadDirnode, LoadCache, Ideal;
      assert NodeOk(cfg, s, own, ino, node);
    }

    /** mkdir and create differ in the kind of node they make. */
    ghost function MadeNode(uuid: UUID, parent: nat, name: Name, isFile: bool): Node {
      if isFile then FileNode(uuid, parent, 0, [], Quiet) else DirNode(uuid, parent, name, [])
    }

    /** What making a node needs of the model, and does to it. */
    lemma GrownIsMake(p: nat, name: Name, node: Node)
      requires Valid() && p in m.nodes && m.nodes[p].DirNode? && Fresh(m.nodes[p].entries, name) &&
        |name| < MAX_PATH_LEN
      requires m.maxIno + 1 < WORD && Resident(FS(), p) && node == MadeNode(node.uuid, p, name, node.FileNode?)
      ensures var m1 := SetNode(m, p, m.nodes[p].(entries := m.nodes[p].entries + [NewEntry(m, name, node)]));
        && DirRecFits(DirRec(p, m.nodes[p].name, m.nodes[p].entries + [NewEntry(m, name, node)]))
        && WithNode(m1, node) == Grown(m, p, name, node) && m1.maxIno == m.maxIno >= 2 && m1.nodes.Keys == m.nodes.Keys
        && (forall i :: i in m1.nodes ==> i < m1.maxIno)
      ensures var m' := Grown(m, p, name, node);
        && TreeOk(m') && ShapesOk(cfg.chunkSize, m')
        && DoMake(FS(), p, name, node.FileNode?) == (FlatOf(cfg.chunkSize, m'), Out(0, m.maxIno, []))
      ensures Descends(m, Grown(m, p, name, node))
    {
      hide Coherent, HeapOk, Abs, FlatOf, DirRecFits, Fresh, EntriesOk, FileShape, HasParent;
      var c, m' := cfg.chunkSize, Grown(m, p, name, node);
      GrownOk(m, p, name, node);
      FlatMake(c, m, p, name, node);
      GrownNodes(m, p, name, node);
      EmptyShapeIfFile(c, node);
      assert p < WORD;
      assert EntriesOk(m', p, m'.nodes[p].entries);
      DirFits(m', p, m.nodes[p].name, m'.nodes[p].entries);
    }

    lemma EmptyShapeIfFile(c: nat, node: Node)
      requires 0 < c < WORD && (node.FileNode? ==> node.size == 0 && node.pieces == [])
      ensures node.FileNode? ==> FileShape(c, node.size, node.pieces)
    {
      if node.FileNode? { EmptyShape(c, node); }
    }

    method Make(parent: nat, name: Name, isFile: bool) returns (err: int, ino: nat)
      requires Valid() && Known(FS(), parent) && |name| < MAX_PATH_LEN && FS().maxIno + 1 < WORD && |pool| >= 1
      modifies this`inodeMap, this`sup, this`disk, this`pool, this`m, this`own, DirObjs()`entries
      ensures Valid() && |pool| >= |old(pool)| - 1
      ensures (FS(), Out(err, ino, [])) == DoMake(old(FS()), parent, name, isFile)
      ensures fresh(FileObjs() - old(FileObjs())) && fresh(DirObjs() - old(DirObjs()))
      ensures Descends(old(m), m)
      ensures IdState() == MakeId(old(FS()), old(IdState()), Out(err, ino, []))
      ensures sup == old(sup).(maxIno := FS().maxIno)
      ensures err == 0 ==> NewOnDisk(ino, old(pool)[0], name, isFile)
    {
      hide Coherent, HeapOk, Abs, TreeOk, ShapesOk, FlatOf, Grown, WithNode, DirRecFits, Fresh, SetNode, NewOnDisk,
        MadeNode, Descends, Traced;
      DescendsSame(m);
      assert FS().maxIno == m.maxIno by { MaxInoView(); }
      SuperView();
      var present, dn := FindDir(parent);
      if !present {
        return ENOENT, 0;
      }
      if dn == null {
        return ENOTDIR, 0;
      }
      var k := FindEntry(dn, name);
      NameFound(parent, dn.entries, name, k);
      if k < |dn.entries| {
        return EEXIST, 0;
      }
      ghost var uuid := pool[0];
      ino := MakeAt(dn, name, isFile);
      NewStored(ino, uuid, parent, name, isFile);
      err := 0;
    }

    /** The new entry goes to the end of the parent, which is saved; then the new inode is added. */
    method MakeAt(dn: Dirnode, name: Name, isFile: bool) returns (ino: nat)
      requires Valid() && |name| < MAX_PATH_LEN && FS().maxIno + 1 < WORD && |pool| >= 1
      requires IsDir(dn) && OpenDir(Abs(), m, dn.ino) && dn.entries == m.nodes[dn.ino].entries &&
        Fresh(dn.entries, name)
      requires Resident(FS(), dn.ino)
      modifies this`inodeMap, this`sup, this`disk, this`pool, this`m, this`own, dn`entries
      ensures Valid() && |pool| >= |old(pool)| - 1
      ensures (FS(), Out(0, ino, [])) == DoMake(old(FS()), dn.ino, name, isFile)
      ensures fresh(FileObjs() - old(FileObjs())) && fresh(DirObjs() - old(DirObjs()))
      ensures Descends(old(m), m)
      ensures IdState() == MakeId(old(FS()), old(IdState()), Out(0, ino, []))
      ensures sup == old(sup).(maxIno := FS().maxIno)
      ensures ino in m.nodes && m.nodes[ino] == MadeNode(old(pool)[0], dn.ino, name, isFile)
    {
      hide Descends, Traced, Coherent, HeapOk, Abs, TreeOk, ShapesOk, FlatOf, Grown, WithNode, DirRecFits, Fresh,
        SetNode, DoMake, NewEntry;
      assert FS().maxIno == m.maxIno by { MaxInoView(); }
      ghost var m0, node := m, MadeNode(pool[0], dn.ino, name, isFile);
      GrownIsMake(dn.ino, name, node);
      var uuid := NameInode(dn, name, isFile, node);
      ghost var m1 := m;
      ino := AddInode(uuid, name, isFile, node);
      NodeAdded(m1, node);
      SuperView();
    }

    /** An identifier is drawn, and the new entry goes to the end of the parent, which is saved. */
    method NameInode(dn: Dirnode, name: Name, isFile: bool, ghost node: Node) returns (uuid: UUID)
      requires pool != [] && node == MadeNode(pool[0], dn.ino, name, isFile)
      requires dn.ino in m.nodes && m.nodes[dn.ino].DirNode? && dn.entries == m.nodes[dn.ino].entries
      requires DirRecFits(DirRec(dn.ino, m.nodes[dn.ino].name, dn.entries + [NewEntry(m, name, node)]))
      requires 2 <= m.maxIno && m.maxIno + 1 < WORD && forall i :: i in m.nodes ==> i < m.maxIno
      requires IsDir(dn) && Coherently()
      modifies this`disk, this`pool, this`m, dn`entries
      ensures uuid == old(pool)[0] && pool == old(pool)[1..] && Unused(Abs(), m, own, uuid)
      ensures var e := NewEntry(old(m), name, node);
        m == SetNode(old(m), dn.ino, old(m).nodes[dn.ino].(entries := old(dn.entries) + [e]))
      ensures Coherently()
    {
      hide Traced, Coherent, HeapOk, Abs, DirRecFits, SameAt;
      Fields();
      DrawnOk(cfg, Abs(), m, own);
      NewNumber();
      uuid := GenRand();
      var e := Dirent(sup.maxIno, name, if isFile then T_DT_REG else T_DT_DIR, uuid);
      ghost var m1 := SetNode(m, dn.ino, m.nodes[dn.ino].(entries := dn.entries + [e]));
      var ok := ChangeEntries(dn, dn.entries + [e], m1);
      Fields();
    }

    lemma MaxInoView()
      requires cfg.chunkSize > 0
      ensures FS().maxIno == m.maxIno && FS().refs == m.refs
    {
    }

    /** What the search over the entries says about the directory. */
    lemma NameFound(p: nat, es: seq<Dirent>, name: Name, k: nat)
      requires cfg.chunkSize > 0 && TreeOk(m) && p in m.nodes && m.nodes[p].DirNode? && es == m.nodes[p].entries
      requires k <= |es| && (k < |es| ==> es[k].name == name) && (k == |es| ==> Fresh(es, name))
      ensures p in FS().dirs && (name in FS().dirs[p] <==> k < |es|)
      ensures k < |es| ==> FS().dirs[p][name] == es[k].ino && EntryOk(m, p, es[k])
    {
      FlatEntry(cfg.chunkSize, m, p, name);
      hide TreeOk, FlatOf, EntryOk;
    }

    method Mkdir(parent: nat, name: Name) returns (err: int, ino: nat)
      requires Valid() && Legal(cfg.chunkSize, FS(), Op.Mkdir(parent, name)) && |pool| >= 1
      modifies this`inodeMap, this`sup, this`disk, this`pool, this`m, this`own, DirObjs()`entries
      ensures Valid() && |pool| >= |old(pool)| - 1
      ensures (FS(), Out(err, ino, [])) == DoMake(old(FS()), parent, name, false)
      ensures fresh(FileObjs() - old(FileObjs())) && fresh(DirObjs() - old(DirObjs()))
      ensures Descends(old(m), m)
      ensures IdState() == IdStep(cfg.chunkSize, old(FS()), old(IdState()), Op.Mkdir(parent, name))
      ensures sup == old(sup).(maxIno := FS().maxIno)
      ensures err == 0 ==> LoadDirnode(cfg, disk, old(pool)[0]) == Some(DirRec(ino, name, []))
    {
      err, ino := Make(parent, name, false);
    }

    method Create(parent: nat, name: Name) returns (err: int, ino: nat)
      requires Valid() && Legal(cfg.chunkSize, FS(), Op.Create(parent, name)) && |pool| >= 1
      modifies this`inodeMap, this`sup, this`disk, this`pool, this`m, this`own, DirObjs()`entries
      ensures Valid() && |pool| >= |old(pool)| - 1
      ensures (FS(), Out(err, ino, [])) == DoMake(old(FS()), parent, name, true)
      ensures fresh(FileObjs() - old(FileObjs())) && fresh(DirObjs() - old(DirObjs()))
      ensures Descends(old(m), m)
      ensures IdState() == IdStep(cfg.chunkSize, old(FS()), old(IdState()), Op.Create(parent, name))
      ensures sup == old(sup).(maxIno := FS().maxIno)
      ensures err == 0 ==> LoadFilenode(cfg, disk, old(pool)[0]) == Some(FileRec(ino, 0, []))
    {
      err, ino := Make(parent, name, true);
    }

    // ---------- ecall_fs_unlink, ecall_fs_rmdir ----------

    /** remove_metadata. */
    method RemoveMetadata(uuid: UUID)
      requires HeapOk()
      modifies this`disk
      ensures HeapOk() && Abs() == old(Abs()).(disk := old(Abs()).disk - {Unparse(uuid)})
    {
      hide Unparse;
      RemoveFile(uuid);
      assert Files() == old(Files()) && Dirs() == old(Dirs());
    }

    /** A file's metadata is removed, and every chunk in its stored table. */
    method DropFile(uuid: UUID, chunks: seq<Chunk>, ghost ino: nat)
      requires ino in m.nodes && ino != 1 && uuid == m.nodes[ino].uuid
      requires Coherently() && Removable(Abs(), own, ino, uuid, chunks)
      modifies this`disk, this`m, this`own
      ensures m == WithoutNode(old(m), ino) && Coherently()
      ensures BlobsGone(old(own), old(disk), disk, ino)
      ensures own == DropOwned(old(own), ino)
    {
      hide Coherent, HeapOk, Abs, Removable, BlobsGone, RemoveChunks, Unparse;
      Fields();
      AllRemoved(Abs(), ino, uuid, chunks);
      RemovedNodeOk(cfg, Abs(), m, own, ino, chunks);
      RemoveMetadata(uuid);
      TakeOff(chunks);
      m, own := WithoutNode(m, ino), DropOwned(own, ino);
      Fields();
    }

    /** From `d` to `d'` all blobs of inode `ino` have gone, and those of no other thing. */
    ghost predicate BlobsGone(own: Owners, d: Disk, d': Disk, ino: nat) {
      forall u :: u in own ==> if Owns(own[u], ino) then Unparse(u) !in d' else SameAt(d, d', u)
    }

    lemma AllRemoved(s: State, ino: nat, uuid: UUID, chunks: seq<Chunk>)
      requires Coherent(cfg, s, m, own) && ino in m.nodes && uuid == m.nodes[ino].uuid
      requires Removable(s, own, ino, uuid, chunks)
      ensures BlobsGone(own, s.disk, RemovedNode(s, uuid, chunks).disk, ino)
    {
      hide Coherent, Removable, Unparse, RemovedNode;
      Metas(s);
      forall u | u in own
        ensures if Owns(own[u], ino) then Unparse(u) !in RemovedNode(s, uuid, chunks).disk
          else SameAt(s.disk, RemovedNode(s, uuid, chunks).disk, u)
      {
        RemovedPrecisely(s, own, ino, uuid, chunks, u);
      }
    }

    lemma Metas(s: State)
      requires Coherent(cfg, s, m, own)
      ensures NULL !in own
      ensures forall u :: u in own && own[u].Meta? ==> own[u].ino in m.nodes && m.nodes[own[u].ino].uuid == u
    {
      assert OwnersOk(s, m, own);
      hide Coherent, NoDup;
    }

    lemma DirOwned(dn: Dirnode)
      requires Coherently() && IsDir(dn) && OpenDir(Abs(), m, dn.ino)
      ensures dn.uuid in own && own[dn.uuid] == Meta(dn.ino)
    {
      DirValue(dn);
      assert NodeOk(cfg, Abs(), own, dn.ino, m.nodes[dn.ino]);
      hide LoadDirnode, GlobalOk;
    }

    /** Saving the parent brings none of them back, and changes no other blob. */
    ghost predicate GoneBut(own: Owners, d: Disk, d': Disk, ino: nat, parent: nat) {
      forall u :: u in own ==>
        if Owns(own[u], ino) then Unparse(u) !in d' else own[u] != Meta(parent) ==> SameAt(d, d', u)
    }

    lemma GoneThenSaved(own: Owners, d: Disk, d1: Disk, d2: Disk, ino: nat, parent: nat, uuid: UUID)
      requires BlobsGone(own, d, d1, ino) && ino != parent && uuid in own && own[uuid] == Meta(parent)
      requires forall u: UUID :: u != uuid ==> SameAt(d1, d2, u)
      ensures GoneBut(own, d, d2, ino, parent)
    {
      hide Unparse;
      forall u | u in own
        ensures if Owns(own[u], ino) then Unparse(u) !in d2 else own[u] != Meta(parent) ==> SameAt(d, d2, u)
      {
        if u != uuid { assert SameAt(d1, d2, u); }
      }
    }

    /** A directory's metadata is removed. */
    method DropDir(uuid: UUID, ghost ino: nat)
      requires ino in m.nodes && ino != 1 && uuid == m.nodes[ino].uuid
      requires Coherently() && Removable(Abs(), own, ino, uuid, [])
      modifies this`disk, this`m, this`own
      ensures m == WithoutNode(old(m), ino) && Coherently()
      ensures BlobsGone(old(own), old(disk), disk, ino)
      ensures own == DropOwned(old(own), ino)
    {
      hide Coherent, HeapOk, Abs, Removable, BlobsGone, Unparse;
      Fields();
      AllRemoved(Abs(), ino, uuid, []);
      RemovedNodeOk(cfg, Abs(), m, own, ino, []);
      RemoveMetadata(uuid);
      m, own := WithoutNode(m, ino), DropOwned(own, ino);
      Fields();
    }

    /** What an entry says about the inode it names. */
    lemma EntryNamesNode(p: nat, k: nat)
      requires cfg.chunkSize > 0 && TreeOk(m) && p in m.nodes && m.nodes[p].DirNode? && k < |m.nodes[p].entries|
      ensures var e := m.nodes[p].entries[k];
        && p < e.ino < m.maxIno && 1 < e.ino && e.ino in m.nodes && m.nodes[e.ino].uuid == e.uuid
        && (if m.nodes[e.ino].FileNode? then e.kind == T_DT_REG else e.kind == T_DT_DIR)
        && (e.ino in FS().dirs <==> m.nodes[e.ino].DirNode?)
        && (e.ino in FS().files <==> m.nodes[e.ino].FileNode?)
        && (m.nodes[e.ino].FileNode? ==> FS().files[e.ino].status == m.nodes[e.ino].status)
        && (m.nodes[e.ino].DirNode? ==> (FS().dirs[e.ino] == map[] <==> m.nodes[e.ino].entries == []))
    {
      var e := m.nodes[p].entries[k];
      assert EntryOk(m, p, e) by { assert EntriesOk(m, p, m.nodes[p].entries); }
      FlatKinds(cfg.chunkSize, m, e.ino);
      if m.nodes[e.ino].DirNode? { FlatEmpty(cfg.chunkSize, m, e.ino); }
      hide FlatOf, EntriesOk, HasParent;
    }

    /** What removing an entry and its inode needs of the model, and does to it. */
    lemma PrunedIsRemoval(p: nat, k: nat)
      requires Valid() && p in m.nodes && m.nodes[p].DirNode? && k < |m.nodes[p].entries| && Resident(FS(), p)
      requires var e := m.nodes[p].entries[k]; e.ino in m.nodes && Leaf(m.nodes[e.ino])
      ensures var e, es := m.nodes[p].entries[k], CutAt(m.nodes[p].entries, k);
        && p in WithoutNode(m, e.ino).nodes && WithoutNode(m, e.ino).nodes[p] == m.nodes[p]
        && DirRecFits(DirRec(p, m.nodes[p].name, es))
        && Pruned(m, p, k) == SetNode(WithoutNode(m, e.ino), p, m.nodes[p].(entries := es))
      ensures var e, m' := m.nodes[p].entries[k], Pruned(m, p, k);
        && TreeOk(m') && ShapesOk(cfg.chunkSize, m')
        && (if m.nodes[e.ino].FileNode? then DoUnlink(FS(), p, e.name) else DoRmdir(FS(), p, e.name))
           == (FlatOf(cfg.chunkSize, m'), DONE)
      ensures Descends(m, Pruned(m, p, k))
    {
      hide Coherent, HeapOk, Abs, FlatOf, DirRecFits, EntriesOk, FileShape, HasParent, CutAt;
      EntryNamesNode(p, k);
      PrunedOk(m, p, k);
      FlatPrune(cfg.chunkSize, m, p, k);
      PrunedNodes(m, p, k);
      var m', es := Pruned(m, p, k), CutAt(m.nodes[p].entries, k);
      assert EntriesOk(m', p, m'.nodes[p].entries);
      DirFits(m', p, m.nodes[p].name, es);
    }

    method Unlink(parent: nat, name: Name) returns (err: int)
      requires Valid() && Legal(cfg.chunkSize, FS(), Op.Unlink(parent, name))
      modifies this`disk, this`m, this`own, DirObjs()`entries
      ensures Valid()
      ensures (FS(), Fail(err)) == DoUnlink(old(FS()), parent, name)
      ensures Descends(old(m), m)
      ensures err != 0 ==> disk == old(disk)
      ensures err == 0 ==> GoneBut(old(own), old(disk), disk, old(FS()).dirs[parent][name], parent)
      ensures IdState() == IdStep(cfg.chunkSize, old(FS()), old(IdState()), Op.Unlink(parent, name))
    {
      hide Coherent, HeapOk, Abs, TreeOk, ShapesOk, FlatOf, Pruned, WithoutNode, DirRecFits, Fresh, SetNode,
        Removable, BlobsGone, GoneBut, SameAt, LoadFilenode;
      var present, dn := FindDir(parent);
      if !present {
        return ENOENT;
      }
      if dn == null {
        return ENOTDIR;
      }
      var k := FindEntry(dn, name);
      NameFound(parent, dn.entries, name, k);
      if k == |dn.entries| {
        return ENOENT;
      }
      var e := dn.entries[k];
      EntryNamesNode(parent, k);
      if e.kind == T_DT_DIR {
        return EISDIR;
      }
      QuietStored(cfg, Abs(), m, own, e.ino);
      PrunedIsRemoval(parent, k);
      Fields();
      var r := LoadFilenode(cfg, disk, e.uuid);
      if r.None? {
        return EACCES;
      }
      ghost var m', d, o := Pruned(m, parent, k), disk, own;
      DirOwned(dn);
      DropFile(e.uuid, r.value.chunks, e.ino);
      ghost var d1 := disk;
      var ok := ChangeEntries(dn, CutAt(dn.entries, k), m');
      if !ok {
        return EACCES;
      }
      GoneThenSaved(o, d, d1, disk, e.ino, parent, dn.uuid);
      err := 0;
    }

    method Rmdir(parent: nat, name: Name) returns (err: int)
      requires Valid() && Legal(cfg.chunkSize, FS(), Op.Rmdir(parent, name))
      modifies this`disk, this`m, this`own, DirObjs()`entries
      ensures Valid()
      ensures (FS(), Fail(err)) == DoRmdir(old(FS()), parent, name)
      ensures Descends(old(m), m)
      ensures err != 0 ==> disk == old(disk)
      ensures err == 0 ==> GoneBut(old(own), old(disk), disk, old(FS()).dirs[parent][name], parent)
      ensures IdState() == IdStep(cfg.chunkSize, old(FS()), old(IdState()), Op.Rmdir(parent, name))
    {
      hide Coherent, HeapOk, Abs, TreeOk, ShapesOk, FlatOf, Pruned, WithoutNode, DirRecFits, Fresh, SetNode,
        Removable, BlobsGone, GoneBut, SameAt, LoadDirnode;
      var present, dn := FindDir(parent);
      if !present {
        return ENOENT;
      }
      if dn == null {
        return ENOTDIR;
      }
      var k := FindEntry(dn, name);
      NameFound(parent, dn.entries, name, k);
      if k == |dn.entries| {
        return ENOENT;
      }
      var e := dn.entries[k];
      EntryNamesNode(parent, k);
      if e.kind != T_DT_DIR {
        return ENOTDIR;
      }
      DirRemovable(cfg, Abs(), m, own, e.ino);
      Fields();
      var r := LoadDirnode(cfg, disk, e.uuid);
      if r.None? {
        return EACCES;
      }
      if |r.value.entries| != 0 {
        return ENOTEMPTY;
      }
      PrunedIsRemoval(parent, k);
      ghost var m', d, o := Pruned(m, parent, k), disk, own;
      DirOwned(dn);
      DropDir(e.uuid, e.ino);
      ghost var d1 := disk;
      var ok := ChangeEntries(dn, CutAt(dn.entries, k), m');
      if !ok {
        return EACCES;
      }
      GoneThenSaved(o, d, d1, disk, e.ino, parent, dn.uuid);
      err := 0;
    }

    // ---------- ecall_fs_lookup, ecall_fs_forget ----------

    ghost predicate InMap(inode: Inode)
      reads this`inodeMap
    {
      InoOf(inode) in inodeMap && inodeMap[InoOf(inode)] == inode
    }

    /** The inode becomes resident, if it is not. */
    ghost function Fetched(s: State, ino: nat, node: Node): State
      requires cfg.chunkSize > 0
    {
      if ino in s.files || ino in s.dirs then s
      else if node.FileNode? then
        match LoadFilenode(cfg, s.disk, node.uuid)
        case None => s
        case Some(r) => s.(files := s.files[ino := FileV(node.uuid, r.ino, r.size, r.chunks, 0)])
      else
        match LoadDirnode(cfg, s.disk, node.uuid)
        case None => s
        case Some(r) => s.(dirs := s.dirs[ino := DirV(node.uuid, r.ino, r.name, r.entries, 0)])
    }

    /** A node that is not resident loads from the disk, under the number its entry gives. */
    ghost predicate Fetchable(s: State, ino: nat, node: Node)
      requires cfg.chunkSize > 0
    {
      && (ino in s.files ==> node.FileNode?) && (ino in s.dirs ==> node.DirNode? && ino !in s.files)
      && (ino !in s.files && ino !in s.dirs && node.FileNode? ==>
            LoadFilenode(cfg, s.disk, node.uuid).Some? && LoadFilenode(cfg, s.disk, node.uuid).value.ino == ino)
      && (ino !in s.files && ino !in s.dirs && node.DirNode? ==>
            LoadDirnode(cfg, s.disk, node.uuid).Some? && LoadDirnode(cfg, s.disk, node.uuid).value.ino == ino)
    }

    ghost predicate EntryNames(e: Dirent, node: Node) {
      e.uuid == node.uuid && e.kind == (if node.FileNode? then T_DT_REG else T_DT_DIR)
    }

    /** The inode of an entry: the resident one, or else the stored one. */
    method Fetch(e: Dirent, ghost node: Node) returns (err: int, found: Option<Inode>)
      requires cfg.chunkSize > 0 && HeapOk() && Fetchable(Abs(), e.ino, node) && EntryNames(e, node)
      modifies this`inodeMap
      ensures HeapOk() && Abs() == Fetched(old(Abs()), e.ino, node)
      ensures err == 0 && found.Some? && InMap(found.value) && InoOf(found.value) == e.ino
      ensures found.value.File? ==> found.value.fn in old(FileObjs()) || fresh(found.value.fn)
      ensures found.value.Dir? ==> found.value.dn in old(DirObjs()) || fresh(found.value.dn)
      ensures fresh(FileObjs() - old(FileObjs())) && fresh(DirObjs() - old(DirObjs()))
    {
      hide LoadFilenode, LoadDirnode, HeapOk, Abs;
      Fields();
      MapView(e.ino);
      if e.ino in inodeMap {
        return 0, Some(inodeMap[e.ino]);
      }
      if e.kind == T_DT_DIR {
        var r := LoadDirnode(cfg, disk, e.uuid);
        if r.None? {
          return ENONET, None;
        }
        var dn := MakeDir(e.uuid, r.value);
        InsertDir(dn);
        return 0, Some(Dir(dn));
      }
      if e.kind != T_DT_REG {
        return ENOENT, None;
      }
      var r := LoadFilenode(cfg, disk, e.uuid);
      if r.None? {
        return ENONET, None;
      }
      var fn := MakeFile(e.uuid, r.value);
      InsertFile(fn);
      return 0, Some(File(fn));
    }

    lemma MapView(ino: nat)
      requires HeapOk()
      ensures ino in inodeMap <==> ino in Abs().files || ino in Abs().dirs
      ensures ino in inodeMap ==> InoOf(inodeMap[ino]) == ino && InMap(inodeMap[ino])
      ensures ino in inodeMap && inodeMap[ino].File? ==>
        inodeMap[ino].fn in FileObjs() && ino in Abs().files &&
        ino !in Abs().dirs && Abs().files[ino] == inodeMap[ino].fn.Val()
      ensures ino in inodeMap && inodeMap[ino].Dir? ==>
        inodeMap[ino].dn in DirObjs() && ino in Abs().dirs &&
        ino !in Abs().files && Abs().dirs[ino] == inodeMap[ino].dn.Val()
    {
    }

    /** refcount++. */
    ghost function Counted(s: State, ino: nat): State {
      if ino in s.files then s.(files := s.files[ino := s.files[ino].(refcount := s.files[ino].refcount + 1)])
      else if ino in s.dirs then s.(dirs := s.dirs[ino := s.dirs[ino].(refcount := s.dirs[ino].refcount + 1)])
      else s
    }

    method AddReference(inode: Inode)
      requires HeapOk() && InMap(inode)
      modifies (if inode.File? then {inode.fn} else {})`refcount, (if inode.Dir? then {inode.dn} else {})`refcount
      ensures HeapOk() && Abs() == Counted(old(Abs()), InoOf(inode))
    {
      hide HeapOk, Abs;
      MapView(InoOf(inode));
      match inode
      case File(fn) =>
        FileValue(fn);
        CountFile(fn, fn.refcount + 1);
      case Dir(dn) =>
        DirValue(dn);
        CountDir(dn, dn.refcount + 1);
    }

    lemma FetchedCounts(s: State, ino: nat, node: Node)
      requires cfg.chunkSize > 0 && Fetchable(s, ino, node)
      ensures Counted(Fetched(s, ino, node), ino) == Referenced(cfg, s, ino, node)
    {
      hide LoadFilenode, LoadDirnode;
      var s' := Fetched(s, ino, node);
      if ino !in s.files && ino !in s.dirs {
        if node.FileNode? {
          assert s'.files[ino := s'.files[ino].(refcount := 1)] == s.files[ino := s'.files[ino].(refcount := 1)];
        } else {
          assert s'.dirs[ino := s'.dirs[ino].(refcount := 1)] == s.dirs[ino := s'.dirs[ino].(refcount := 1)];
        }
      }
    }

    /** What looking up an entry needs of the state, and does to it. */
    lemma FetchableAndCounted(ino: nat)
      requires Coherently() && ino in m.nodes && 1 < ino < m.maxIno
      ensures Fetchable(Abs(), ino, m.nodes[ino])
      ensures Coherent(cfg, Referenced(cfg, Abs(), ino, m.nodes[ino]), WithRef(m, ino), own)
    {
      hide HeapOk, Abs, Referenced, LoadFilenode, LoadDirnode, Coherent;
      var s := Abs();
      ReferencedOk(cfg, s, m, own, ino);
      StoredLoadsIfAway(cfg, s, m, own, ino);
      if ino !in s.files && ino !in s.dirs {
        StoredLoads(cfg, s, m, own, ino);
      } else {
        OneKind(s, ino);
      }
    }

    lemma OneKind(s: State, ino: nat)
      requires Coherent(cfg, s, m, own)
      ensures !(ino in s.files && ino in s.dirs)
    {
      assert ResidencyOk(s, m);
    }

    /** What looking up an entry does to the model. */
    lemma WithRefIsLookup(p: nat, k: nat)
      requires cfg.chunkSize > 0 && TreeOk(m) && ShapesOk(cfg.chunkSize, m)
      requires p in m.nodes && m.nodes[p].DirNode? && k < |m.nodes[p].entries| && Resident(FS(), p)
      requires p in FS().dirs && m.nodes[p].entries[k].name in FS().dirs[p]
      requires FS().dirs[p][m.nodes[p].entries[k].name] == m.nodes[p].entries[k].ino
      ensures var e := m.nodes[p].entries[k];
        && TreeOk(WithRef(m, e.ino)) && ShapesOk(cfg.chunkSize, WithRef(m, e.ino))
        && DoLookup(FS(), p, e.name) == (FlatOf(cfg.chunkSize, WithRef(m, e.ino)), Out(0, e.ino, []))
      ensures Descends(m, WithRef(m, m.nodes[p].entries[k].ino))
    {
      hide EntriesOk, FileShape, HasParent;
      var e := m.nodes[p].entries[k];
      SameNodesOk(m, WithRef(m, e.ino));
      FlatRefs(cfg.chunkSize, m, WithRef(m, e.ino).refs);
      MaxInoView();
      hide FlatOf, TreeOk;
    }

    method Lookup(parent: nat, name: Name) returns (err: int, ino: nat)
      requires Valid() && Legal(cfg.chunkSize, FS(), Op.Lookup(parent, name))
      modifies this`inodeMap, this`m, FileObjs()`refcount, DirObjs()`refcount
      ensures Valid()
      ensures (FS(), Out(err, ino, [])) == DoLookup(old(FS()), parent, name)
      ensures fresh(FileObjs() - old(FileObjs())) && fresh(DirObjs() - old(DirObjs()))
      ensures Descends(old(m), m)
      ensures IdState() == IdStep(cfg.chunkSize, old(FS()), old(IdState()), Op.Lookup(parent, name))
    {
      hide Coherent, HeapOk, Abs, TreeOk, ShapesOk, FlatOf, Fresh, Referenced, Fetchable, WithRef;
      ino := 0;
      var present, dn := FindDir(parent);
      if !present || dn == null {
        return ENOENT, ino;
      }
      var k := FindEntry(dn, name);
      NameFound(parent, dn.entries, name, k);
      if k == |dn.entries| {
        return ENOENT, ino;
      }
      var e := dn.entries[k];
      EntryNamesNode(parent, k);
      WithRefIsLookup(parent, k);
      err := Acquire(e);
      if err != 0 {
        return err, ino;
      }
      ino := e.ino;
    }

    /** The inode an entry names counts one more reference. */
    method Acquire(e: Dirent) returns (err: int)
      requires e.ino in m.nodes && 1 < e.ino < m.maxIno && EntryNames(e, m.nodes[e.ino])
      requires Coherently()
      modifies this`inodeMap, this`m, FileObjs()`refcount, DirObjs()`refcount
      ensures err == 0 && m == WithRef(old(m), e.ino) && Coherently()
      ensures fresh(FileObjs() - old(FileObjs())) && fresh(DirObjs() - old(DirObjs()))
    {
      hide Coherent, HeapOk, Abs, Referenced, Fetchable, Fetched, Counted, WithRef;
      FetchableAndCounted(e.ino);
      ghost var m' := WithRef(m, e.ino);
      FetchedCounts(Abs(), e.ino, m.nodes[e.ino]);
      var found;
      err, found := Fetch(e, m.nodes[e.ino]);
      if err != 0 || found.None? {
        return err;
      }
      if InoOf(found.value) != e.ino {
        return ENOENT;
      }
      AddReference(found.value);
      m := m';
      err := 0;
    }

    /** inode_map.erase, for an inode no cached chunk belongs to. */
    method EraseInode(ino: nat)
      requires HeapOk() && ino in inodeMap && forall k :: k in Abs().at ==> Abs().at[k].ino != ino
      modifies this`inodeMap
      ensures HeapOk() && Abs() == old(Abs()).(files := old(Abs()).files - {ino}, dirs := old(Abs()).dirs - {ino})
      ensures fresh(FileObjs() - old(FileObjs())) && fresh(DirObjs() - old(DirObjs()))
    {
      hide Bijection;
      ghost var files, dirs := Files(), Dirs();
      NoEntryInStore(ino);
      inodeMap := inodeMap - {ino};
      assert Files() == files - {ino};
      assert Dirs() == dirs - {ino};
    }

    lemma NoEntryInStore(ino: nat)
      requires forall k :: k in Abs().at ==> Abs().at[k].ino != ino
      ensures forall k :: k in store.Entries() ==> store.Entries()[k].filenode.ino != ino
    {
      var es := store.Entries();
      hide HeapOk;
      forall k | k in es ensures es[k].filenode.ino != ino {
        assert k in Abs().at && Abs().at[k] == EntryOf(es[k]);
      }
    }

    /** An inode that may be dropped has no cached chunk. */
    lemma DroppableUncached(s: State, m': Model, ino: nat, n: nat)
      requires Coherent(cfg, Forgotten(s, ino, n), m', own) && (ino in s.files ==> s.files[ino].refcount <= n)
      requires ino in s.files || ino in s.dirs
      requires Coherent(cfg, s, m, own)
      ensures forall k :: k in s.at ==> s.at[k].ino != ino
    {
      var s' := Forgotten(s, ino, n);
      OneKind(s, ino);
      assert CacheOk(s', own) && CacheOk(s, own);
      hide Coherent;
    }

    /** What giving references back does to the model. */
    lemma WithoutRefsIsForget(ino: nat, n: nat)
      requires cfg.chunkSize > 0 && TreeOk(m) && ShapesOk(cfg.chunkSize, m) && ino != 1 && ino in m.refs
      ensures var m' := WithoutRefs(m, ino, n);
        && TreeOk(m') && ShapesOk(cfg.chunkSize, m')
        && DoForget(FS(), ino, n) == (FlatOf(cfg.chunkSize, m'), Out(m.refs[ino] - n, 0, []))
      ensures Descends(m, WithoutRefs(m, ino, n))
    {
      hide EntriesOk, FileShape, HasParent;
      var m' := WithoutRefs(m, ino, n);
      SameNodesOk(m, m');
      FlatRefs(cfg.chunkSize, m, m'.refs);
      MaxInoView();
      hide FlatOf, TreeOk;
    }

    /** A resident inode other than the root is counted as often as it is referred to. */
    lemma ResidentCounted(ino: nat)
      requires Coherently() && ino != 1
      ensures ino in inodeMap <==> ino in m.refs
      ensures ino in m.refs ==>
        RefsOf(m, ino) == (match inodeMap[ino] case File(fn) => fn.refcount case Dir(dn) => dn.refcount)
    {
      MapView(ino);
      assert ResidencyOk(Abs(), m);
      hide HeapOk, Coherent, Abs;
    }

    /** The remaining count is stored, or the inode leaves the map. */
    method Release(inode: Inode, n: nat, remain: int)
      requires HeapOk() && InMap(inode)
      requires remain == (match inode case File(fn) => fn.refcount case Dir(dn) => dn.refcount) - n
      requires remain <= 0 ==> forall k :: k in Abs().at ==> Abs().at[k].ino != InoOf(inode)
      modifies this`inodeMap
      modifies (if inode.File? then {inode.fn} else {})`refcount, (if inode.Dir? then {inode.dn} else {})`refcount
      ensures HeapOk() && Abs() == Forgotten(old(Abs()), InoOf(inode), n)
      ensures fresh(FileObjs() - old(FileObjs())) && fresh(DirObjs() - old(DirObjs()))
    {
      hide HeapOk, Abs;
      ghost var s, ino := Abs(), InoOf(inode);
      MapView(ino);
      if remain <= 0 {
        EraseInode(InoOf(inode));
        assert inode.File? ==> s.dirs - {ino} == s.dirs;
        assert inode.Dir? ==> s.files - {ino} == s.files;
        return;
      }
      match inode
      case File(fn) =>
        FileValue(fn);
        CountFile(fn, remain);
      case Dir(dn) =>
        DirValue(dn);
        CountDir(dn, remain);
    }

    /** References to a resident inode given back. What remains of the count is the result, an `int`. */
    method Relinquish(ino: nat, n: nat) returns (remain: int)
      requires ino != 1 && ino in inodeMap && n < 0x8000_0000 && RefsOf(m, ino) < 0x8000_0000
      requires ino in m.nodes && m.nodes[ino].FileNode? && RefsOf(m, ino) <= n ==> m.nodes[ino].status == Quiet
      requires Coherently()
      modifies this`inodeMap, this`m, FileObjs()`refcount, DirObjs()`refcount
      ensures ino in old(m).refs && remain == old(m).refs[ino] - n && m == WithoutRefs(old(m), ino, n)
      ensures Coherently()
      ensures fresh(FileObjs() - old(FileObjs())) && fresh(DirObjs() - old(DirObjs()))
    {
      hide Coherent, HeapOk, Abs, Traced, Forgotten, WithoutRefs;
      MapView(ino);
      ResidentCounted(ino);
      var inode := inodeMap[ino];
      var count := match inode case File(fn) => fn.refcount case Dir(dn) => dn.refcount;
      remain := Int32(count - n);
      ghost var m' := WithoutRefs(m, ino, n);
      ForgottenOk(cfg, Abs(), m, own, ino, n);
      if remain <= 0 {
        DroppableUncached(Abs(), m', ino, n);
      }
      Release(inode, n, remain);
      m := m';
    }

    method Forget(ino: nat, n: nat) returns (remain: int)
      requires Valid() && Legal(cfg.chunkSize, FS(), Op.Forget(ino, n))
      modifies this`inodeMap, this`m, FileObjs()`refcount, DirObjs()`refcount
      ensures Valid()
      ensures (FS(), Fail(remain)) == DoForget(old(FS()), ino, n)
      ensures fresh(FileObjs() - old(FileObjs())) && fresh(DirObjs() - old(DirObjs()))
      ensures Descends(old(m), m)
      ensures IdState() == IdStep(cfg.chunkSize, old(FS()), old(IdState()), Op.Forget(ino, n))
    {
      hide Coherent, HeapOk, Abs, TreeOk, ShapesOk, FlatOf, Traced, WithoutRefs, Descends;
      DescendsSame(m);
      MaxInoView();
      ResidentCounted(ino);
      if ino !in inodeMap {
        return ENOENT;
      }
      FlatKinds(cfg.chunkSize, m, ino);
      WithoutRefsIsForget(ino, n);
      remain := Relinquish(ino, n);
    }

    // ---------- ecall_mount_volume ----------

    /** A newly started enclave holds nothing. */
    method Restart()
      modifies this`inodeMap, this`trace, store
      ensures HeapOk() && Traced() && inodeMap == map[] && Abs().at == map[]
      ensures Abs().disk == disk && Abs().sup == sup && Abs().pool == pool
      ensures trace == []
    {
      store.Clear();
      inodeMap := map[];
      trace := [];
    }

    /** Superinfo and root directory are loaded, and the root made resident. */
    method LoadRoot() returns (err: int)
      requires HeapOk() && inodeMap == map[] && Abs().at == map[]
      requires var info := LoadSuperinfo(cfg, disk, sup.uuid);
        && info.Some? && LoadMetadata(cfg, disk, info.value.users).Some?
        && LoadDirnode(cfg, disk, info.value.root).Some?
        && LoadDirnode(cfg, disk, info.value.root).value.ino == 1
      modifies this`inodeMap, this`sup
      ensures var info := LoadSuperinfo(cfg, disk, old(sup).uuid).value;
        err == 0 && HeapOk() && Abs() == Mounted(old(Abs()), info, LoadDirnode(cfg, disk, info.root).value)
      ensures fresh(FileObjs() - old(FileObjs())) && fresh(DirObjs() - old(DirObjs()))
      ensures var info := LoadSuperinfo(cfg, disk, old(sup).uuid).value;
        sup == SuperV(old(sup).uuid, info.root, info.users, info.hashes, info.maxIno)
    {
      hide LoadSuperinfo, LoadDirnode, LoadMetadata;
      var info := LoadSuperinfo(cfg, disk, sup.uuid);
      if info.None? {
        return 1;
      }
      sup := SuperV(sup.uuid, info.value.root, info.value.users, info.value.hashes, info.value.maxIno);
      var table := LoadMetadata(cfg, disk, sup.users);
      if table.None? {
        return 1;
      }
      var root := LoadDirnode(cfg, disk, sup.root);
      if root.None? {
        return 1;
      }
      if root.value.ino != 1 {
        return 1;
      }
      var dn := new Dirnode(sup.root, root.value);
      inodeMap := map[1 := Dir(dn)];
      assert Files() == map[];
      assert Dirs() == map[1 := dn.Val()];
      err := 0;
    }

    /** Mounting the volume in a new enclave. */
    method Mount() returns (err: int)
      requires Valid() && Legal(cfg.chunkSize, FS(), Op.Mount)
      modifies this`inodeMap, this`sup, this`m, this`trace, store
      ensures Valid()
      ensures (FS(), Fail(err)) == DoMount(old(FS()))
      ensures fresh(FileObjs() - old(FileObjs())) && fresh(DirObjs() - old(DirObjs()))
      ensures Descends(old(m), m)
      ensures IdState() == IdStep(cfg.chunkSize, old(FS()), old(IdState()), Op.Mount)
      ensures sup == old(sup).(maxIno := FS().maxIno)
    {
      hide Coherent, HeapOk, Abs, TreeOk, ShapesOk, FlatOf, LoadSuperinfo, LoadDirnode, Remounted, Mounted, DoMount,
        Bijection, KeysOf, Descends, Settled;
      Fields();
      NoFileDirty();
      MountedOk(cfg, Abs(), m, own);
      RemountedIsMount();
      err := Reload();
      m := Remounted(m);
      SuperView();
    }

    /** All that was in memory is lost, and the root is loaded. */
    method Reload() returns (err: int)
      requires LoadSuperinfo(cfg, disk, sup.uuid) == Some(sup.Rec())
      requires LoadMetadata(cfg, disk, sup.users).Some?
      requires LoadDirnode(cfg, disk, sup.root).Some? && LoadDirnode(cfg, disk, sup.root).value.ino == 1
      modifies this`inodeMap, this`sup, this`trace, store
      ensures err == 0 && HeapOk() && Traced()
      ensures Abs() == Mounted(old(Abs()), old(sup).Rec(), LoadDirnode(cfg, disk, old(sup).root).value)
      ensures fresh(FileObjs() - old(FileObjs())) && fresh(DirObjs() - old(DirObjs()))
      ensures trace == []
      ensures sup == old(sup)
    {
      hide HeapOk, Abs, LoadSuperinfo, LoadDirnode, Mounted;
      Fields();
      MountedIgnoresMemory(Abs(), sup.Rec(), LoadDirnode(cfg, disk, sup.root).value);
      Restart();
      MountedIgnoresMemory(Abs(), sup.Rec(), LoadDirnode(cfg, disk, sup.root).value);
      err := LoadRoot();
    }

    lemma RemountedIsMount()
      requires cfg.chunkSize > 0 && TreeOk(m) && ShapesOk(cfg.chunkSize, m)
      ensures var m' := Remounted(m);
        && TreeOk(m') && ShapesOk(cfg.chunkSize, m') && DoMount(FS()) == (FlatOf(cfg.chunkSize, m'), DONE)
      ensures Descends(m, Remounted(m))
    {
      hide FileShape, EntriesOk, HasParent;
      FlatMount(cfg.chunkSize, m);
      SameNodesOk(m, Remounted(m));
      hide TreeOk, FlatOf;
    }

    /** A mount sees nothing of what was in memory. */
    lemma MountedIgnoresMemory(s: State, info: SuperRec, root: DirRec)
      ensures Mounted(s, info, root) == Mounted(State(map[], map[], map[], s.disk, s.sup, s.pool), info, root)
    {
    }

    lemma NoFileDirty()
      requires cfg.chunkSize > 0 && forall i | i in FS().files :: FS().files[i].status != Dirty
      ensures forall i :: i in m.nodes && m.nodes[i].FileNode? ==> m.nodes[i].status != Dirty
    {
      forall i | i in m.nodes && m.nodes[i].FileNode? ensures m.nodes[i].status != Dirty {
        FlatKinds(cfg.chunkSize, m, i);
        assert FS().files[i].status == m.nodes[i].status;
      }
    }

    // ---------- runs ----------

    /** Any one operation does to the file system, and returns, what `Step` says. */
    method Execute(op: Op) returns (out: Out)
      requires Valid() && Legal(cfg.chunkSize, FS(), op) && |pool| >= Draws(cfg.chunkSize, op)
      modifies this`inodeMap, this`sup, this`disk, this`pool, this`m, this`own, this`trace, store
      modifies FileObjs()`chunks, FileObjs()`size, FileObjs()`refcount, DirObjs()`entries, DirObjs()`refcount
      ensures Valid() && |pool| >= |old(pool)| - Draws(cfg.chunkSize, op)
      ensures (FS(), out) == Step(cfg.chunkSize, old(FS()), op)
      ensures fresh(FileObjs() - old(FileObjs())) && fresh(DirObjs() - old(DirObjs()))
      ensures Descends(old(m), m)
      ensures IdState() == IdStep(cfg.chunkSize, old(FS()), old(IdState()), op)
      ensures sup == old(sup).(maxIno := FS().maxIno)
    {
      hide IdStep, Descends, Traced, GoneBut, SameAt, Unparse, Coherent, HeapOk, Abs, TreeOk, ShapesOk, FlatOf,
        DoLookup, DoForget, DoMake, DoUnlink, DoRmdir, DoMount;
      if InFile(op) {
        out := ExecuteInFile(op);
        return;
      }
      var err: int, ino: nat := 0, 0;
      match op {
        case Lookup(p, name) => err, ino := Lookup(p, name);
        case Forget(i, n) => err := Forget(i, n);
        case Mkdir(p, name) => err, ino := Mkdir(p, name);
        case Create(p, name) => err, ino := Create(p, name);
        case Unlink(p, name) => err := Unlink(p, name);
        case Rmdir(p, name) => err := Rmdir(p, name);
        case Mount => err := Mount();
        case _ =>
      }
      SuperView();
      out := Out(err, ino, []);
    }

    /** The operations on one file. */
    predicate InFile(op: Op) {
      op.Open? || op.Read? || op.Write? || op.Flush? || op.Fallocate?
    }

    method ExecuteInFile(op: Op) returns (out: Out)
      requires Valid() && Legal(cfg.chunkSize, FS(), op) && |pool| >= Draws(cfg.chunkSize, op) && InFile(op)
      modifies this`disk, this`pool, this`m, this`own, this`trace, store, FileObjs()`chunks, FileObjs()`size
      ensures Valid() && |pool| >= |old(pool)| - Draws(cfg.chunkSize, op)
      ensures (FS(), out) == Step(cfg.chunkSize, old(FS()), op)
      ensures Descends(old(m), m)
      ensures IdState() == IdStep(cfg.chunkSize, old(FS()), old(IdState()), op)
      ensures sup == old(sup).(maxIno := FS().maxIno)
    {
      hide IdStep, Descends, Traced, SameAt, Unparse, Coherent, HeapOk, Abs, TreeOk, ShapesOk, FlatOf,
        DoOpen, DoRead, DoWrite, DoFlush, DoFallocate;
      var err: int, data: Bytes := 0, [];
      match op {
        case Open(i, flags) => err := Open(i, flags);
        case Read(i, off, size) =>
          var buf := new Byte[size];
          var n;
          err, n := Read(i, buf, off, size);
          data := if err == 0 then buf[..n] else [];
        case Write(i, off, bytes) =>
          var n;
          err, n := Write(i, bytes, off);
        case Flush(i) => err := Flush(i);
        case Fallocate(i, off, len) => err := Fallocate(i, off, len);
        case _ =>
      }
      SuperView();
      out := Out(err, 0, data);
    }

    /** Any run of operations, with evictions wherever the cache makes them, does to the file system,
        and returns, what the same run does on directories of names and flat byte sequences; and a file
        that was flushed before it, and not changed in it, is on the disk after it. */
    method Run(ops: seq<Op>) returns (outs: seq<Out>)
      requires Valid() && Runs.LegalRun(cfg.chunkSize, FS(), ops) && |pool| >= Runs.AllDraws(cfg.chunkSize, ops)
      modifies this`inodeMap, this`sup, this`disk, this`pool, this`m, this`own, this`trace, store
      modifies FileObjs()`chunks, FileObjs()`size, FileObjs()`refcount, DirObjs()`entries, DirObjs()`refcount
      ensures Valid() && (FS(), outs) == Runs.Run(cfg.chunkSize, old(FS()), ops)
      ensures |pool| >= |old(pool)| - Runs.AllDraws(cfg.chunkSize, ops)
      ensures fresh(FileObjs() - old(FileObjs())) && fresh(DirObjs() - old(DirObjs()))
      ensures IdState() == IdRun(cfg.chunkSize, old(FS()), old(IdState()), ops)
      ensures sup == old(sup).(maxIno := FS().maxIno)
      ensures Descends(old(m), m)
      ensures forall ino :: ino in old(FS()).files && Stays(old(FS()), ops, ino) ==>
        ino in old(m).nodes && StoredImage(cfg, disk, old(m).nodes[ino].uuid) == Some(old(FS()).files[ino].bytes)
    {
      hide IdStep, Traced, Coherent, HeapOk, Abs, TreeOk, ShapesOk, FlatOf, Step, Legal, Draws, Descends, Order,
        KeysOf, Stays,
        StoredImage;
      ghost var f, m0, t := FS(), m, IdState();
      ViewOk();
      DescendsSame(m0);
      SuperView();
      outs := [];
      var i := 0;
      while i < |ops|
        invariant 0 <= i <= |ops| && Valid()
        invariant (FS(), outs) == Runs.Run(cfg.chunkSize, f, ops[..i]) && Descends(m0, m)
        invariant |pool| + Runs.AllDraws(cfg.chunkSize, ops[..i]) >= |old(pool)|
        invariant IdState() == IdRun(cfg.chunkSize, f, t, ops[..i])
        invariant sup == old(sup).(maxIno := FS().maxIno)
        invariant fresh(FileObjs() - old(FileObjs())) && fresh(DirObjs() - old(DirObjs()))
      {
        Runs.RunNext(cfg.chunkSize, f, ops, i);
        IdRunNext(cfg.chunkSize, f, t, ops, i);
        Runs.LegalAt(cfg.chunkSize, f, ops, i);
        Runs.LegalAt(cfg.chunkSize, f, ops, i + 1);
        ghost var m1 := m;
        var out := Execute(ops[i]);
        DescendsOn(m0, m1, m);
        outs := outs + [out];
        i := i + 1;
      }
      assert ops[..i] == ops;
      forall ino | ino in f.files && Stays(f, ops, ino)
        ensures ino in m0.nodes && StoredImage(cfg, disk, m0.nodes[ino].uuid) == Some(f.files[ino].bytes)
      {
        StillOnDisk(f, m0, ops, ino);
      }
    }

    /** The file is flushed, and no operation of the run changes it. */
    ghost predicate Stays(f: FlatFS, ops: seq<Op>, ino: nat) {
      cfg.chunkSize > 0 && ino in f.files && f.files[ino].status != Dirty &&
        Runs.NeverChanges(cfg.chunkSize, f, ops, ino)
    }

    lemma StillOnDisk(f: FlatFS, m0: Model, ops: seq<Op>, ino: nat)
      requires Valid() && Descends(m0, m) && f == FlatOf(cfg.chunkSize, m0) && TreeOk(m0) && Runs.FlatOk(f)
      requires Runs.LegalRun(cfg.chunkSize, f, ops) && FS() == Runs.Run(cfg.chunkSize, f, ops).0
      requires Stays(f, ops, ino)
      ensures ino in m0.nodes && StoredImage(cfg, disk, m0.nodes[ino].uuid) == Some(f.files[ino].bytes)
    {
      hide Coherent, HeapOk, Abs, ShapesOk, FlatOf, StoredImage;
      FlatKinds(cfg.chunkSize, m0, ino);
      Runs.StaysSaved(cfg.chunkSize, f, ops, ino);
      OnDisk(ino);
    }

    // ---------- what holds in every state between operations ----------

    /** The view of every state keeps numbers below the counter and counts positive. */
    lemma ViewOk()
      requires Valid()
      ensures Runs.FlatOk(FS())
    {
      hide Coherent, HeapOk, Abs, ShapesOk, TreeOk, FlatOf;
      var c, f := cfg.chunkSize, FS();
      MaxInoView();
      RefsBounded();
      forall i: nat ensures (i in f.dirs ==> i < f.maxIno && i !in f.files) && (i in f.files ==> i < f.maxIno) {
        FlatKinds(c, m, i);
        NodeBounded(i);
      }
      FlatKinds(c, m, 1);
      NodeBounded(1);
      forall d, n | d in f.dirs && n in f.dirs[d] ensures 1 < f.dirs[d][n] < f.maxIno {
        FlatKinds(c, m, d);
        FlatEntry(c, m, d, n);
        var k :| 0 <= k < |m.nodes[d].entries| && m.nodes[d].entries[k].name == n;
        EntryNamesNode(d, k);
      }
    }

    lemma RefsBounded()
      requires Coherently()
      ensures 1 !in m.refs && forall i :: i in m.refs ==> i < m.maxIno && m.refs[i] > 0
    {
      assert ResidencyOk(Abs(), m);
    }

    lemma NodeBounded(i: nat)
      requires TreeOk(m)
      ensures i in m.nodes ==> 1 <= i < m.maxIno
      ensures 1 in m.nodes && m.nodes[1].DirNode? && m.maxIno >= 2
    {
    }

    /** Every live inode has exactly one path from the root, and only live inodes have one. */
    lemma OnePath(ino: nat)
      requires Valid()
      ensures Live(FS(), ino) <==> exists path :: Walk(FS(), path) == Some(ino)
      ensures forall a, b :: Walk(FS(), a) == Some(ino) == Walk(FS(), b) ==> a == b
    {
      hide Coherent, HeapOk, Abs, ShapesOk, TreeOk, FlatOf;
      var c := cfg.chunkSize;
      FlatKinds(c, m, ino);
      if Live(FS(), ino) {
        var path := PathExists(c, m, ino);
      }
      forall path | Walk(FS(), path) == Some(ino) ensures ino in m.nodes {
        if path != [] {
          LastStep(c, m, path);
        } else {
          NodeBounded(1);
        }
      }
      forall a, b | Walk(FS(), a) == Some(ino) == Walk(FS(), b) ensures a == b {
        PathUnique(c, m, a, b);
      }
    }

    /** A file that has been flushed and not changed since is on the disk: its stored table and the
        chunks under it give its bytes, whatever the cache holds. */
    lemma OnDisk(ino: nat)
      requires Valid() && ino in FS().files && FS().files[ino].status != Dirty
      ensures ino in m.nodes && StoredImage(cfg, disk, m.nodes[ino].uuid) == Some(FS().files[ino].bytes)
    {
      FlatKinds(cfg.chunkSize, m, ino);
      assert FS().files[ino] == FileOf(cfg.chunkSize, m.nodes[ino]);
      Fields();
      hide HeapOk, Abs, TreeOk, FlatOf, ShapesOk, Coherent;
      Durable(cfg, Abs(), m, own, ino);
    }

    /** In every reachable state a slot has one identifier, and those still to be drawn are new. */
    lemma IdsFine()
      requires Valid()
      ensures IdsOk(IdState())
    {
      hide Coherent, HeapOk, Abs, TreeOk, ShapesOk, NoDup;
      OwnersView(Abs());
      Fields();
      forall u, v | u in own && v in own && own[u].Slot? && own[u] == own[v] ensures u == v {
        OneName(Abs(), u, v);
      }
    }

    lemma OwnersView(s: State)
      requires Coherent(cfg, s, m, own)
      ensures NULL !in own && NoDup(s.pool) && forall i :: 0 <= i < |s.pool| ==> s.pool[i] != NULL && s.pool[i] !in own
    {
      hide NoDup;
      assert OwnersOk(s, m, own);
    }

    lemma OneName(s: State, u: UUID, v: UUID)
      requires Coherent(cfg, s, m, own) && u in own && v in own && own[u].Slot? && own[u] == own[v]
      ensures u == v
    {
      assert OwnersOk(s, m, own);
      assert NodeOk(cfg, s, own, own[u].ino, m.nodes[own[u].ino]);
      hide GlobalOk, LoadFilenode, LoadCache;
    }

    /** Directories are written through: the disk alone gives the names of each, with their inodes, in the
        order in which they were made, each as a directory (4) or a file (8). */
    lemma DirOnDisk(d: nat)
      requires Valid() && d in FS().dirs
      ensures d in m.nodes
      ensures var r := LoadDirnode(cfg, disk, m.nodes[d].uuid);
        && r.Some? && r.value.ino == d && r.value.name == m.nodes[d].name
        && NameMap(r.value.entries) == FS().dirs[d] && Increasing(r.value.entries)
        && forall i :: 0 <= i < |r.value.entries| ==>
             r.value.entries[i].kind == if r.value.entries[i].ino in FS().dirs then 4 else 8
    {
      hide Coherent, HeapOk, Abs, ShapesOk, TreeOk, FlatOf, LoadDirnode, NameMap, Increasing;
      FlatKinds(cfg.chunkSize, m, d);
      Fields();
      DirRemovable(cfg, Abs(), m, own, d);
      DirListed(d);
    }

    lemma DirListed(d: nat)
      requires cfg.chunkSize > 0 && TreeOk(m) && d in m.nodes && m.nodes[d].DirNode?
      ensures var es := m.nodes[d].entries;
        && Increasing(es) && d in FS().dirs && FS().dirs[d] == NameMap(es)
        && forall i :: 0 <= i < |es| ==> es[i].kind == if es[i].ino in FS().dirs then 4 else 8
    {
      hide NameMap;
      assert EntriesOk(m, d, m.nodes[d].entries);
      assert FS().dirs[d] == NameMap(m.nodes[d].entries);
      hide TreeOk, FlatOf;
      forall i | 0 <= i < |m.nodes[d].entries|
        ensures m.nodes[d].entries[i].kind == if m.nodes[d].entries[i].ino in FS().dirs then 4 else 8
      {
        EntryNamesNode(d, i);
      }
    }

    /** The superinfo is written through, too. */
    lemma SuperOnDisk()
      requires Valid()
      ensures LoadSuperinfo(cfg, disk, sup.uuid) == Some(SuperRec(sup.root, sup.users, sup.hashes, FS().maxIno))
      ensures LoadMetadata(cfg, disk, sup.users) == Some(m.users)
    {
      assert SuperOk(cfg, Abs(), m);
      Fields();
      MaxInoView();
      hide Coherent, HeapOk, Abs, TreeOk, ShapesOk, FlatOf, LoadSuperinfo, LoadMetadata;
    }

    /** Between operations the store is an LRU of the accesses since the start: within its bound, ordered
        by last access, and the most recent part of what any larger store would hold. Which accesses those
        are is what `Accesses.IdStep` says of each operation. */
    lemma StoreIsLru(large: nat)
      requires Valid() && cfg.maxCache <= large
      ensures NoDup(store.Keys()) && |store.Keys()| <= cfg.maxCache
      ensures Ordered(trace, store.Keys())
      ensures Suffix(store.Keys(), Order(large, trace))
    {
      hide Coherent, HeapOk, Abs, TreeOk, ShapesOk, Order, KeysOf, NoDup, Ordered, Suffix;
      OrderNoDup(cfg.maxCache, trace);
      OrderedByLastUse(cfg.maxCache, trace);
      Inclusion(cfg.maxCache, large, trace);
    }
  }

  /** A file is made, written, read, flushed, unlinked and forgotten on a new volume. */
  method RunExample(cfg: Config, users: Bytes, hashes: Bytes, pool: seq<UUID>) returns (e: Enclave, outs: seq<Out>)
    requires GoodConfig(cfg) && cfg.chunkSize == 4 && |hashes| == 64 && Random(pool) && |pool| >= 6
    ensures outs == seq(6, i requires 0 <= i < 6 => Runs.ExampleOut(i))
    ensures fresh(e) && e.cfg == cfg && e.FS() == FlatFS(map[1 := map[]], map[], 3, map[])
    ensures e.Valid()
  {
    hide Coherent, TreeOk, ShapesOk, FlatOf, Runs.Run, Runs.LegalRun, Runs.AllDraws, Runs.ExampleOut, Random;
    e := new Enclave(cfg, users, hashes, pool);
    Runs.ExampleRun();
    outs := e.Run(Runs.EXAMPLE);
  }
}
