/** Sealed storage (enclave/storage.cpp): metadata and chunks kept as encrypted files on an untrusted disk. */
module Storage {
  import opened Bytes
  import opened Uuid
  import opened Layout

  datatype Sealed = Sealed(ct: Bytes, tag: Bytes)

  /** The volume's cipher under its one key, as the pair of operations of NIST SP 800-38D. */
  datatype Aead = Aead(seal: (Bytes, Bytes, Bytes) -> Sealed, open: (Bytes, Bytes, Bytes, Bytes) -> Option<Bytes>)

  /** An ideal authenticated cipher (sections 7.1 and 7.2): ciphertexts keep their length, and opening
      succeeds only on what sealing produced under the same nonce and associated data. */
  ghost predicate Ideal(a: Aead) {
    && (forall iv, aad, p :: |a.seal(iv, aad, p).ct| == |p| && |a.seal(iv, aad, p).tag| == 16)
    && (forall iv, aad, p, ct, tag :: a.open(iv, aad, ct, tag) == Some(p) <==> a.seal(iv, aad, p) == Sealed(ct, tag))
  }

  /** Under one nonce the keystream is fixed, so a ciphertext has one plaintext (step 3 of algorithm 4). */
  ghost predicate OneToOne(a: Aead) {
    forall iv, aad, p, q :: a.seal(iv, aad, p).ct == a.seal(iv, aad, q).ct ==> p == q
  }

  /** Some two plaintexts under one nonce and associated data have different tags, so that a tag can be stale. */
  ghost predicate TagsDiffer(a: Aead) {
    exists iv, aad, p, q :: a.seal(iv, aad, p).tag != a.seal(iv, aad, q).tag
  }

  /** A tag that depends on what is sealed: its first 16 bytes. */
  function SampleTag(p: Bytes): (tag: Bytes)
    ensures |tag| == 16
  {
    (p + Zeros(16))[..16]
  }

  function SampleAead(): Aead {
    Aead((iv: Bytes, aad: Bytes, p: Bytes) => Sealed(p, SampleTag(p)),
         (iv: Bytes, aad: Bytes, ct: Bytes, tag: Bytes) => if tag == SampleTag(ct) then Some(ct) else None)
  }

  lemma SampleTagsDiffer()
    ensures TagsDiffer(SampleAead())
  {
    var a := SampleAead();
    assert a.seal([], [], [1]).tag[0] == 1 && a.seal([], [], [2]).tag[0] == 2;
  }

  /** The assumptions on the cipher can be met, by one whose tags can go stale. */
  lemma IdealAeadExists()
    ensures exists a :: Ideal(a) && OneToOne(a) && TagsDiffer(a)
  {
    hide SampleTag, TagsDiffer;
    SampleTagsDiffer();
    assert Ideal(SampleAead()) && OneToOne(SampleAead());
  }

  /** What the build fixes: the macros CHUNKSIZE and MAX_CACHE_NUM, and the cipher under the volume key. */
  datatype Config = Config(chunkSize: nat, maxCache: nat, aead: Aead)

  ghost predicate GoodConfig(cfg: Config) {
    0 < cfg.chunkSize < WORD && Ideal(cfg.aead)
  }

  type Disk = map<string, Bytes>

  const ZERO_IV: Iv := Zeros(12)

  // ---------- metadata: save_metadata, load_metadata ----------

  function SealMetadata(cfg: Config, uuid: UUID, plain: Bytes): Bytes
  {
    var s := cfg.aead.seal(ZERO_IV, uuid, plain);
    s.ct + s.tag
  }

  function LoadMetadata(cfg: Config, disk: Disk, uuid: UUID): Option<Bytes>
  {
    var key := Unparse(uuid);
    if key !in disk || |disk[key]| < 16 then None else
    var n := |disk[key]| - 16;
    cfg.aead.open(ZERO_IV, uuid, disk[key][..n], disk[key][n..])
  }

  function LoadFilenode(cfg: Config, disk: Disk, uuid: UUID): Option<FileRec>
    requires cfg.chunkSize > 0
  {
    match LoadMetadata(cfg, disk, uuid)
    case None => None
    case Some(b) => LoadFile(cfg.chunkSize, b)
  }

  function LoadDirnode(cfg: Config, disk: Disk, uuid: UUID): Option<DirRec>
  {
    match LoadMetadata(cfg, disk, uuid)
    case None => None
    case Some(b) => LoadDir(b)
  }

  function LoadSuperinfo(cfg: Config, disk: Disk, uuid: UUID): Option<SuperRec>
  {
    match LoadMetadata(cfg, disk, uuid)
    case None => None
    case Some(b) => LoadSuper(b)
  }

  // ---------- chunks: save_cache, load_cache ----------

  /** The table slot after its chunk has been sealed: the nonce is zeroed, the tag is the new one. */
  ghost function SealedSlot(cfg: Config, uuid: UUID, data: Bytes): Chunk
    requires Ideal(cfg.aead)
  {
    Chunk(uuid, ZERO_IV, cfg.aead.seal(ZERO_IV, uuid, data).tag)
  }

  ghost function SealedBlob(cfg: Config, uuid: UUID, data: Bytes): Bytes
  {
    cfg.aead.seal(ZERO_IV, uuid, data).ct
  }

  /** A chunk as read back from disk under the nonce and tag of its table slot. */
  function LoadCache(cfg: Config, disk: Disk, chunk: Chunk): (r: Option<Bytes>)
  {
    var key := Unparse(chunk.uuid);
    if key !in disk || |disk[key]| > cfg.chunkSize then None else
    match cfg.aead.open(chunk.iv, chunk.uuid, disk[key], chunk.tag)
    case None => None
    case Some(p) => Some(p + Zeros(if |p| < cfg.chunkSize then cfg.chunkSize - |p| else 0))
  }

  // ---------- get after put, and the frame of a put ----------

  ghost predicate SameAt(d: Disk, d': Disk, u: UUID) {
    (Unparse(u) in d <==> Unparse(u) in d') && (Unparse(u) in d ==> d[Unparse(u)] == d'[Unparse(u)])
  }

  lemma PutFrame(d: Disk, d': Disk, u: UUID, b: Bytes)
    requires d' == d[Unparse(u) := b]
    ensures forall v: UUID :: v != u ==> SameAt(d, d', v)
  {
    forall v: UUID | v != u ensures SameAt(d, d', v) { UnparseInjective(u, v); }
  }

  lemma MetadataRoundTrip(cfg: Config, d: Disk, u: UUID, plain: Bytes)
    requires Ideal(cfg.aead)
    ensures LoadMetadata(cfg, d[Unparse(u) := SealMetadata(cfg, u, plain)], u) == Some(plain)
  {
    var s := cfg.aead.seal(ZERO_IV, u, plain);
    var blob := SealMetadata(cfg, u, plain);
    assert blob[..|blob| - 16] == s.ct && blob[|blob| - 16..] == s.tag;
    assert s == Sealed(s.ct, s.tag);
  }

  /** A sealed chunk opens under the slot that sealing wrote back ... */
  lemma ChunkLoads(cfg: Config, d: Disk, u: UUID, data: Bytes)
    requires Ideal(cfg.aead) && |data| == cfg.chunkSize
    ensures LoadCache(cfg, d[Unparse(u) := SealedBlob(cfg, u, data)], SealedSlot(cfg, u, data)) == Some(data)
  {
    var s := cfg.aead.seal(ZERO_IV, u, data);
    assert s == Sealed(s.ct, s.tag);
    assert cfg.aead.open(ZERO_IV, u, s.ct, s.tag) == Some(data);
    assert data + Zeros(0) == data;
  }

  /** ... and does not open under any other tag. */
  lemma ChunkStored(cfg: Config, d: Disk, u: UUID, data: Bytes, tag: Tag)
    requires Ideal(cfg.aead) && OneToOne(cfg.aead) && |data| == cfg.chunkSize
    ensures var d', slot := d[Unparse(u) := SealedBlob(cfg, u, data)], SealedSlot(cfg, u, data);
      LoadCache(cfg, d', slot.(tag := tag)) == if tag == slot.tag then Some(data) else None
  {
    ChunkLoads(cfg, d, u, data);
    var s := cfg.aead.seal(ZERO_IV, u, data);
    match cfg.aead.open(ZERO_IV, u, s.ct, tag)
    case None =>
    case Some(p) =>
      assert cfg.aead.seal(ZERO_IV, u, p) == Sealed(s.ct, tag);
      assert p == data;
  }

  // ---------- what lies on the disk, and what opens ----------

  /** A metadata blob is the ciphertext and then the 16 bytes of the tag, sealed under a zero nonce and
      with the identifier as associated data. */
  lemma MetadataBlob(cfg: Config, u: UUID, plain: Bytes)
    requires Ideal(cfg.aead)
    ensures var b, n := SealMetadata(cfg, u, plain), |plain|;
      |b| == n + 16 && cfg.aead.seal(seq(12, _ => 0), u, plain) == Sealed(b[..n], b[n..])
  {
    var s := cfg.aead.seal(ZERO_IV, u, plain);
    assert ZERO_IV == seq(12, _ => 0);
    var b := SealMetadata(cfg, u, plain);
    assert b[..|plain|] == s.ct && b[|plain|..] == s.tag;
  }

  /** Metadata loads as `plain` exactly when the blob under its identifier's name is that of `plain`. */
  lemma MetadataLoadsExactly(cfg: Config, d: Disk, u: UUID, plain: Bytes)
    requires Ideal(cfg.aead)
    ensures LoadMetadata(cfg, d, u) == Some(plain) <==> Unparse(u) in d && d[Unparse(u)] == SealMetadata(cfg, u, plain)
  {
    hide Unparse;
    var key, s := Unparse(u), cfg.aead.seal(ZERO_IV, u, plain);
    if LoadMetadata(cfg, d, u) == Some(plain) {
      var n := |d[key]| - 16;
      assert s == Sealed(d[key][..n], d[key][n..]);
      assert d[key] == d[key][..n] + d[key][n..];
    }
    if key in d && d[key] == SealMetadata(cfg, u, plain) {
      MetadataRoundTrip(cfg, d, u, plain);
      assert d[key := SealMetadata(cfg, u, plain)] == d;
    }
  }

  /** A chunk's blob is the bare ciphertext; nonce and tag are in its slot. */
  lemma ChunkBlob(cfg: Config, u: UUID, data: Bytes)
    requires Ideal(cfg.aead)
    ensures var slot := SealedSlot(cfg, u, data);
      && slot.uuid == u && slot.iv == seq(12, _ => 0)
      && cfg.aead.seal(slot.iv, u, data) == Sealed(SealedBlob(cfg, u, data), slot.tag)
  {
    assert ZERO_IV == seq(12, _ => 0);
    var s := cfg.aead.seal(ZERO_IV, u, data);
    assert s == Sealed(s.ct, s.tag);
  }

  ghost predicate PaddedTo(p: Bytes, data: Bytes) {
    p <= data && forall i :: |p| <= i < |data| ==> data[i] == 0
  }

  /** A chunk loads as `data` of full length exactly when sealing `data` under its slot's nonce gives the
      blob on the disk and the slot's tag, or the blob is shorter and is padded with zeros; no blob longer
      than a chunk loads. */
  lemma ChunkLoadsExactly(cfg: Config, d: Disk, c: Chunk, data: Bytes)
    requires Ideal(cfg.aead) && |data| == cfg.chunkSize
    ensures LoadCache(cfg, d, c) == Some(data) <==>
      exists p :: PaddedTo(p, data) && Unparse(c.uuid) in d
        && cfg.aead.seal(c.iv, c.uuid, p) == Sealed(d[Unparse(c.uuid)], c.tag)
  {
    hide Unparse;
    var key := Unparse(c.uuid);
    if LoadCache(cfg, d, c) == Some(data) {
      var p := cfg.aead.open(c.iv, c.uuid, d[key], c.tag).value;
      assert cfg.aead.seal(c.iv, c.uuid, p) == Sealed(d[key], c.tag);
      assert PaddedTo(p, data);
    }
    if exists p :: PaddedTo(p, data) && key in d && cfg.aead.seal(c.iv, c.uuid, p) == Sealed(d[key], c.tag) {
      var p :| PaddedTo(p, data) && key in d && cfg.aead.seal(c.iv, c.uuid, p) == Sealed(d[key], c.tag);
      assert cfg.aead.open(c.iv, c.uuid, d[key], c.tag) == Some(p);
      assert p + Zeros(cfg.chunkSize - |p|) == data;
    }
  }
}
