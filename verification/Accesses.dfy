/** Which chunks each operation touches, in which order, and which identifiers it draws and gives up. */
module Accesses {
  import opened Bytes
  import opened Uuid
  import opened Layout
  import opened Storage
  import opened Lru
  import opened Pieces
  import opened Slices
  import opened Coherence
  import opened TreeSteps
  import opened Flat
  import Runs

  /** What the identifiers in use stand for, the ones still to be drawn, and the accesses to the store. */
  datatype Ids = Ids(own: Owners, pool: seq<UUID>, trace: seq<Access>)

  /** The identifier of chunk `idx` of file `ino`, null for a hole. */
  ghost function NameOf(own: Owners, ino: nat, idx: nat): UUID {
    if u :| u in own && own[u] == Slot(ino, idx) then u else NULL
  }

  /** It is the one in the file's table, wherever that is. */
  lemma NameInTable(cfg: Config, s: State, own: Owners, ino: nat, chunks: seq<Chunk>, pieces: Pieces, idx: nat)
    requires TableOk(cfg, s, own, ino, chunks, pieces) && idx < |chunks| && NULL !in own
    ensures NameOf(own, ino, idx) == chunks[idx].uuid
  {
    assert SlotOk(cfg, s, own, ino, idx, chunks[idx], pieces[idx]);
    hide LoadCache;
  }

  // ---------- chunk by chunk ----------

  /** A read uses a chunk that is not a hole. */
  ghost function ReadId(t: Ids, ino: nat, idx: nat): Ids {
    var u := NameOf(t.own, ino, idx);
    if u == NULL then t else t.(trace := t.trace + [Used(u)])
  }

  /** A write uses every chunk, a hole under the next identifier drawn. */
  ghost function WriteId(t: Ids, ino: nat, idx: nat): Ids {
    var u := NameOf(t.own, ino, idx);
    if u != NULL then t.(trace := t.trace + [Used(u)])
    else if t.pool == [] then t
    else Ids(t.own[t.pool[0] := Slot(ino, idx)], t.pool[1..], t.trace + [Used(t.pool[0])])
  }

  /** The chunks from `st` up to `en`, in order. */
  ghost function ReadIds(t: Ids, ino: nat, st: nat, en: nat): Ids {
    if en <= st then t else ReadId(ReadIds(t, ino, st, en - 1), ino, en - 1)
  }

  ghost function WriteIds(t: Ids, ino: nat, st: nat, en: nat): Ids {
    if en <= st then t else WriteId(WriteIds(t, ino, st, en - 1), ino, en - 1)
  }

  /** A flush flushes the first `n` chunks, in order. */
  ghost function FlushIds(t: Ids, ino: nat, n: nat): Ids {
    if n == 0 then t else
    var before := FlushIds(t, ino, n - 1);
    before.(trace := before.trace + [Flushed(NameOf(t.own, ino, n - 1))])
  }

  // ---------- operation by operation ----------

  ghost function IdStep(c: nat, f: FlatFS, t: Ids, op: Op): Ids
    requires c > 0
  {
    var out := Step(c, f, op).1;
    match op
    case Mkdir(_, _) => MakeId(f, t, out)
    case Create(_, _) => MakeId(f, t, out)
    case Unlink(p, name) => RemoveId(f, t, p, name, out)
    case Rmdir(p, name) => RemoveId(f, t, p, name, out)
    case Open(ino, flags) => if out.err == 0 && Truncates(flags) then t.(own := DropSlots(t.own, ino)) else t
    case Read(ino, off, _) =>
      if out.err == 0 then ReadIds(t, ino, ChunkStart(c, off), ChunkEnd(c, off, |out.data|)) else t
    case Write(ino, off, data) =>
      if out.err == 0 then WriteIds(t, ino, ChunkStart(c, off), ChunkEnd(c, off, |data|)) else t
    case Flush(ino) =>
      if out.err == 0 && ino in f.files then FlushIds(t, ino, CeilDiv(|f.files[ino].bytes|, c)) else t
    case Mount => t.(trace := [])
    case _ => t
  }

  /** A new inode draws its identifier. */
  ghost function MakeId(f: FlatFS, t: Ids, out: Out): Ids {
    if out.err == 0 && t.pool != [] then t.(own := t.own[t.pool[0] := Meta(f.maxIno)], pool := t.pool[1..]) else t
  }

  /** A removed inode gives up all its identifiers. */
  ghost function RemoveId(f: FlatFS, t: Ids, p: nat, name: Name, out: Out): Ids {
    if out.err == 0 && p in f.dirs && name in f.dirs[p] then t.(own := DropOwned(t.own, f.dirs[p][name])) else t
  }

  ghost function IdRun(c: nat, f: FlatFS, t: Ids, ops: seq<Op>): Ids
    requires c > 0
  {
    if ops == [] then t else
    var init := ops[..|ops| - 1];
    IdStep(c, Runs.Run(c, f, init).0, IdRun(c, f, t, init), ops[|ops| - 1])
  }

  lemma {:induction false} IdRunNext(c: nat, f: FlatFS, t: Ids, ops: seq<Op>, i: nat)
    requires c > 0 && i < |ops|
    ensures IdRun(c, f, t, ops[..i + 1]) == IdStep(c, Runs.Run(c, f, ops[..i]).0, IdRun(c, f, t, ops[..i]), ops[i])
  {
    hide IdStep, Runs.Run;
    assert ops[..i + 1][..i] == ops[..i];
  }

  // ---------- what the accesses are ----------

  /** One identifier for a slot, and new ones to be drawn. */
  ghost predicate IdsOk(t: Ids) {
    && NULL !in t.own && NoDup(t.pool)
    && (forall i :: 0 <= i < |t.pool| ==> t.pool[i] != NULL && t.pool[i] !in t.own)
    && (forall u, v :: u in t.own && v in t.own && t.own[u].Slot? && t.own[u] == t.own[v] ==> u == v)
  }

  /** The chunks of a range that are not holes, each once, in order. */
  ghost function Uses(own: Owners, ino: nat, st: nat, en: nat): seq<Access>
    decreases en - st
  {
    if en <= st then []
    else (if NameOf(own, ino, st) == NULL then [] else [Used(NameOf(own, ino, st))]) + Uses(own, ino, st + 1, en)
  }

  lemma {:induction false} UsesLast(own: Owners, ino: nat, st: nat, en: nat)
    requires st < en
    ensures var u := NameOf(own, ino, en - 1);
      Uses(own, ino, st, en) == Uses(own, ino, st, en - 1) + if u == NULL then [] else [Used(u)]
    decreases en - st
  {
    hide NameOf;
    if st + 1 < en {
      UsesLast(own, ino, st + 1, en);
    } else {
      assert Uses(own, ino, st, st) == [] && Uses(own, ino, en, en) == [];
    }
  }

  /** A read uses exactly these, and draws nothing. */
  lemma {:induction false} ReadUses(t: Ids, ino: nat, st: nat, en: nat)
    ensures ReadIds(t, ino, st, en) == t.(trace := t.trace + Uses(t.own, ino, st, en))
  {
    hide NameOf;
    if st < en {
      ReadUses(t, ino, st, en - 1);
      UsesLast(t.own, ino, st, en);
    }
  }

  /** A flush flushes every slot once, in order. */
  lemma {:induction false} FlushUses(t: Ids, ino: nat, n: nat)
    ensures FlushIds(t, ino, n) == t.(trace := t.trace + seq(n,
      i requires 0 <= i < n => Flushed(NameOf(t.own, ino, i))))
  {
    hide NameOf;
    if n > 0 {
      FlushUses(t, ino, n - 1);
    }
  }

  lemma NameKnown(own: Owners, ino: nat, idx: nat, u: UUID)
    requires u in own && own[u] == Slot(ino, idx)
    requires forall v :: v in own && own[v] == Slot(ino, idx) ==> v == u
    ensures NameOf(own, ino, idx) == u
  {
  }

  /** A new name changes no other. */
  lemma NamedOne(t: Ids, ino: nat, idx: nat, i: nat, j: nat)
    requires IdsOk(t) && t.pool != [] && NameOf(t.own, ino, idx) == NULL
    ensures var own' := t.own[t.pool[0] := Slot(ino, idx)];
      NameOf(own', i, j) == if i == ino && j == idx then t.pool[0] else NameOf(t.own, i, j)
  {
    var k := t.pool[0];
    var own' := t.own[k := Slot(ino, idx)];
    if i == ino && j == idx {
      forall v | v in own' && own'[v] == Slot(ino, idx) ensures v == k {
        if v != k {
          assert v in t.own && t.own[v] == Slot(ino, idx);
          NameKnown(t.own, ino, idx, v);
        }
      }
      NameKnown(own', ino, idx, k);
    } else if exists u :: u in t.own && t.own[u] == Slot(i, j) {
      var u :| u in t.own && t.own[u] == Slot(i, j);
      NameKnown(t.own, i, j, u);
      NameKnown(own', i, j, u);
    }
  }

  lemma WriteIdOk(t: Ids, ino: nat, idx: nat)
    requires IdsOk(t) && t.pool != []
    ensures var t' := WriteId(t, ino, idx);
      && IdsOk(t') && |t'.pool| >= |t.pool| - 1 && NameOf(t'.own, ino, idx) != NULL
      && t'.trace == t.trace + [Used(NameOf(t'.own, ino, idx))]
      && forall i: nat, j: nat :: NameOf(t.own, i, j) != NULL || i != ino || j != idx ==>
        NameOf(t'.own, i, j) == NameOf(t.own, i, j)
  {
    hide NameOf;
    var u, t' := NameOf(t.own, ino, idx), WriteId(t, ino, idx);
    if u == NULL {
      NamedOne(t, ino, idx, ino, idx);
      forall i: nat, j: nat ensures i != ino || j != idx ==> NameOf(t'.own, i, j) == NameOf(t.own, i, j) {
        NamedOne(t, ino, idx, i, j);
      }
      NoneNamed(t.own, ino, idx);
    }
  }

  lemma NoneNamed(own: Owners, ino: nat, idx: nat)
    requires NULL !in own && NameOf(own, ino, idx) == NULL
    ensures forall u :: u in own ==> own[u] != Slot(ino, idx)
  {
  }

  /** A write leaves no hole in its range, uses every chunk of it once, in order, under the name it then
      has, and gives no name to, and takes none from, any other chunk. */
  lemma {:induction false} WriteUses(t: Ids, ino: nat, st: nat, en: nat)
    requires IdsOk(t) && st <= en && |t.pool| >= en - st
    ensures var t' := WriteIds(t, ino, st, en);
      && IdsOk(t') && |t'.pool| >= |t.pool| - (en - st)
      && (forall k :: st <= k < en ==> NameOf(t'.own, ino, k) != NULL)
      && t'.trace == t.trace + seq(en - st, k requires 0 <= k < en - st => Used(NameOf(t'.own, ino, st + k)))
      && (forall i: nat, j: nat :: NameOf(t.own, i, j) != NULL || i != ino || !(st <= j < en) ==>
            NameOf(t'.own, i, j) == NameOf(t.own, i, j))
  {
    hide NameOf, WriteId, IdsOk;
    if st < en {
      WriteUses(t, ino, st, en - 1);
      var t1 := WriteIds(t, ino, st, en - 1);
      WriteIdOk(t1, ino, en - 1);
      var t' := WriteIds(t, ino, st, en);
      assert forall k :: st <= k < en - 1 ==> NameOf(t'.own, ino, k) == NameOf(t1.own, ino, k);
    }
  }
}
