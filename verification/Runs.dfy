/** Runs of operations on the flat file system: what holds over every one of them. */
module Runs {
  import opened Bytes
  import opened Layout
  import opened Pieces
  import opened Slices
  import opened Coherence
  import opened Flat

  /** The state after a run, and what its operations returned. */
  function Run(c: nat, f: FlatFS, ops: seq<Op>): (r: (FlatFS, seq<Out>))
    requires c > 0
    ensures |r.1| == |ops|
  {
    if ops == [] then (f, []) else
    var before := Run(c, f, ops[..|ops| - 1]);
    var step := Step(c, before.0, ops[|ops| - 1]);
    (step.0, before.1 + [step.1])
  }

  /** Every operation keeps to the protocol where it comes. */
  predicate LegalRun(c: nat, f: FlatFS, ops: seq<Op>)
    requires c > 0
  {
    ops == [] || (LegalRun(c, f, ops[..|ops| - 1]) && Legal(c, Run(c, f, ops[..|ops| - 1]).0, ops[|ops| - 1]))
  }

  function AllDraws(c: nat, ops: seq<Op>): nat
    requires c > 0
  {
    if ops == [] then 0 else AllDraws(c, ops[..|ops| - 1]) + Draws(c, ops[|ops| - 1])
  }

  lemma RunNext(c: nat, f: FlatFS, ops: seq<Op>, i: nat)
    requires c > 0 && i < |ops|
    ensures var before, step := Run(c, f, ops[..i]), Step(c, Run(c, f, ops[..i]).0, ops[i]);
      Run(c, f, ops[..i + 1]) == (step.0, before.1 + [step.1])
    ensures AllDraws(c, ops[..i + 1]) == AllDraws(c, ops[..i]) + Draws(c, ops[i])
    ensures LegalRun(c, f, ops[..i + 1]) <==> LegalRun(c, f, ops[..i]) && Legal(c, Run(c, f, ops[..i]).0, ops[i])
  {
    hide Step, Legal, Draws;
    assert ops[..i + 1][..i] == ops[..i];
  }

  lemma {:induction false} LegalAt(c: nat, f: FlatFS, ops: seq<Op>, i: nat)
    requires c > 0 && LegalRun(c, f, ops) && i <= |ops|
    ensures LegalRun(c, f, ops[..i])
    ensures i < |ops| ==> Legal(c, Run(c, f, ops[..i]).0, ops[i])
    ensures AllDraws(c, ops[..i]) <= AllDraws(c, ops)
    decreases |ops|
  {
    hide Step, Legal, Draws;
    if i < |ops| {
      var init := ops[..|ops| - 1];
      LegalAt(c, f, init, i);
      assert init[..i] == ops[..i];
    } else {
      assert ops[..i] == ops;
    }
  }

  // ---------- what a run keeps ----------

  /** Every number in use is below the counter, and entries name inodes other than the root. */
  predicate FlatOk(f: FlatFS) {
    && 1 in f.dirs && f.maxIno >= 2
    && (forall i :: i in f.dirs ==> i < f.maxIno && i !in f.files)
    && (forall i :: i in f.files ==> i < f.maxIno)
    && (forall d, n :: d in f.dirs && n in f.dirs[d] ==> 1 < f.dirs[d][n] < f.maxIno)
    && 1 !in f.refs
    && (forall i :: i in f.refs ==> i < f.maxIno && f.refs[i] > 0)
  }

  lemma MakeOk(f: FlatFS, p: nat, name: Name, isFile: bool)
    requires FlatOk(f)
    ensures FlatOk(DoMake(f, p, name, isFile).0) && DoMake(f, p, name, isFile).0.maxIno >= f.maxIno
  {
    hide FlatOk;
    var f' := DoMake(f, p, name, isFile).0;
    if f' != f {
      assert f'.dirs.Keys == f.dirs.Keys + if isFile then {} else {f.maxIno};
      assert f'.files.Keys == f.files.Keys + if isFile then {f.maxIno} else {};
      forall d, n | d in f'.dirs && n in f'.dirs[d]
        ensures f'.dirs[d][n] == f.maxIno || (d in f.dirs && n in f.dirs[d] && f'.dirs[d][n] == f.dirs[d][n])
      {
      }
      MoreOk(f, f', isFile);
    }
  }

  lemma MoreOk(f: FlatFS, f': FlatFS, isFile: bool)
    requires FlatOk(f) && f'.maxIno == f.maxIno + 1 && f'.refs == f.refs[f.maxIno := 1]
    requires f'.dirs.Keys == f.dirs.Keys + if isFile then {} else {f.maxIno}
    requires f'.files.Keys == f.files.Keys + if isFile then {f.maxIno} else {}
    requires forall d, n :: d in f'.dirs && n in f'.dirs[d] ==>
      f'.dirs[d][n] == f.maxIno || (d in f.dirs && n in f.dirs[d] && f'.dirs[d][n] == f.dirs[d][n])
    ensures FlatOk(f')
  {
  }

  lemma StepOk(c: nat, f: FlatFS, op: Op)
    requires c > 0 && FlatOk(f) && Legal(c, f, op)
    ensures FlatOk(Step(c, f, op).0)
    ensures Step(c, f, op).0.maxIno >= f.maxIno
  {
    hide ExactWrite, ExactRead, ChunkEnd, ChunkStart, DoMake, DoUnlink, DoRmdir, DoLookup, DoForget, FlatOk;
    match op
    case Mkdir(p, name) => MakeOk(f, p, name, false);
    case Create(p, name) => MakeOk(f, p, name, true);
    case Unlink(p, name) => UnlinkOk(f, p, name);
    case Rmdir(p, name) => RmdirOk(f, p, name);
    case Lookup(p, name) => LookupOk(f, p, name);
    case Forget(ino, n) => ForgetOk(f, ino, n);
    case _ => FilesOk(f, Step(c, f, op).0);
  }

  /** Operations inside files. */
  lemma FilesOk(f: FlatFS, f': FlatFS)
    requires FlatOk(f) && f'.dirs == f.dirs && f'.files.Keys == f.files.Keys && f'.maxIno == f.maxIno
    requires f'.refs == f.refs || f'.refs == map[]
    ensures FlatOk(f')
  {
  }

  /** Operations that only take entries and inodes away. */
  lemma FewerOk(f: FlatFS, f': FlatFS)
    requires FlatOk(f) && 1 in f'.dirs && f'.maxIno == f.maxIno && f'.refs == f.refs
    requires f'.dirs.Keys <= f.dirs.Keys && f'.files.Keys <= f.files.Keys
    requires forall d, n :: d in f'.dirs && n in f'.dirs[d] ==> n in f.dirs[d] && f'.dirs[d][n] == f.dirs[d][n]
    ensures FlatOk(f')
  {
    forall d, n | d in f'.dirs && n in f'.dirs[d] ensures 1 < f'.dirs[d][n] < f'.maxIno {
      assert d in f.dirs && n in f.dirs[d];
    }
  }

  lemma UnlinkOk(f: FlatFS, p: nat, name: Name)
    requires FlatOk(f)
    ensures FlatOk(DoUnlink(f, p, name).0) && DoUnlink(f, p, name).0.maxIno == f.maxIno
  {
    assert 1 in f.dirs;
    var f' := DoUnlink(f, p, name).0;
    if f' != f {
      hide FlatOk;
      FewerOk(f, f');
    }
  }

  lemma RmdirOk(f: FlatFS, p: nat, name: Name)
    requires FlatOk(f)
    ensures FlatOk(DoRmdir(f, p, name).0) && DoRmdir(f, p, name).0.maxIno == f.maxIno
  {
    assert 1 in f.dirs && (p in f.dirs && name in f.dirs[p] ==> f.dirs[p][name] != 1);
    var f' := DoRmdir(f, p, name).0;
    if f' != f {
      hide FlatOk;
      FewerOk(f, f');
    }
  }

  lemma ForgetOk(f: FlatFS, ino: nat, n: nat)
    requires FlatOk(f) && ino != 1
    ensures FlatOk(DoForget(f, ino, n).0) && DoForget(f, ino, n).0.maxIno == f.maxIno
  {
  }

  lemma LookupOk(f: FlatFS, p: nat, name: Name)
    requires FlatOk(f)
    ensures FlatOk(DoLookup(f, p, name).0) && DoLookup(f, p, name).0.maxIno == f.maxIno
  {
  }

  lemma {:induction false} RunOk(c: nat, f: FlatFS, ops: seq<Op>)
    requires c > 0 && FlatOk(f) && LegalRun(c, f, ops)
    ensures FlatOk(Run(c, f, ops).0) && Run(c, f, ops).0.maxIno >= f.maxIno
  {
    hide Step, Legal, FlatOk;
    if ops != [] {
      RunOk(c, f, ops[..|ops| - 1]);
      StepOk(c, Run(c, f, ops[..|ops| - 1]).0, ops[|ops| - 1]);
    }
  }

  // ---------- inode numbers ----------

  /** A successful mkdir or create, in the run's own words. */
  predicate Makes(op: Op, out: Out) {
    (op.Mkdir? || op.Create?) && out.err == 0
  }

  lemma MakesMax(c: nat, f: FlatFS, op: Op)
    requires c > 0 && Makes(op, Step(c, f, op).1)
    ensures Step(c, f, op).1.ino == f.maxIno && Step(c, f, op).0.maxIno == f.maxIno + 1
  {
  }

  /** Every inode a run makes has a number above those in use before it, and below the counter after. */
  lemma {:induction false} MadeBelow(c: nat, f: FlatFS, ops: seq<Op>, i: nat)
    requires c > 0 && FlatOk(f) && LegalRun(c, f, ops) && i < |ops|
    requires Makes(ops[i], Run(c, f, ops).1[i])
    ensures f.maxIno <= Run(c, f, ops).1[i].ino < Run(c, f, ops).0.maxIno
    decreases |ops|
  {
    hide Step, Legal, FlatOk;
    var init := ops[..|ops| - 1];
    RunOk(c, f, init);
    if i < |init| {
      MadeBelow(c, f, init, i);
      StepOk(c, Run(c, f, init).0, ops[|ops| - 1]);
    } else {
      MakesMax(c, Run(c, f, init).0, ops[|ops| - 1]);
    }
  }

  /** Numbers are never reused: of two inodes made in a run the later has the larger number,
      whatever was unlinked, removed, forgotten or remounted between them. */
  lemma {:induction false} NeverReused(c: nat, f: FlatFS, ops: seq<Op>, i: nat, j: nat)
    requires c > 0 && FlatOk(f) && LegalRun(c, f, ops) && i < j < |ops|
    requires var outs := Run(c, f, ops).1; Makes(ops[i], outs[i]) && Makes(ops[j], outs[j])
    ensures Run(c, f, ops).1[i].ino < Run(c, f, ops).1[j].ino
    decreases |ops|
  {
    hide Step, Legal, FlatOk;
    var init := ops[..|ops| - 1];
    if j < |init| {
      NeverReused(c, f, init, i, j);
    } else {
      MadeBelow(c, f, init, i);
      MakesMax(c, Run(c, f, init).0, ops[|ops| - 1]);
    }
  }

  lemma DeadStep(c: nat, f: FlatFS, op: Op, ino: nat)
    requires c > 0 && FlatOk(f) && Legal(c, f, op) && ino < f.maxIno && !Live(f, ino)
    ensures !Live(Step(c, f, op).0, ino)
  {
    hide ExactWrite, ExactRead, ChunkEnd, ChunkStart;
  }

  /** An inode that has lost its name never gets one again. */
  lemma {:induction false} DeadStaysDead(c: nat, f: FlatFS, ops: seq<Op>, ino: nat)
    requires c > 0 && FlatOk(f) && LegalRun(c, f, ops) && ino < f.maxIno && !Live(f, ino)
    ensures !Live(Run(c, f, ops).0, ino)
  {
    hide Step, Legal, FlatOk;
    if ops != [] {
      var init := ops[..|ops| - 1];
      RunOk(c, f, init);
      DeadStaysDead(c, f, init, ino);
      DeadStep(c, Run(c, f, init).0, ops[|ops| - 1], ino);
    }
  }

  // ---------- reference counts ----------

  /** What one operation, with its result, gives the kernel or takes back, starting from `n`. */
  function Balance(n: int, op: Op, out: Out, ino: nat): int {
    match op
    case Lookup(_, _) => if out.err == 0 && out.ino == ino then n + 1 else n
    case Mkdir(_, _) => if out.err == 0 && out.ino == ino then n + 1 else n
    case Create(_, _) => if out.err == 0 && out.ino == ino then n + 1 else n
    case Forget(i, k) => if i == ino then n - k else n
    case Mount => 0
    case _ => n
  }

  /** Lookups and creations of `ino` less the references forgotten, since the last mount. */
  function Held(ops: seq<Op>, outs: seq<Out>, ino: nat): int
    requires |ops| == |outs|
  {
    if ops == [] then 0 else
    Balance(Held(ops[..|ops| - 1], outs[..|outs| - 1], ino), ops[|ops| - 1], outs[|outs| - 1], ino)
  }

  /** The kernel never forgets more than it holds. */
  predicate NeverOverForgets(ops: seq<Op>, outs: seq<Out>, ino: nat)
    requires |ops| == |outs|
  {
    ops == [] || (NeverOverForgets(ops[..|ops| - 1], outs[..|outs| - 1], ino)
                  && Held(ops, outs, ino) >= 0)
  }

  lemma BalanceStep(c: nat, f: FlatFS, op: Op, ino: nat)
    requires c > 0 && FlatOk(f) && Legal(c, f, op) && ino != 1
    requires Balance(Refs(f, ino), op, Step(c, f, op).1, ino) >= 0
    ensures Refs(Step(c, f, op).0, ino) == Balance(Refs(f, ino), op, Step(c, f, op).1, ino)
  {
    hide ExactWrite, ExactRead, ChunkEnd, ChunkStart;
  }

  /** The count kept for an inode is what the kernel holds, and it is resident exactly while that is positive. */
  lemma {:induction false} CountsBalance(c: nat, f: FlatFS, ops: seq<Op>, ino: nat)
    requires c > 0 && FlatOk(f) && f.refs == map[] && LegalRun(c, f, ops) && ino != 1
    requires NeverOverForgets(ops, Run(c, f, ops).1, ino)
    ensures Refs(Run(c, f, ops).0, ino) == Held(ops, Run(c, f, ops).1, ino)
    ensures Resident(Run(c, f, ops).0, ino) <==> Held(ops, Run(c, f, ops).1, ino) > 0
  {
    hide Step, Legal, Balance;
    RunOk(c, f, ops);
    if ops != [] {
      var init, outs := ops[..|ops| - 1], Run(c, f, ops).1;
      assert outs[..|outs| - 1] == Run(c, f, init).1;
      RunOk(c, f, init);
      CountsBalance(c, f, init, ino);
      BalanceStep(c, Run(c, f, init).0, ops[|ops| - 1], ino);
    }
  }

  // ---------- durability ----------

  /** The operations that change what a file holds, or remove it. */
  predicate Changes(f: FlatFS, op: Op, ino: nat) {
    match op
    case Write(i, _, _) => i == ino
    case Fallocate(i, _, _) => i == ino
    case Open(i, flags) => i == ino && Truncates(flags)
    case Unlink(p, name) => p in f.dirs && name in f.dirs[p] && f.dirs[p][name] == ino
    case _ => false
  }

  predicate NeverChanges(c: nat, f: FlatFS, ops: seq<Op>, ino: nat)
    requires c > 0
  {
    ops == [] || (NeverChanges(c, f, ops[..|ops| - 1], ino)
                  && !Changes(Run(c, f, ops[..|ops| - 1]).0, ops[|ops| - 1], ino))
  }

  lemma SavedStep(c: nat, f: FlatFS, op: Op, ino: nat)
    requires c > 0 && FlatOk(f) && Legal(c, f, op) && ino in f.files && !Changes(f, op, ino)
    ensures var f' := Step(c, f, op).0;
      ino in f'.files && f'.files[ino].bytes == f.files[ino].bytes
      && (f.files[ino].status != Dirty ==> f'.files[ino].status != Dirty)
  {
    hide ExactWrite, ExactRead, ChunkEnd, ChunkStart;
  }

  /** A flushed file keeps its bytes, and keeps them on the disk, through every run that does not
      change it: reads of it, any operation on other files, evictions, forgets and remounts. */
  lemma {:induction false} StaysSaved(c: nat, f: FlatFS, ops: seq<Op>, ino: nat)
    requires c > 0 && FlatOk(f) && LegalRun(c, f, ops) && NeverChanges(c, f, ops, ino)
    requires ino in f.files && f.files[ino].status != Dirty
    ensures var f' := Run(c, f, ops).0;
      ino in f'.files && f'.files[ino].bytes == f.files[ino].bytes && f'.files[ino].status != Dirty
  {
    hide Step, Legal, FlatOk, Changes;
    if ops != [] {
      var init := ops[..|ops| - 1];
      RunOk(c, f, init);
      StaysSaved(c, f, init, ino);
      SavedStep(c, Run(c, f, init).0, ops[|ops| - 1], ino);
    }
  }

  // ---------- where runs and the usual file system part ----------

  /** A write replaces its range and no more, zero-filling a gap before it, and an empty one changes
      nothing; a read returns what of its range is there. The other operations are the code's own. */
  function PosixStep(c: nat, f: FlatFS, op: Op): (FlatFS, Out)
    requires c > 0
  {
    if op.Write? && Resident(f, op.ino) && op.ino in f.files then
      (f.(files := f.files[op.ino := FlatFile(PosixWrite(f.files[op.ino].bytes, op.off, op.data), Dirty)]), DONE)
    else if op.Read? && Resident(f, op.ino) && op.ino in f.files && op.off > |f.files[op.ino].bytes| then
      (f.(files := f.files[op.ino := ReadMark(f.files[op.ino])]), DONE)
    else Step(c, f, op)
  }

  function PosixWrite(b: Bytes, off: nat, data: Bytes): Bytes {
    if data == [] then b else Splice(b, off, data)
  }

  function ReadMark(file: FlatFile): FlatFile {
    if file.status == Quiet then file.(status := Clean) else file
  }

  function PosixRun(c: nat, f: FlatFS, ops: seq<Op>): (r: (FlatFS, seq<Out>))
    requires c > 0
    ensures |r.1| == |ops|
  {
    if ops == [] then (f, []) else
    var before := PosixRun(c, f, ops[..|ops| - 1]);
    var step := PosixStep(c, before.0, ops[|ops| - 1]);
    (step.0, before.1 + [step.1])
  }

  /** The operations that part: a write that drops a last byte that is not zero already, an empty write
      behind the end, and a read from behind the end, unless it asks for nothing inside the last chunk. */
  predicate Parts(c: nat, f: FlatFS, op: Op)
    requires c > 0
  {
    match op
    case Write(ino, off, data) =>
      Resident(f, ino) && ino in f.files
      && var b := f.files[ino].bytes;
      if data == [] then off > |b| else Lossy(c, |b|, off, |data|) && b[|b| - 1] != 0
    case Read(ino, off, size) =>
      Resident(f, ino) && ino in f.files
      && var n := |f.files[ino].bytes|; off > n && (size > 0 || CeilDiv(off, c) > CeilDiv(n, c))
    case _ => false
  }

  /** Five bytes asked for at 20, of a file of ten: five zeros come back; at 5000, with the chunk size
      4096, the read is refused. */
  lemma ReadExample(b: Bytes)
    requires |b| == 10
    ensures ExactRead(4096, b, 20, 5) == Out(0, 0, Zeros(5)) && ExactRead(4096, b, 5000, 5) == Fail(EINVAL)
  {
    assert CeilDiv(25, 4096) == 1 && CeilDiv(10, 4096) == 1 && CeilDiv(5005, 4096) == 2;
  }

  lemma WriteParts(c: nat, b: Bytes, off: nat, data: Bytes)
    requires c > 0
    ensures ExactWrite(c, b, off, data) == PosixWrite(b, off, data)
      <==> !(if data == [] then off > |b| else Lossy(c, |b|, off, |data|) && b[|b| - 1] != 0)
  {
    if data == [] {
      EmptyWrite(c, b, off);
    } else {
      ExactIsSplice(c, b, off, data);
    }
  }

  /** An empty write is never lossy, and extends the file when it lies behind the end. */
  lemma EmptyWrite(c: nat, b: Bytes, off: nat)
    requires c > 0
    ensures !Lossy(c, |b|, off, 0)
    ensures off <= |b| ==> ExactWrite(c, b, off, []) == b
    ensures off > |b| ==> ExactWrite(c, b, off, []) == b + Zeros(off - |b|) != b
  {
    if |b| > 0 { DivMod(|b| - 1, c); }
    assert Splice(b, off, []) == if off <= |b| then b else b + Zeros(off - |b|);
  }

  lemma StepParts(c: nat, f: FlatFS, op: Op)
    requires c > 0
    ensures Step(c, f, op) == PosixStep(c, f, op) <==> !Parts(c, f, op)
  {
    match op
    case Write(ino, off, data) =>
      if Resident(f, ino) && ino in f.files {
        WriteParts(c, f.files[ino].bytes, off, data);
        hide ExactWrite, PosixWrite, Lossy;
        assert DoWrite(c, f, ino, off, data).0.files[ino].bytes == ExactWrite(c, f.files[ino].bytes, off, data);
        assert PosixStep(c, f, op).0.files[ino].bytes == PosixWrite(f.files[ino].bytes, off, data);
      }
    case Read(ino, off, size) =>
      hide CeilDiv;
      if Resident(f, ino) && ino in f.files {
        var file := f.files[ino];
        assert f.files[ino := file] == f.files;
        if off > |file.bytes| && size > 0 { assert |Zeros(size)| > 0; }
      }
    case _ =>
  }

  predicate AgreeUpTo(c: nat, f: FlatFS, ops: seq<Op>, n: nat)
    requires c > 0 && n <= |ops|
  {
    forall i :: 0 <= i <= n ==> Run(c, f, ops[..i]) == PosixRun(c, f, ops[..i])
  }

  predicate NonePart(c: nat, f: FlatFS, ops: seq<Op>, n: nat)
    requires c > 0 && n <= |ops|
  {
    forall i :: 0 <= i < n ==> !Parts(c, Run(c, f, ops[..i]).0, ops[i])
  }

  /** A run agrees with the usual file system at every point, in state and in results, exactly when
      no operation of it parts from it. */
  lemma {:induction false} RunParts(c: nat, f: FlatFS, ops: seq<Op>, n: nat)
    requires c > 0 && n <= |ops|
    ensures AgreeUpTo(c, f, ops, n) <==> NonePart(c, f, ops, n)
  {
    if n == 0 {
      assert ops[..0] == [];
    } else {
      RunParts(c, f, ops, n - 1);
      UpToNext(c, f, ops, n - 1);
      hide Run, PosixRun, Parts;
      hide AgreeUpTo, NonePart;
      if AgreeUpTo(c, f, ops, n - 1) {
        assert Run(c, f, ops[..n - 1]) == PosixRun(c, f, ops[..n - 1]) by { UpTo(c, f, ops, n - 1); }
        LastAgrees(c, f, ops, n - 1);
      }
    }
  }

  lemma UpTo(c: nat, f: FlatFS, ops: seq<Op>, n: nat)
    requires c > 0 && n <= |ops| && AgreeUpTo(c, f, ops, n)
    ensures Run(c, f, ops[..n]) == PosixRun(c, f, ops[..n])
  {
    hide Run, PosixRun;
  }

  lemma UpToNext(c: nat, f: FlatFS, ops: seq<Op>, i: nat)
    requires c > 0 && i < |ops|
    ensures AgreeUpTo(c, f, ops, i + 1) <==>
      AgreeUpTo(c, f, ops, i) && Run(c, f, ops[..i + 1]) == PosixRun(c, f, ops[..i + 1])
    ensures NonePart(c, f, ops, i + 1) <==> NonePart(c, f, ops, i) && !Parts(c, Run(c, f, ops[..i]).0, ops[i])
  {
    hide Run, PosixRun, Parts;
  }

  lemma LastAgrees(c: nat, f: FlatFS, ops: seq<Op>, i: nat)
    requires c > 0 && i < |ops| && Run(c, f, ops[..i]) == PosixRun(c, f, ops[..i])
    ensures Run(c, f, ops[..i + 1]) == PosixRun(c, f, ops[..i + 1])
      <==> !Parts(c, Run(c, f, ops[..i]).0, ops[i])
  {
    hide Step, PosixStep, Parts;
    var before := Run(c, f, ops[..i]);
    StepParts(c, before.0, ops[i]);
    assert ops[..i + 1][..i] == ops[..i];
    var a, b := Step(c, before.0, ops[i]), PosixStep(c, before.0, ops[i]);
    if before.1 + [a.1] == before.1 + [b.1] {
      assert (before.1 + [a.1])[|before.1|] == (before.1 + [b.1])[|before.1|];
    }
  }

  // ---------- an example ----------

  const NAME: Name := [97]

  /** A file is made, written, read, flushed, unlinked and forgotten. */
  const EXAMPLE: seq<Op> :=
    [Op.Create(1, NAME), Op.Write(2, 0, [1, 2, 3, 4, 5, 6]), Op.Read(2, 1, 4), Op.Flush(2), Op.Unlink(1, NAME),
      Op.Forget(2, 1)]

  /** Its state after `i` operations. */
  function ExampleState(i: nat): FlatFS {
    var root: map<nat, map<Name, nat>> := map[1 := map[NAME := 2]];
    if i == 0 then EMPTY
    else if i == 1 then FlatFS(root, map[2 := FlatFile([], Quiet)], 3, map[2 := 1])
    else if i <= 3 then FlatFS(root, map[2 := FlatFile([1, 2, 3, 4, 5, 6], Dirty)], 3, map[2 := 1])
    else if i == 4 then FlatFS(root, map[2 := FlatFile([1, 2, 3, 4, 5, 6], Quiet)], 3, map[2 := 1])
    else if i == 5 then FlatFS(map[1 := map[]], map[], 3, map[2 := 1])
    else FlatFS(map[1 := map[]], map[], 3, map[])
  }

  function ExampleOut(i: nat): Out {
    if i == 0 then Out(0, 2, []) else if i == 2 then Out(0, 0, [2, 3, 4, 5]) else DONE
  }

  lemma ExampleStep(i: nat)
    requires i < 6
    ensures Legal(4, ExampleState(i), EXAMPLE[i])
    ensures Step(4, ExampleState(i), EXAMPLE[i]) == (ExampleState(i + 1), ExampleOut(i))
  {
    var f, g := ExampleState(i), Step(4, ExampleState(i), EXAMPLE[i]).0;
    if i == 0 {
      assert g.dirs[1] == map[NAME := 2];
    } else if i == 1 {
      assert ExactWrite(4, [], 0, [1, 2, 3, 4, 5, 6]) == [1, 2, 3, 4, 5, 6];
    } else if i == 2 {
      assert f.files[2].bytes[1..5] == [2, 3, 4, 5];
    } else if i == 4 {
      assert f.dirs[1] - {NAME} == map[];
    }
    assert g.dirs == ExampleState(i + 1).dirs;
    assert g.files == ExampleState(i + 1).files;
    assert g.refs == ExampleState(i + 1).refs;
  }

  /** The protocol can be kept to: the run is legal, and leaves nothing but the counter behind. */
  lemma ExampleRun()
    ensures LegalRun(4, EMPTY, EXAMPLE) && AllDraws(4, EXAMPLE) == 3
    ensures Run(4, EMPTY, EXAMPLE)
      == (FlatFS(map[1 := map[]], map[], 3, map[]), seq(6, i requires 0 <= i < 6 => ExampleOut(i)))
  {
    hide Step, Legal, ExampleOut, ExampleState, Draws, AllDraws;
    var outs := seq(6, i requires 0 <= i < 6 => ExampleOut(i));
    assert ExampleState(0) == EMPTY && ExampleState(6) == FlatFS(map[1 := map[]], map[], 3, map[]) by { ExampleEnds(); }
    var i := 0;
    assert EXAMPLE[..0] == [] && outs[..0] == [];
    assert AllDraws(4, []) == 0 by { NoDraws(); }
    while i < 6
      invariant 0 <= i <= 6 && LegalRun(4, EMPTY, EXAMPLE[..i])
      invariant Run(4, EMPTY, EXAMPLE[..i]) == (ExampleState(i), outs[..i])
      invariant AllDraws(4, EXAMPLE[..i]) == (if i == 0 then 0 else if i == 1 then 1 else 3)
    {
      ExampleStep(i);
      ExampleDraws(i);
      RunNext(4, EMPTY, EXAMPLE, i);
      assert outs[..i + 1] == outs[..i] + [outs[i]];
      i := i + 1;
    }
    assert EXAMPLE[..6] == EXAMPLE && outs[..6] == outs;
  }

  lemma NoDraws()
    ensures AllDraws(4, []) == 0
  {
  }

  lemma ExampleDraws(i: nat)
    requires i < 6
    ensures Draws(4, EXAMPLE[i]) == if i == 0 then 1 else if i == 1 then 2 else 0
  {
  }

  lemma ExampleEnds()
    ensures ExampleState(0) == EMPTY && ExampleState(6) == FlatFS(map[1 := map[]], map[], 3, map[])
  {
  }
}
