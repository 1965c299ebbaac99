/** The recency order a ChunkStore keeps, as a function of the accesses made to it. */
module Lru {
  import opened Uuid

  ghost predicate NoDup(s: seq<UUID>) {
    forall i, j :: 0 <= i < j < |s| ==> s[i] != s[j]
  }

  function Without(s: seq<UUID>, k: UUID): (r: seq<UUID>)
    ensures |r| <= |s|
    ensures k !in r && forall x :: x in r <==> x in s && x != k
  {
    if s == [] then [] else if s[0] == k then Without(s[1..], k) else [s[0]] + Without(s[1..], k)
  }

  /** The evict loop: the front goes until at most `cap` are left. */
  function Keep(cap: nat, s: seq<UUID>): (r: seq<UUID>)
    ensures |r| <= cap
  {
    if |s| > cap then s[|s| - cap..] else s
  }

  /** A chunk is loaded out of the store, or made, and pushed to its back. */
  function Use(cap: nat, s: seq<UUID>, k: UUID): (r: seq<UUID>)
    ensures |r| <= cap
  {
    Keep(cap, Without(s, k) + [k])
  }

  /** Taking a chunk out of the store to use it makes no difference to where it ends up. */
  lemma UseTaken(cap: nat, s: seq<UUID>, k: UUID)
    ensures Use(cap, Without(s, k), k) == Use(cap, s, k)
  {
    WithoutAbsent(Without(s, k), k);
  }

  datatype Access = Used(key: UUID) | Flushed(key: UUID)

  /** The store's order after a trace of chunk accesses and flushes. */
  function Order(cap: nat, trace: seq<Access>): seq<UUID>
  {
    if trace == [] then [] else
    var s, last := Order(cap, trace[..|trace| - 1]), trace[|trace| - 1];
    match last
    case Used(k) => Use(cap, s, k)
    case Flushed(k) => Without(s, k)
  }

  lemma {:induction false} OrderNext(cap: nat, trace: seq<Access>, a: Access)
    ensures Order(cap, trace + [a]) ==
      match a
      case Used(k) => Use(cap, Order(cap, trace), k)
      case Flushed(k) => Without(Order(cap, trace), k)
  {
    assert (trace + [a])[..|trace|] == trace;
  }

  lemma {:induction false} WithoutConcat(a: seq<UUID>, b: seq<UUID>, k: UUID)
    ensures Without(a + b, k) == Without(a, k) + Without(b, k)
  {
    if a == [] {
      assert a + b == b;
    } else {
      assert (a + b)[1..] == a[1..] + b;
      WithoutConcat(a[1..], b, k);
    }
  }

  lemma {:induction false} WithoutAbsent(s: seq<UUID>, k: UUID)
    requires k !in s
    ensures Without(s, k) == s
  {
    if s != [] { WithoutAbsent(s[1..], k); }
  }

  lemma {:induction false} WithoutAt(s: seq<UUID>, i: nat)
    requires NoDup(s) && i < |s|
    ensures Without(s, s[i]) == s[..i] + s[i + 1..]
  {
    var k, tail := s[i], s[1..];
    if i == 0 {
      assert forall j :: 0 <= j < |tail| ==> tail[j] == s[j + 1] != k;
      WithoutAbsent(tail, k);
    } else {
      assert s[0] != k;
      WithoutAt(tail, i - 1);
      assert [s[0]] + (tail[..i - 1] + tail[i..]) == s[..i] + s[i + 1..];
    }
  }

  /** Taking one key out of a list without duplicates closes the gap it leaves. */
  lemma WithoutIndices(s: seq<UUID>, k: UUID) returns (i: nat)
    requires NoDup(s)
    ensures i < |s| ==> s[i] == k && |Without(s, k)| == |s| - 1
    ensures i < |s| ==> forall j :: 0 <= j < |s| - 1 ==> Without(s, k)[j] == s[if j < i then j else j + 1]
    ensures i >= |s| ==> k !in s && Without(s, k) == s
  {
    if k in s {
      i :| 0 <= i < |s| && s[i] == k;
      WithoutAt(s, i);
    } else {
      i := |s|;
      WithoutAbsent(s, k);
    }
  }

  lemma WithoutNoDup(s: seq<UUID>, k: UUID)
    requires NoDup(s)
    ensures NoDup(Without(s, k))
  {
    var i := WithoutIndices(s, k);
    var r := Without(s, k);
    forall a, b | 0 <= a < b < |r| ensures r[a] != r[b] { }
  }

  ghost predicate Suffix(a: seq<UUID>, b: seq<UUID>) {
    |a| <= |b| && b[|b| - |a|..] == a
  }

  lemma WithoutSuffix(a: seq<UUID>, b: seq<UUID>, k: UUID)
    requires Suffix(a, b)
    ensures Suffix(Without(a, k), Without(b, k))
  {
    var p := b[..|b| - |a|];
    assert b == p + a;
    WithoutConcat(p, a, k);
  }

  lemma UseSuffix(small: nat, large: nat, s: seq<UUID>, t: seq<UUID>, k: UUID)
    requires small <= large && Suffix(s, t)
    ensures Suffix(Use(small, s, k), Use(large, t, k))
  {
    hide Without;
    WithoutSuffix(s, t, k);
    KeepSuffix(small, large, Without(s, k) + [k], Without(t, k) + [k]);
  }

  lemma KeepSuffix(small: nat, large: nat, a: seq<UUID>, b: seq<UUID>)
    requires small <= large && Suffix(a, b)
    ensures Suffix(Keep(small, a), Keep(large, b))
  {
  }

  lemma {:induction false} OrderNoDup(cap: nat, trace: seq<Access>)
    ensures NoDup(Order(cap, trace)) && |Order(cap, trace)| <= cap
  {
    if trace != [] {
      var before, k := trace[..|trace| - 1], trace[|trace| - 1].key;
      OrderNoDup(cap, before);
      WithoutNoDup(Order(cap, before), k);
    }
  }

  /** The inclusion property: on one trace, what a smaller store holds is the most recent part of what a
      larger one holds, in the same order. A hit in the smaller store is a hit in the larger one. */
  lemma {:induction false} Inclusion(small: nat, large: nat, trace: seq<Access>)
    requires small <= large
    ensures Suffix(Order(small, trace), Order(large, trace))
  {
    if trace != [] {
      var before, k := trace[..|trace| - 1], trace[|trace| - 1].key;
      Inclusion(small, large, before);
      WithoutSuffix(Order(small, before), Order(large, before), k);
      UseSuffix(small, large, Order(small, before), Order(large, before), k);
      hide Use, Without, Suffix;
    }
  }

  /** The step of `trace` that last pushed `k`, or -1. */
  function LastUse(trace: seq<Access>, k: UUID): (t: int)
    ensures -1 <= t < |trace| && (t >= 0 ==> trace[t] == Used(k))
  {
    if trace == [] then -1
    else if trace[|trace| - 1] == Used(k) then |trace| - 1
    else LastUse(trace[..|trace| - 1], k)
  }

  ghost predicate Ordered(trace: seq<Access>, s: seq<UUID>) {
    && (forall i :: 0 <= i < |s| ==> LastUse(trace, s[i]) >= 0)
    && (forall i, j :: 0 <= i < j < |s| ==> LastUse(trace, s[i]) < LastUse(trace, s[j]))
  }

  lemma WithoutOrdered(trace: seq<Access>, s: seq<UUID>, k: UUID)
    requires Ordered(trace, s) && NoDup(s)
    ensures Ordered(trace, Without(s, k))
  {
    var i := WithoutIndices(s, k);
    var r := Without(s, k);
    hide LastUse;
    forall a, b | 0 <= a < b < |r| ensures LastUse(trace, r[a]) < LastUse(trace, r[b]) { }
  }

  lemma OrderedLater(before: seq<Access>, a: Access, s: seq<UUID>)
    requires Ordered(before, s) && a.key !in s
    ensures Ordered(before + [a], s)
    ensures a.Used? ==> Ordered(before + [a], s + [a.key])
  {
    var trace := before + [a];
    assert trace[..|before|] == before;
    forall x | x in s ensures LastUse(trace, x) == LastUse(before, x) { }
    if a.Used? { assert LastUse(trace, a.key) == |before|; }
    hide LastUse;
  }

  /** The list is ordered by last access: the front is the least recently used, and the next to go. */
  lemma {:induction false} OrderedByLastUse(cap: nat, trace: seq<Access>)
    ensures Ordered(trace, Order(cap, trace))
  {
    if trace != [] {
      var before, last := trace[..|trace| - 1], trace[|trace| - 1];
      var s := Order(cap, before);
      OrderedByLastUse(cap, before);
      OrderNoDup(cap, before);
      WithoutOrdered(before, s, last.key);
      OrderedLater(before, last, Without(s, last.key));
      assert trace == before + [last];
      hide LastUse, Without;
    }
  }
}
