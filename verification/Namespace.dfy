/** The tree of names: what every operation keeps of it, and that each inode has exactly one path. */
module Namespace {
  import opened Bytes
  import opened Layout
  import opened Pieces
  import opened Coherence
  import TreeSteps
  import FileSteps

  function KindOf(node: Node): nat {
    if node.FileNode? then T_DT_REG else T_DT_DIR
  }

  /** An entry names a younger inode, of the kind and with the identifier it says, that names `d` its parent. */
  ghost predicate EntryOk(m: Model, d: nat, e: Dirent) {
    && d < e.ino && e.ino in m.nodes && m.nodes[e.ino].parent == d
    && m.nodes[e.ino].uuid == e.uuid && KindOf(m.nodes[e.ino]) == e.kind
    && |e.name| < MAX_PATH_LEN
  }

  ghost predicate Increasing(es: seq<Dirent>) {
    forall i, j :: 0 <= i < j < |es| ==> es[i].ino < es[j].ino
  }

  ghost predicate DistinctNames(es: seq<Dirent>) {
    forall i, j :: 0 <= i < j < |es| ==> es[i].name != es[j].name
  }

  ghost predicate EntriesOk(m: Model, d: nat, es: seq<Dirent>) {
    && Increasing(es) && DistinctNames(es)
    && forall i :: 0 <= i < |es| ==> EntryOk(m, d, es[i])
  }

  ghost predicate Listed(es: seq<Dirent>, ino: nat) {
    exists i :: 0 <= i < |es| && es[i].ino == ino
  }

  ghost predicate HasParent(m: Model, i: nat)
    requires i in m.nodes
  {
    var q := m.nodes[i].parent;
    q in m.nodes && m.nodes[q].DirNode? && Listed(m.nodes[q].entries, i)
  }

  /** The entries form a tree rooted at inode 1: names are unique in a directory, every other inode is
      listed by its one parent, and a parent is older than its children. */
  ghost predicate TreeOk(m: Model) {
    && 2 <= m.maxIno < WORD
    && 1 in m.nodes && m.nodes[1].DirNode?
    && (forall i :: i in m.nodes ==> 1 <= i < m.maxIno)
    && (forall i :: i in m.nodes && m.nodes[i].DirNode? ==>
          |m.nodes[i].name| < MAX_PATH_LEN && EntriesOk(m, i, m.nodes[i].entries))
    && (forall i :: i in m.nodes && i != 1 ==> HasParent(m, i))
  }

  ghost predicate ShapesOk(c: nat, m: Model) {
    forall i :: i in m.nodes && m.nodes[i].FileNode? ==> FileShape(c, m.nodes[i].size, m.nodes[i].pieces)
  }

  /** From `m` to `m'` new numbers are above the old counter, and an inode that stays keeps its identifier;
      the user table is the same. */
  ghost predicate Descends(m: Model, m': Model) {
    && m.maxIno <= m'.maxIno && m'.users == m.users
    && forall i :: i in m'.nodes && i < m.maxIno ==> i in m.nodes && m'.nodes[i].uuid == m.nodes[i].uuid
  }

  lemma DescendsSame(m: Model)
    ensures Descends(m, m)
  {
  }

  lemma DescendsOn(a: Model, b: Model, c: Model)
    requires Descends(a, b) && Descends(b, c)
    ensures Descends(a, c)
  {
  }

  // ---------- a directory's dump always fits its fields ----------

  lemma {:induction false} IncreasingBound(es: seq<Dirent>, n: nat)
    requires Increasing(es) && forall i :: 0 <= i < |es| ==> es[i].ino < n
    ensures |es| <= n
  {
    if es != [] {
      var last := es[|es| - 1];
      IncreasingBound(es[..|es| - 1], last.ino);
    }
  }

  lemma DirFits(m: Model, d: nat, name: Name, es: seq<Dirent>)
    requires TreeOk(m) && d < WORD && |name| < MAX_PATH_LEN && EntriesOk(m, d, es)
    ensures DirRecFits(DirRec(d, name, es))
  {
    forall i | 0 <= i < |es| ensures DirentFits(es[i]) && |es[i].name| < MAX_PATH_LEN && es[i].ino < m.maxIno {
      assert EntryOk(m, d, es[i]);
    }
    IncreasingBound(es, m.maxIno);
  }

  // ---------- adding and removing an entry ----------

  function NewEntry(m: Model, name: Name, node: Node): Dirent {
    Dirent(m.maxIno, name, KindOf(node), node.uuid)
  }

  /** mkdir and create: an entry at the end of the parent, and the node it names. */
  function Grown(m: Model, p: nat, name: Name, node: Node): Model
    requires p in m.nodes && m.nodes[p].DirNode?
  {
    var parent := m.nodes[p].(entries := m.nodes[p].entries + [NewEntry(m, name, node)]);
    TreeSteps.WithNode(FileSteps.SetNode(m, p, parent), node)
  }

  ghost predicate Fresh(es: seq<Dirent>, name: Name) {
    forall i :: 0 <= i < |es| ==> es[i].name != name
  }

  lemma GrownEntries(m: Model, p: nat, name: Name, node: Node, d: nat)
    requires TreeOk(m) && p in m.nodes && m.nodes[p].DirNode? && node.parent == p
    requires Fresh(m.nodes[p].entries, name) && |name| < MAX_PATH_LEN
    requires d in m.nodes && m.nodes[d].DirNode?
    ensures var es := m.nodes[d].entries;
      EntriesOk(Grown(m, p, name, node), d, if d == p then es + [NewEntry(m, name, node)] else es)
  {
    var m', es := Grown(m, p, name, node), m.nodes[d].entries;
    forall i | 0 <= i < |es| ensures EntryOk(m', d, es[i]) && es[i].ino < m.maxIno {
      assert EntryOk(m, d, es[i]);
    }
    assert d == p ==> EntryOk(m', d, NewEntry(m, name, node));
  }

  lemma GrownOk(m: Model, p: nat, name: Name, node: Node)
    requires TreeOk(m) && p in m.nodes && m.nodes[p].DirNode? && node.parent == p && m.maxIno + 1 < WORD
    requires Fresh(m.nodes[p].entries, name) && |name| < MAX_PATH_LEN
    requires node.DirNode? ==> node.entries == [] && |node.name| < MAX_PATH_LEN
    ensures TreeOk(Grown(m, p, name, node))
  {
    hide EntriesOk, Listed, Fresh, HasParent, Grown;
    GrownNodes(m, p, name, node);
    ParentsBelow(m);
    var m' := Grown(m, p, name, node);
    forall d | d in m'.nodes && m'.nodes[d].DirNode? ensures EntriesOk(m', d, m'.nodes[d].entries) {
      if d == m.maxIno { NoEntriesOk(m', d); } else { GrownEntries(m, p, name, node, d); }
    }
    forall i | i in m'.nodes && i != 1 ensures HasParent(m', i) {
      GrownParent(m, p, name, node, i);
    }
  }

  lemma ParentsBelow(m: Model)
    requires TreeOk(m)
    ensures forall i :: i in m.nodes && i != 1 ==> m.nodes[i].parent < m.maxIno
  {
    hide EntriesOk, Listed;
  }

  lemma GrownNodes(m: Model, p: nat, name: Name, node: Node)
    requires p in m.nodes && m.nodes[p].DirNode? && p < m.maxIno
    ensures var m' := Grown(m, p, name, node);
      && m'.maxIno == m.maxIno + 1 && m'.refs == m.refs[m.maxIno := 1]
      && (forall i :: i in m'.nodes <==> i in m.nodes || i == m.maxIno)
      && m'.nodes[m.maxIno] == node
      && (forall i :: i in m'.nodes && i != p && i != m.maxIno ==> m'.nodes[i] == m.nodes[i])
      && m'.nodes[p] == m.nodes[p].(entries := m.nodes[p].entries + [NewEntry(m, name, node)])
  {
  }

  lemma NoEntriesOk(m: Model, d: nat)
    ensures EntriesOk(m, d, [])
  {
  }

  lemma GrownParent(m: Model, p: nat, name: Name, node: Node, i: nat)
    requires p in m.nodes && m.nodes[p].DirNode? && node.parent == p && p < m.maxIno
    requires i == m.maxIno || (i in m.nodes && HasParent(m, i) && m.nodes[i].parent < m.maxIno)
    ensures i in Grown(m, p, name, node).nodes && HasParent(Grown(m, p, name, node), i)
  {
    var m' := Grown(m, p, name, node);
    if i == m.maxIno {
      assert m'.nodes[p].entries[|m.nodes[p].entries|].ino == i;
    } else {
      var q := m.nodes[i].parent;
      var j :| 0 <= j < |m.nodes[q].entries| && m.nodes[q].entries[j].ino == i;
      assert m'.nodes[q].entries[j].ino == i;
    }
  }

  function CutAt<T>(s: seq<T>, i: nat): seq<T>
    requires i < |s|
  {
    s[..i] + s[i + 1..]
  }

  /** unlink and rmdir: the node at entry `k` of directory `p` is gone, and the entry with it. */
  function Pruned(m: Model, p: nat, k: nat): Model
    requires p in m.nodes && m.nodes[p].DirNode? && k < |m.nodes[p].entries|
  {
    FileSteps.SetNode(TreeSteps.WithoutNode(m, m.nodes[p].entries[k].ino), p,
                      m.nodes[p].(entries := CutAt(m.nodes[p].entries, k)))
  }

  ghost predicate Leaf(node: Node) {
    node.FileNode? || node.entries == []
  }

  lemma CutIndex<T>(s: seq<T>, k: nat, i: nat)
    requires k < |s| && i < |s| - 1
    ensures CutAt(s, k)[i] == s[if i < k then i else i + 1]
  {
  }

  lemma PrunedEntries(m: Model, p: nat, k: nat, d: nat)
    requires TreeOk(m) && p in m.nodes && m.nodes[p].DirNode? && k < |m.nodes[p].entries|
    requires d in m.nodes && m.nodes[d].DirNode? && d != m.nodes[p].entries[k].ino
    ensures EntriesOk(Pruned(m, p, k), d, if d == p then CutAt(m.nodes[p].entries, k) else m.nodes[d].entries)
  {
    var m', es, gone := Pruned(m, p, k), m.nodes[d].entries, m.nodes[p].entries[k].ino;
    assert EntryOk(m, p, m.nodes[p].entries[k]);
    var es' := if d == p then CutAt(es, k) else es;
    forall i | 0 <= i < |es'| ensures EntryOk(m', d, es'[i]) {
      var j := if d == p && i >= k then i + 1 else i;
      assert es'[i] == es[j];
      assert EntryOk(m, d, es[j]);
      assert es[j].ino != gone;
    }
    forall i, j | 0 <= i < j < |es'| ensures es'[i].ino < es'[j].ino && es'[i].name != es'[j].name {
      if d == p {
        CutIndex(es, k, i);
        CutIndex(es, k, j);
      }
    }
  }

  lemma Younger(m: Model, p: nat, k: nat)
    requires p in m.nodes && m.nodes[p].DirNode? && k < |m.nodes[p].entries|
    requires EntriesOk(m, p, m.nodes[p].entries)
    ensures p < m.nodes[p].entries[k].ino
  {
    assert EntryOk(m, p, m.nodes[p].entries[k]);
  }

  lemma PrunedOk(m: Model, p: nat, k: nat)
    requires TreeOk(m) && p in m.nodes && m.nodes[p].DirNode? && k < |m.nodes[p].entries|
    requires m.nodes[p].entries[k].ino in m.nodes && Leaf(m.nodes[m.nodes[p].entries[k].ino])
    ensures TreeOk(Pruned(m, p, k))
  {
    hide EntriesOk, Listed, HasParent, EntryOk, Pruned, CutAt;
    Younger(m, p, k);
    PrunedNodes(m, p, k);
    var m' := Pruned(m, p, k);
    forall d | d in m'.nodes && m'.nodes[d].DirNode? ensures EntriesOk(m', d, m'.nodes[d].entries) {
      PrunedEntries(m, p, k, d);
    }
    forall i | i in m'.nodes && i != 1 ensures HasParent(m', i) {
      PrunedParent(m, p, k, i);
    }
  }

  lemma PrunedNodes(m: Model, p: nat, k: nat)
    requires p in m.nodes && m.nodes[p].DirNode? && k < |m.nodes[p].entries| && p != m.nodes[p].entries[k].ino
    ensures var m', gone := Pruned(m, p, k), m.nodes[p].entries[k].ino;
      && m'.maxIno == m.maxIno && m'.refs == m.refs
      && (forall i :: i in m'.nodes <==> i in m.nodes && i != gone)
      && (forall i :: i in m'.nodes && i != p ==> m'.nodes[i] == m.nodes[i])
      && m'.nodes[p] == m.nodes[p].(entries := CutAt(m.nodes[p].entries, k))
  {
  }

  lemma PrunedParent(m: Model, p: nat, k: nat, i: nat)
    requires p in m.nodes && m.nodes[p].DirNode? && k < |m.nodes[p].entries| && p != m.nodes[p].entries[k].ino
    requires m.nodes[p].entries[k].ino in m.nodes && Leaf(m.nodes[m.nodes[p].entries[k].ino])
    requires i in m.nodes && i != m.nodes[p].entries[k].ino && HasParent(m, i)
    ensures i in Pruned(m, p, k).nodes && HasParent(Pruned(m, p, k), i)
  {
    var m', q, es := Pruned(m, p, k), m.nodes[i].parent, m.nodes[m.nodes[i].parent].entries;
    var j :| 0 <= j < |es| && es[j].ino == i;
    if q == p {
      var l := if j < k then j else j - 1;
      CutIndex(es, k, l);
      assert m'.nodes[p].entries[l].ino == i;
    } else {
      assert m'.nodes[q].entries[j].ino == i;
    }
  }

  /** Changing what a file holds leaves the tree as it is. */
  lemma ContentOk(m: Model, ino: nat, node: Node)
    requires TreeOk(m) && ino in m.nodes && m.nodes[ino].FileNode? && node.FileNode?
    requires node.uuid == m.nodes[ino].uuid && node.parent == m.nodes[ino].parent
    ensures TreeOk(FileSteps.SetNode(m, ino, node))
  {
    hide EntriesOk, Listed;
    var m' := FileSteps.SetNode(m, ino, node);
    forall d | d in m'.nodes && m'.nodes[d].DirNode? ensures EntriesOk(m', d, m'.nodes[d].entries) {
      KeptEntries(m, m', d, m.nodes[d].entries);
    }
    forall i | i in m'.nodes && i != 1 ensures HasParent(m', i) {
      assert HasParent(m, i);
    }
  }

  lemma KeptEntries(m: Model, m': Model, d: nat, es: seq<Dirent>)
    requires EntriesOk(m, d, es) && m'.nodes.Keys == m.nodes.Keys
    requires forall i :: i in m.nodes ==>
      (m'.nodes[i].uuid == m.nodes[i].uuid && m'.nodes[i].parent == m.nodes[i].parent
       && m'.nodes[i].FileNode? == m.nodes[i].FileNode?)
    ensures EntriesOk(m', d, es)
  {
    forall i | 0 <= i < |es| ensures EntryOk(m', d, es[i]) {
      assert EntryOk(m, d, es[i]);
    }
  }

  /** Nor do references, or a remount. */
  lemma SameNodesOk(m: Model, m': Model)
    requires TreeOk(m) && m'.maxIno == m.maxIno && m'.nodes.Keys == m.nodes.Keys
    requires forall i :: i in m.nodes ==> m'.nodes[i] == m.nodes[i] || m'.nodes[i] == TreeSteps.Settled(m.nodes[i])
    ensures TreeOk(m')
  {
    hide EntriesOk, Listed;
    forall d | d in m'.nodes && m'.nodes[d].DirNode? ensures EntriesOk(m', d, m'.nodes[d].entries) {
      KeptEntries(m, m', d, m.nodes[d].entries);
    }
    forall i | i in m'.nodes && i != 1 ensures HasParent(m', i) {
      assert HasParent(m, i);
    }
  }
}
