/** The write-back cache of chunks shared by all files (enclave/volume.cpp): a list in recency order and
    a map from identifiers to list nodes, changed together. */
module ChunkStores {
  import opened Bytes
  import opened Uuid
  import opened Nodes
  import opened Lru

  /** A cached chunk, and the slot of the file's table that it stands for. */
  datatype ChunkCache = ChunkCache(data: Bytes, modified: bool, filenode: Filenode, idx: nat)

  /** A node of the list. A reference to one is an iterator: it stays good until the node is erased. */
  class ListNode {
    const key: UUID
    const cache: ChunkCache

    constructor (key: UUID, cache: ChunkCache)
      ensures this.key == key && this.cache == cache
    {
      this.key, this.cache := key, cache;
    }
  }

  /** One node for each key, filed under its own key. */
  ghost predicate Bijection(list: seq<ListNode>, index: map<UUID, ListNode>) {
    && (forall i :: 0 <= i < |list| ==> list[i].key in index && index[list[i].key] == list[i])
    && (forall k :: k in index ==> index[k] in list && index[k].key == k)
    && (forall i, j :: 0 <= i < j < |list| ==> list[i] != list[j])
  }

  /** The keys of the list, front first. */
  ghost function KeysOf(list: seq<ListNode>): (s: seq<UUID>)
    ensures |s| == |list| && forall i :: 0 <= i < |s| ==> s[i] == list[i].key
  {
    seq(|list|, i requires 0 <= i < |list| => list[i].key)
  }

  lemma KeysDistinct(list: seq<ListNode>, index: map<UUID, ListNode>)
    requires Bijection(list, index)
    ensures NoDup(KeysOf(list))
    ensures forall k :: k in KeysOf(list) <==> k in index
  {
    forall k | k in index ensures k in KeysOf(list) {
      var i :| 0 <= i < |list| && list[i] == index[k];
      assert KeysOf(list)[i] == k;
    }
  }

  lemma ErasedBijection(list: seq<ListNode>, index: map<UUID, ListNode>, i: nat)
    requires Bijection(list, index) && i < |list|
    ensures Bijection(list[..i] + list[i + 1..], index - {list[i].key})
  {
    var r, m := list[..i] + list[i + 1..], index - {list[i].key};
    forall k | k in m ensures m[k] in r {
      var j :| 0 <= j < |list| && list[j] == index[k];
      assert j != i;
      assert r[if j < i then j else j - 1] == list[j];
    }
    forall j | 0 <= j < |r| ensures r[j] == list[if j < i then j else j + 1] {}
  }

  lemma ErasedKeys(list: seq<ListNode>, index: map<UUID, ListNode>, i: nat)
    requires Bijection(list, index) && i < |list|
    ensures KeysOf(list[..i] + list[i + 1..]) == Without(KeysOf(list), list[i].key)
  {
    KeysDistinct(list, index);
    hide Bijection, Without, NoDup;
    WithoutAt(KeysOf(list), i);
    assert KeysOf(list[..i] + list[i + 1..]) == KeysOf(list)[..i] + KeysOf(list)[i + 1..];
  }

  lemma PushedBijection(list: seq<ListNode>, index: map<UUID, ListNode>, node: ListNode)
    requires Bijection(list, index) && node.key !in index
    ensures Bijection(list + [node], index[node.key := node])
    ensures KeysOf(list + [node]) == KeysOf(list) + [node.key]
  {
    var r, m := list + [node], index[node.key := node];
    forall k | k in m ensures m[k] in r {
      if k in index { assert index[k] in list; } else { assert r[|list|] == node; }
    }
  }

  class ChunkStore {
    var list: seq<ListNode>
    var index: map<UUID, ListNode>

    /** List and map agree. */
    ghost predicate Valid()
      reads this`list, this`index
    {
      Bijection(list, index)
    }

    /** The keys, least recently pushed first. */
    ghost function Keys(): seq<UUID>
      reads this`list
    {
      KeysOf(list)
    }

    /** The cached chunks by key. */
    ghost function Entries(): map<UUID, ChunkCache>
      reads this`index
    {
      map k | k in index :: index[k].cache
    }

    constructor ()
      ensures Valid() && Keys() == [] && Entries() == map[]
    {
      list, index := [], map[];
    }

    /** The store of a newly started enclave. */
    method Clear()
      modifies this
      ensures Valid() && Keys() == [] && Entries() == map[]
    {
      list, index := [], map[];
    }

    /** std::list::erase, and the map entry with it. */
    method EraseNode(it: ListNode)
      requires Valid() && it in list
      modifies this
      ensures Valid()
      ensures Keys() == Without(old(Keys()), it.key)
      ensures Entries() == old(Entries()) - {it.key}
    {
      hide Without, Bijection;
      var i :| 0 <= i < |list| && list[i] == it;
      ErasedBijection(list, index, i);
      ErasedKeys(list, index, i);
      list := list[..i] + list[i + 1..];
      index := index - {it.key};
    }

    /** Pushing under a key that is there already replaces its node. */
    method PushGetBack(uuid: UUID, cache: ChunkCache)
      requires Valid()
      modifies this
      ensures Valid()
      ensures Keys() == Without(old(Keys()), uuid) + [uuid]
      ensures Entries() == old(Entries())[uuid := cache]
    {
      if uuid in index {
        EraseNode(index[uuid]);
        assert uuid !in Entries();
      } else {
        assert Without(Keys(), uuid) == Keys() by {
          KeysDistinct(list, index);
          WithoutAbsent(Keys(), uuid);
        }
      }
      PushNew(uuid, cache);
    }

    method PushNew(uuid: UUID, cache: ChunkCache)
      requires Valid() && uuid !in Entries()
      modifies this
      ensures Valid()
      ensures Keys() == old(Keys()) + [uuid]
      ensures Entries() == old(Entries())[uuid := cache]
    {
      hide Bijection, KeysOf;
      var node := new ListNode(uuid, cache);
      PushedBijection(list, index, node);
      list := list + [node];
      index := index[uuid := node];
    }

    method GetPopFront() returns (key: UUID, cache: ChunkCache)
      requires Valid() && list != []
      modifies this
      ensures Valid()
      ensures old(Keys()) == [key] + Keys()
      ensures key in old(Entries()) && cache == old(Entries())[key] && Entries() == old(Entries()) - {key}
    {
      var front := list[0];
      key, cache := front.key, front.cache;
      KeysDistinct(list, index);
      WithoutAt(Keys(), 0);
      EraseNode(front);
    }

    method FindByKey(uuid: UUID) returns (it: ListNode?)
      requires Valid()
      ensures it == null <==> uuid !in Entries()
      ensures it != null ==> it in list && it.key == uuid && it.cache == Entries()[uuid]
    {
      if uuid !in index {
        return null;
      }
      return index[uuid];
    }

    method GetErase(it: ListNode) returns (cache: ChunkCache)
      requires Valid() && it in list
      modifies this
      ensures Valid() && cache == it.cache
      ensures Keys() == Without(old(Keys()), it.key)
      ensures Entries() == old(Entries()) - {it.key}
    {
      cache := it.cache;
      EraseNode(it);
    }

    /** On a miss `cache` is left as it was. */
    method GetEraseByKey(uuid: UUID, cache: ChunkCache) returns (found: bool, out: ChunkCache)
      requires Valid()
      modifies this
      ensures Valid()
      ensures found == (uuid in old(Entries()))
      ensures out == if found then old(Entries())[uuid] else cache
      ensures Keys() == Without(old(Keys()), uuid)
      ensures Entries() == old(Entries()) - {uuid}
    {
      KeysDistinct(list, index);
      if uuid !in index {
        WithoutAbsent(Keys(), uuid);
        return false, cache;
      }
      out := index[uuid].cache;
      EraseNode(index[uuid]);
      found := true;
    }
  }
}
