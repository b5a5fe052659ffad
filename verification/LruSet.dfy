/** The duplicate filter as the code builds it: a doubly linked list of keys together with a map
    from each key to its own list node. */
module LruSet {
  import opened LruSpec

  class ListNode<K> {
    const key: K
    var prev: ListNode?<K>
    var next: ListNode?<K>

    constructor (key: K)
      ensures this.key == key && prev == null && next == null
    {
      this.key := key;
      prev, next := null, null;
    }
  }

  /** s without its element at i. */
  function Cut<T>(s: seq<T>, i: nat): seq<T>
    requires i < |s|
  {
    s[..i] + s[i + 1..]
  }

  lemma CutAt<T>(s: seq<T>, i: nat)
    requires i < |s|
    ensures |Cut(s, i)| == |s| - 1
    ensures forall j :: 0 <= j < |s| - 1 ==> Cut(s, i)[j] == s[if j < i then j else j + 1]
  {
  }

  /** A doubly linked list; `nodes` is its ghost spine and `keys` what the nodes hold, front first. */
  class LinkedKeys<K> {
    var front: ListNode?<K>
    var rear: ListNode?<K>
    var size: nat
    ghost var nodes: seq<ListNode<K>>
    ghost var keys: seq<K>

    ghost predicate Valid()
      reads this, nodes
    {
      && size == |nodes| == |keys|
      && (forall i :: 0 <= i < |nodes| ==> nodes[i].key == keys[i])
      && (forall i, j :: 0 <= i < j < |nodes| ==> nodes[i] != nodes[j])
      && (nodes == [] ==> front == null && rear == null)
      && (nodes != [] ==> front == nodes[0] && front.prev == null)
      && (nodes != [] ==> rear == nodes[|nodes| - 1] && rear.next == null)
      && (forall i, j :: 0 <= i < |nodes| && j == i + 1 < |nodes| ==>
            nodes[i].next == nodes[j] && nodes[j].prev == nodes[i])
    }

    constructor ()
      ensures Valid() && nodes == [] && keys == []
    {
      front, rear, size := null, null, 0;
      nodes, keys := [], [];
    }

    method PushFront(key: K) returns (n: ListNode<K>)
      requires Valid()
      modifies this, nodes
      ensures Valid() && fresh(n) && n.key == key
      ensures nodes == [n] + old(nodes) && keys == [key] + old(keys)
    {
      n := new ListNode(key);
      n.next := front;
      assert forall i :: 0 <= i < |nodes| ==> nodes[i] != n;
      if front == null {
        rear := n;
      } else {
        front.prev := n;
      }
      front, size := n, size + 1;
      nodes, keys := [n] + nodes, [key] + keys;
    }

    method Erase(n: ListNode<K>, ghost i: nat)
      requires Valid() && i < |nodes| && nodes[i] == n
      modifies this, nodes
      ensures Valid() && nodes == Cut(old(nodes), i) && keys == Cut(old(keys), i)
    {
      hide Cut;
      CutAt(nodes, i);
      CutAt(keys, i);
      ghost var was, last := nodes, |nodes| - 1;
      Unlink(n, i);
      size := size - 1;
      nodes, keys := Cut(nodes, i), Cut(keys, i);
      assert last > 0 ==> front == was[if i == 0 then 1 else 0] == nodes[0];
      assert last > 0 ==> rear == was[if i == last then last - 1 else last] == nodes[last - 1];
      assert forall j :: 0 <= j < last ==> nodes[j] == was[if j < i then j else j + 1];
    }

    /** Its neighbours, or the list's ends, are linked past n; no other link changes. */
    method Unlink(n: ListNode<K>, ghost i: nat)
      requires Valid() && i < |nodes| && nodes[i] == n
      modifies this`front, this`rear, nodes
      ensures front == if i == 0 then old(n.next) else old(front)
      ensures rear == if i == |nodes| - 1 then old(n.prev) else old(rear)
      ensures forall j :: 0 <= j < |nodes| ==> nodes[j].next == old(if j == i - 1 then n.next else nodes[j].next)
      ensures forall j :: 0 <= j < |nodes| ==> nodes[j].prev == old(if j == i + 1 then n.prev else nodes[j].prev)
    {
      assert i > 0 ==> n.prev == nodes[i - 1];
      assert i + 1 < |nodes| ==> n.next == nodes[i + 1];
      if n.prev == null {
        front := n.next;
      } else {
        n.prev.next := n.next;
      }
      if n.next == null {
        rear := n.prev;
      } else {
        n.next.prev := n.prev;
      }
    }
  }

  /** No key twice, and the map sends exactly the listed keys, each to its own node. */
  ghost predicate Agree<K(!new)>(cacheMap: map<K, ListNode<K>>, keys: seq<K>, nodes: seq<ListNode<K>>) {
    && |keys| == |nodes|
    && (forall k :: k in cacheMap ==> k in keys)
    && (forall i :: 0 <= i < |keys| ==> keys[i] in cacheMap && cacheMap[keys[i]] == nodes[i])
  }

  lemma AgreeMeansDistinct<K(!new)>(cacheMap: map<K, ListNode<K>>, keys: seq<K>, nodes: seq<ListNode<K>>)
    requires Agree(cacheMap, keys, nodes)
    requires forall i, j :: 0 <= i < j < |nodes| ==> nodes[i] != nodes[j]
    ensures Distinct(keys)
  {
  }

  lemma AgreeMeansAbsent<K(!new)>(cacheMap: map<K, ListNode<K>>, keys: seq<K>, nodes: seq<ListNode<K>>, k: K)
    requires Agree(cacheMap, keys, nodes) && k !in keys
    ensures cacheMap - {k} == cacheMap
  {
  }

  lemma AgreeAfterPush<K(!new)>(cacheMap: map<K, ListNode<K>>, keys: seq<K>, nodes: seq<ListNode<K>>,
                                k: K, n: ListNode<K>)
    requires Agree(cacheMap, keys, nodes) && k !in keys
    ensures Agree(cacheMap[k := n], [k] + keys, [n] + nodes)
  {
  }

  lemma AgreeAfterErase<K(!new)>(cacheMap: map<K, ListNode<K>>, keys: seq<K>, nodes: seq<ListNode<K>>, i: nat)
    requires Agree(cacheMap, keys, nodes) && Distinct(keys) && i < |keys|
    ensures Agree(cacheMap - {keys[i]}, keys[..i] + keys[i + 1..], nodes[..i] + nodes[i + 1..])
    ensures keys[i] !in keys[..i] + keys[i + 1..]
  {
    var cut, rest := keys[..i] + keys[i + 1..], nodes[..i] + nodes[i + 1..];
    forall j | 0 <= j < |cut|
      ensures cut[j] in cacheMap - {keys[i]} && cacheMap[cut[j]] == rest[j]
    {
      assert cut[j] == keys[if j < i then j else j + 1];
    }
    forall k | k in cacheMap && k != keys[i] ensures k in cut {
      var j :| 0 <= j < |keys| && keys[j] == k;
      assert cut[if j < i then j else j - 1] == k;
    }
  }

  class LruSet<K(==,!new)> {
    const capacity: Capacity
    const cacheList: LinkedKeys<K>
    var cacheMap: map<K, ListNode<K>>

    /** List and map agree (so no key is listed twice) and the list is never over capacity. */
    ghost predicate Valid()
      reads this, cacheList, cacheList.nodes
    {
      && cacheList.Valid() && cacheList.size <= capacity
      && Agree(cacheMap, cacheList.keys, cacheList.nodes)
    }

    ghost function Keys(): seq<K>
      reads this, cacheList
    {
      cacheList.keys
    }

    constructor (capacity: Capacity)
      ensures Valid() && Keys() == [] && this.capacity == capacity
      ensures fresh(cacheList) && fresh(cacheList.nodes)
    {
      this.capacity := capacity;
      cacheList := new LinkedKeys();
      cacheMap := map[];
    }

    method Add(key: K)
      requires Valid()
      modifies this, cacheList, cacheList.nodes
      ensures Valid() && Keys() == Touch(old(Keys()), key, capacity)
    {
      assert key in cacheMap <==> key in Keys();
      hide Agree, LinkedKeys.Valid, Remove;
      if key in cacheMap {
        Detach(key);
      } else {
        EvictIfFull(key);
      }
      PutInFront(key);
    }

    /** The key is new: afterwards there is room for it. */
    method EvictIfFull(key: K)
      requires Valid() && key !in Keys()
      modifies this, cacheList, cacheList.nodes
      ensures cacheList.Valid() && cacheList.size < capacity
      ensures Agree(cacheMap - {key}, cacheList.keys, cacheList.nodes) && key !in Keys()
      ensures Keys() == if |old(Keys())| >= capacity then old(Keys())[..|old(Keys())| - 1] else old(Keys())
      ensures forall j :: 0 <= j < |cacheList.nodes| ==> cacheList.nodes[j] in old(cacheList.nodes)
    {
      assert cacheList.size == |Keys()|;
      ghost var before := Keys();
      if cacheList.size >= capacity {
        Evict();
      }
      assert forall k :: k in Keys() ==> k in before;
      AgreeMeansAbsent(cacheMap, cacheList.keys, cacheList.nodes, key);
    }

    /** The key exists: the list forgets its node, which the map still points at. */
    method Detach(key: K)
      requires Valid() && key in cacheMap
      modifies cacheList, cacheList.nodes
      ensures cacheList.Valid() && cacheList.size == old(cacheList.size) - 1
      ensures Agree(cacheMap - {key}, cacheList.keys, cacheList.nodes) && key !in Keys()
      ensures Keys() == Remove(old(Keys()), key)
      ensures forall j :: 0 <= j < |cacheList.nodes| ==> cacheList.nodes[j] in old(cacheList.nodes)
    {
      hide Remove, Distinct;
      AgreeMeansDistinct(cacheMap, cacheList.keys, cacheList.nodes);
      ghost var i :| 0 <= i < |Keys()| && Keys()[i] == key;
      RemoveIsCut(Keys(), i);
      AgreeAfterErase(cacheMap, cacheList.keys, cacheList.nodes, i);
      cacheList.Erase(cacheMap[key], i);
    }

    /** The list is full: the least recently used key leaves list and map. */
    method Evict()
      requires Valid() && Keys() != []
      modifies this, cacheList, cacheList.nodes
      ensures Valid() && Keys() == old(Keys())[..|old(Keys())| - 1]
      ensures cacheList.size == old(cacheList.size) - 1
      ensures forall j :: 0 <= j < |cacheList.nodes| ==> cacheList.nodes[j] in old(cacheList.nodes)
    {
      hide Distinct;
      var lru := cacheList.rear;
      ghost var i := |Keys()| - 1;
      assert Cut(Keys(), i) == Keys()[..i];
      AgreeMeansDistinct(cacheMap, cacheList.keys, cacheList.nodes);
      AgreeAfterErase(cacheMap, cacheList.keys, cacheList.nodes, i);
      cacheList.Erase(lru, i);
      cacheMap := cacheMap - {lru.key};
    }

    /** A new front node for a key the list does not hold; the map now points at it. */
    method PutInFront(key: K)
      requires cacheList.Valid() && cacheList.size < capacity
      requires Agree(cacheMap - {key}, cacheList.keys, cacheList.nodes) && key !in Keys()
      modifies this, cacheList, cacheList.nodes
      ensures Valid() && Keys() == [key] + old(Keys())
    {
      ghost var keys, nodes, others := cacheList.keys, cacheList.nodes, cacheMap - {key};
      var n := cacheList.PushFront(key);
      AgreeAfterPush(others, keys, nodes, key, n);
      cacheMap := cacheMap[key := n];
      assert cacheMap == others[key := n];
    }

    method Contains(key: K) returns (found: bool)
      requires Valid()
      ensures found <==> key in Keys()
    {
      found := key in cacheMap;
    }
  }

  /** Runs each task once per remembered id.  `offered` and `accepted` are the histories of all
      ids and of those let through. */
  class UniqueTaskManager<K(==,!new)> {
    const runningTasks: LruSet<K>
    ghost var offered: seq<K>
    ghost var accepted: seq<K>

    ghost function State(): Filter<K>
      reads this, runningTasks, runningTasks.cacheList
    {
      Filter(runningTasks.Keys(), accepted)
    }

    ghost predicate Valid()
      reads this, runningTasks, runningTasks.cacheList, runningTasks.cacheList.nodes
    {
      && runningTasks.Valid()
      && State() == OfferAll(offered, runningTasks.capacity)
    }

    constructor (capacity: Capacity := 100)
      ensures Valid() && offered == accepted == [] && runningTasks.capacity == capacity
      ensures fresh(runningTasks) && fresh(runningTasks.cacheList) && fresh(runningTasks.cacheList.nodes)
    {
      var s := new LruSet(capacity);
      runningTasks, offered, accepted := s, [], [];
    }

    /** The caller runs the task exactly when ran is true. */
    method Run(taskId: K) returns (ran: bool)
      requires Valid()
      modifies this, runningTasks, runningTasks.cacheList, runningTasks.cacheList.nodes
      ensures Valid() && offered == old(offered) + [taskId]
      ensures State() == Offer(old(State()), taskId, runningTasks.capacity)
      ensures ran <==> taskId !in Window(old(accepted), runningTasks.capacity)
      ensures accepted == if ran then old(accepted) + [taskId] else old(accepted)
    {
      hide LinkedKeys.Valid, Agree;
      ghost var before := OfferAll(offered, runningTasks.capacity);
      OfferNext(offered, runningTasks.capacity, taskId);
      var known := runningTasks.Contains(taskId);
      ran := !known;
      offered := offered + [taskId];
      if ran {
        runningTasks.Add(taskId);
        accepted := accepted + [taskId];
        assert runningTasks.Keys() == Touch(before.keys, taskId, runningTasks.capacity);
      }
      assert State() == Offer(before, taskId, runningTasks.capacity);
    }
  }
}
