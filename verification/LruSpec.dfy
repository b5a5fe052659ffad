/** What the callee's duplicate filter means, on plain sequences.

    Keys are listed most recent first.  `Touch` is one `add`; the theorems say that a run of
    `add` calls keeps exactly the most recently added distinct keys, and that a task manager
    which only adds ids it has not found remembers exactly its last `cap` accepted ids. */
module LruSpec {

  type Capacity = n: nat | n >= 1 witness 100

  // ---------- one add ----------

  function Remove<K(==)>(keys: seq<K>, k: K): seq<K> {
    if keys == [] then []
    else if keys[0] == k then Remove(keys[1..], k)
    else [keys[0]] + Remove(keys[1..], k)
  }

  function Touch<K(==)>(keys: seq<K>, k: K, cap: Capacity): seq<K>
  {
    if k in keys then [k] + Remove(keys, k)
    else if |keys| >= cap then [k] + keys[..|keys| - 1]
    else [k] + keys
  }

  ghost predicate Distinct<K>(keys: seq<K>) {
    forall i, j :: 0 <= i < j < |keys| ==> keys[i] != keys[j]
  }

  lemma {:induction false} RemoveAbsent<K>(keys: seq<K>, k: K)
    requires k !in keys
    ensures Remove(keys, k) == keys
  {
    if keys != [] {
      RemoveAbsent(keys[1..], k);
    }
  }

  /** Removing a key from a duplicate-free list cuts out its one position. */
  lemma {:induction false} RemoveIsCut<K>(keys: seq<K>, i: nat)
    requires Distinct(keys) && i < |keys|
    ensures Remove(keys, keys[i]) == keys[..i] + keys[i + 1..]
  {
    if i == 0 {
      RemoveAbsent(keys[1..], keys[0]);
    } else {
      RemoveIsCut(keys[1..], i - 1);
      assert keys[1..][i - 1] == keys[i];
      assert [keys[0]] + keys[1..][..i - 1] == keys[..i];
      assert keys[1..][i..] == keys[i + 1..];
    }
  }

  // ---------- a run of adds ----------

  function AddAll<K(==)>(adds: seq<K>, cap: Capacity): seq<K>
  {
    if adds == [] then []
    else Touch(AddAll(adds[..|adds| - 1], cap), adds[|adds| - 1], cap)
  }

  /** Position of the latest add of k, or -1. */
  function LastAdd<K(==)>(adds: seq<K>, k: K): (i: int)
    ensures -1 <= i < |adds|
    ensures i >= 0 ==> adds[i] == k
    ensures i >= 0 <==> k in adds
  {
    if adds == [] then -1
    else if adds[|adds| - 1] == k then |adds| - 1
    else
      assert adds == adds[..|adds| - 1] + [adds[|adds| - 1]];
      LastAdd(adds[..|adds| - 1], k)
  }

  ghost predicate NewestFirst<K>(r: seq<K>, adds: seq<K>) {
    forall i, j :: 0 <= i < j < |r| ==> LastAdd(adds, r[i]) > LastAdd(adds, r[j])
  }

  ghost predicate AllNewer<K>(r: seq<K>, adds: seq<K>, k: K) {
    forall i :: 0 <= i < |r| ==> LastAdd(adds, r[i]) > LastAdd(adds, k)
  }

  /** r lists the at most cap keys of `adds` whose latest add is most recent, newest first. */
  ghost predicate IsMostRecent<K(!new)>(r: seq<K>, adds: seq<K>, cap: Capacity) {
    && |r| <= cap
    && (forall k :: k in r ==> k in adds)
    && NewestFirst(r, adds)
    && (forall k :: k in adds ==> k in r || (|r| == cap && AllNewer(r, adds, k)))
  }

  /** The description above fits one list only. */
  lemma MostRecentIsUnique<K(!new)>(r: seq<K>, s: seq<K>, adds: seq<K>, cap: Capacity)
    requires IsMostRecent(r, adds, cap) && IsMostRecent(s, adds, cap)
    ensures r == s
  {
    MostRecentPrefix(r, s, adds, cap, if |r| <= |s| then |r| else |s|);
    LongerMeansFull(r, s, adds, cap);
    LongerMeansFull(s, r, adds, cap);
  }

  lemma LongerMeansFull<K(!new)>(r: seq<K>, s: seq<K>, adds: seq<K>, cap: Capacity)
    requires IsMostRecent(r, adds, cap) && NewestFirst(s, adds)
    requires forall k :: k in s ==> k in adds
    requires forall j :: 0 <= j < |r| && j < |s| ==> r[j] == s[j]
    ensures |s| > |r| ==> |r| == cap
  {
    if |s| > |r| {
      NoRepeat(s, adds, |r|);
      assert s[|r|] in adds;
    }
  }

  lemma NoRepeat<K>(r: seq<K>, adds: seq<K>, i: nat)
    requires NewestFirst(r, adds) && i < |r|
    ensures forall j :: 0 <= j < i ==> r[j] != r[i]
  {
    assert forall j :: 0 <= j < i ==> LastAdd(adds, r[j]) > LastAdd(adds, r[i]);
  }

  lemma {:induction false} MostRecentPrefix<K(!new)>(r: seq<K>, s: seq<K>, adds: seq<K>, cap: Capacity, n: nat)
    requires IsMostRecent(r, adds, cap) && IsMostRecent(s, adds, cap)
    requires n <= |r| && n <= |s|
    ensures forall j :: 0 <= j < n ==> r[j] == s[j]
  {
    if n > 0 {
      MostRecentPrefix(r, s, adds, cap, n - 1);
      NotOlder(r, s, adds, cap, n - 1);
      NotOlder(s, r, adds, cap, n - 1);
    }
  }

  /** Where two such lists agree up to i, neither has the fresher key at i. */
  lemma NotOlder<K(!new)>(r: seq<K>, s: seq<K>, adds: seq<K>, cap: Capacity, i: nat)
    requires IsMostRecent(r, adds, cap) && IsMostRecent(s, adds, cap)
    requires i < |r| && i < |s| && forall j :: 0 <= j < i ==> r[j] == s[j]
    ensures LastAdd(adds, r[i]) <= LastAdd(adds, s[i])
  {
    NoRepeat(r, adds, i);
    assert r[i] in adds;
  }

  lemma TouchDistinct<K>(keys: seq<K>, k: K, cap: Capacity)
    requires Distinct(keys) && |keys| <= cap
    ensures Distinct(Touch(keys, k, cap)) && |Touch(keys, k, cap)| <= cap
    ensures Touch(keys, k, cap)[0] == k
  {
    if k in keys {
      var i :| 0 <= i < |keys| && keys[i] == k;
      RemoveIsCut(keys, i);
      CutDistinct(keys, i);
    }
  }

  lemma CutDistinct<K>(keys: seq<K>, i: nat)
    requires Distinct(keys) && i < |keys|
    ensures Distinct(keys[..i] + keys[i + 1..]) && keys[i] !in keys[..i] + keys[i + 1..]
  {
    var c := keys[..i] + keys[i + 1..];
    assert forall j :: 0 <= j < |c| ==> c[j] == keys[if j < i then j else j + 1];
  }

  lemma CutKeepsOrder<K>(r: seq<K>, adds: seq<K>, i: nat)
    requires NewestFirst(r, adds) && i < |r|
    ensures NewestFirst(r[..i] + r[i + 1..], adds)
    ensures forall k :: k in r[..i] + r[i + 1..] <==> k in r && k != r[i]
  {
    var c := r[..i] + r[i + 1..];
    assert forall j :: 0 <= j < |c| ==> c[j] == r[if j < i then j else j + 1];
    forall k | k in r && k != r[i] ensures k in c {
      var j :| 0 <= j < |r| && r[j] == k;
      assert c[if j < i then j else j - 1] == k;
    }
  }

  /** Putting a freshly added key in front of older ones. */
  lemma PutInFront<K>(c: seq<K>, before: seq<K>, k: K)
    requires NewestFirst(c, before) && k !in c
    ensures NewestFirst([k] + c, before + [k])
    ensures forall x :: x != k && AllNewer(c, before, x) ==> AllNewer([k] + c, before + [k], x)
  {
    assert (before + [k])[..|before|] == before;
    assert forall x :: x != k ==> LastAdd(before + [k], x) == LastAdd(before, x);
  }

  /** One more add keeps the description true. */
  lemma TouchKeepsMostRecent<K(!new)>(r: seq<K>, before: seq<K>, k: K, cap: Capacity)
    requires Distinct(r) && IsMostRecent(r, before, cap)
    ensures IsMostRecent(Touch(r, k, cap), before + [k], cap)
  {
    if k in r {
      var i :| 0 <= i < |r| && r[i] == k;
      RemoveIsCut(r, i);
      CutKeepsOrder(r, before, i);
      FrontKeepsMostRecent(r, r[..i] + r[i + 1..], before, k, cap);
    } else if |r| >= cap {
      var n := |r| - 1;
      CutKeepsOrder(r, before, n);
      assert r[..n] + r[n + 1..] == r[..n];
      FrontKeepsMostRecent(r, r[..n], before, k, cap);
    } else {
      FrontKeepsMostRecent(r, r, before, k, cap);
    }
  }

  /** c is r with k taken out, or r itself, or a full r without its oldest key. */
  lemma FrontKeepsMostRecent<K(!new)>(r: seq<K>, c: seq<K>, before: seq<K>, k: K, cap: Capacity)
    requires IsMostRecent(r, before, cap) && NewestFirst(c, before) && k !in c && |c| < cap
    requires forall x :: x in c ==> x in r
    requires (|c| + 1 == |r| && forall x :: x in r ==> x in c || x == k)
             || (c == r && |r| < cap) || (|r| == cap && c == r[..cap - 1])
    ensures IsMostRecent([k] + c, before + [k], cap)
  {
    hide LastAdd, NewestFirst;
    PutInFront(c, before, k);
    var t := [k] + c;
    forall x | x in before + [k] ensures x in t || (|t| == cap && AllNewer(t, before + [k], x)) {
      if x != k && x !in c {
        MissingIsOlder(r, c, before, k, x, cap);
      } else if x == k {
        assert t[0] == k;
      } else {
        var i :| 0 <= i < |c| && c[i] == x;
        assert t[i + 1] == x;
      }
    }
  }

  lemma MissingIsOlder<K(!new)>(r: seq<K>, c: seq<K>, before: seq<K>, k: K, x: K, cap: Capacity)
    requires IsMostRecent(r, before, cap) && x in before && x != k && x !in c
    requires forall y :: y in c ==> y in r
    requires (|c| + 1 == |r| && forall y :: y in r ==> y in c || y == k)
             || (c == r && |r| < cap) || (|r| == cap && c == r[..cap - 1])
    ensures |c| + 1 == cap && AllNewer(c, before, x)
  {
    hide LastAdd;
    if x !in r {
      assert AllNewer(r, before, x);
      forall i | 0 <= i < |c| ensures LastAdd(before, c[i]) > LastAdd(before, x) {
        assert c[i] in r;
      }
    }
  }

  /** For every sequence of adds, the list is the most recently added distinct keys, cut to capacity. */
  lemma {:induction false} AddAllKeepsMostRecent<K(!new)>(adds: seq<K>, cap: Capacity)
    ensures Distinct(AddAll(adds, cap))
    ensures IsMostRecent(AddAll(adds, cap), adds, cap)
  {
    if adds != [] {
      var n := |adds| - 1;
      AddAllKeepsMostRecent(adds[..n], cap);
      TouchDistinct(AddAll(adds[..n], cap), adds[n], cap);
      TouchKeepsMostRecent(AddAll(adds[..n], cap), adds[..n], adds[n], cap);
      assert adds == adds[..n] + [adds[n]];
    }
  }

  // ---------- the duplicate filter ----------

  /** What the filter remembers, and every id it has let through, oldest first. */
  datatype Filter<K> = Filter(keys: seq<K>, accepted: seq<K>)

  function Offer<K(==)>(f: Filter<K>, id: K, cap: Capacity): Filter<K>
  {
    if id in f.keys then f else Filter(Touch(f.keys, id, cap), f.accepted + [id])
  }

  function OfferAll<K(==)>(ids: seq<K>, cap: Capacity): Filter<K>
  {
    if ids == [] then Filter([], [])
    else Offer(OfferAll(ids[..|ids| - 1], cap), ids[|ids| - 1], cap)
  }

  function Window<K>(accepted: seq<K>, cap: Capacity): seq<K> {
    if |accepted| <= cap then accepted else accepted[|accepted| - cap..]
  }

  /** The filter remembers exactly its last cap accepted ids, newest first. */
  ghost predicate Tracks<K>(f: Filter<K>, cap: Capacity) {
    && |f.keys| == (if |f.accepted| <= cap then |f.accepted| else cap)
    && (forall i, j :: 0 <= i < |f.keys| && 0 <= j < |f.accepted| && i + j == |f.accepted| - 1 ==>
          f.keys[i] == f.accepted[j])
  }

  /** Any cap + 1 consecutive accepted ids are pairwise distinct. */
  ghost predicate Spaced<K>(accepted: seq<K>, cap: Capacity) {
    forall i, j :: 0 <= i < j < |accepted| && j - i <= cap ==> accepted[i] != accepted[j]
  }

  lemma TracksMeansWindow<K>(f: Filter<K>, cap: Capacity, id: K)
    requires Tracks(f, cap)
    ensures id in f.keys <==> id in Window(f.accepted, cap)
  {
    var w, n := Window(f.accepted, cap), |f.accepted|;
    if id in f.keys {
      var i :| 0 <= i < |f.keys| && f.keys[i] == id;
      assert w[|w| - 1 - i] == f.accepted[n - 1 - i];
    } else {
      forall i | 0 <= i < |w| ensures w[i] != id {
        assert w[i] == f.accepted[n - |w| + i] == f.keys[|w| - 1 - i];
      }
    }
  }

  lemma OfferKeepsTracking<K>(f: Filter<K>, id: K, cap: Capacity)
    requires Tracks(f, cap) && Spaced(f.accepted, cap)
    ensures Tracks(Offer(f, id, cap), cap) && Spaced(Offer(f, id, cap).accepted, cap)
  {
    if id !in f.keys {
      var n := |f.accepted|;
      forall j | 0 <= j < n && n - j <= cap ensures f.accepted[j] != id {
        assert f.keys[n - 1 - j] == f.accepted[j];
      }
    }
  }

  lemma {:induction false} FilterIsSound<K>(ids: seq<K>, cap: Capacity)
    ensures Tracks(OfferAll(ids, cap), cap) && Spaced(OfferAll(ids, cap).accepted, cap)
  {
    if ids != [] {
      FilterIsSound(ids[..|ids| - 1], cap);
      OfferKeepsTracking(OfferAll(ids[..|ids| - 1], cap), ids[|ids| - 1], cap);
    }
  }

  /** One more offer, seen from the history of ids let through. */
  lemma OfferNext<K>(ids: seq<K>, cap: Capacity, id: K)
    ensures OfferAll(ids + [id], cap) == Offer(OfferAll(ids, cap), id, cap)
    ensures id in OfferAll(ids, cap).keys <==> id in Window(OfferAll(ids, cap).accepted, cap)
  {
    assert (ids + [id])[..|ids|] == ids;
    FilterIsSound(ids, cap);
    TracksMeansWindow(OfferAll(ids, cap), cap, id);
  }

  /** Over every run: an id is let through if and only if it is not among the last cap ids let
      through, and so any cap + 1 consecutive ids let through are pairwise distinct. */
  lemma ExactWindow<K>(ids: seq<K>, cap: Capacity, next: K)
    ensures Spaced(OfferAll(ids, cap).accepted, cap)
    ensures OfferAll(ids + [next], cap).accepted ==
            (var a := OfferAll(ids, cap).accepted; if next in Window(a, cap) then a else a + [next])
    ensures next in OfferAll(ids + [next], cap).accepted
  {
    FilterIsSound(ids, cap);
    hide Tracks, Spaced;
    OfferNext(ids, cap, next);
  }
}
