/** Removing a container from a peer: which entities go, and whether the engine meets an exception. */
module Removal {
  import opened Options
  import opened Peer

  /** Every queued task performed in order. */
  function Drain(s: State): State
    decreases |s.engine|
  {
    if s.engine == [] then s else Drain(RunTask(s))
  }

  /** Some task throws on the way. */
  predicate DrainThrows(s: State)
    decreases |s.engine|
  {
    s.engine != [] && (Throws(s, s.engine[0]) || DrainThrows(RunTask(s)))
  }

  // ---------- any queue, one entity at a time ----------

  /** What a peer has of one entity. */
  datatype Record = Record(entity: Option<Entity>, ghosts: bool)

  function RecordOf(s: State, e: Eid): Record {
    Record(if e in s.entities then Some(s.entities[e]) else None, e in s.ghosts)
  }

  predicate Valid(x: Record) {
    x.entity.Some? && x.entity.value.isValid
  }

  function One(x: Record, t: Task): Record {
    match t
    case Instantiate(_, c) =>
      Record(Some(if x.entity.Some? then x.entity.value.(owner := c) else Entity(c, false, true)), true)
    case Delete(_) => if x.entity.Some? && !Valid(x) then Record(None, false) else x
    case Invalidate(_) => if x.entity.Some? then x.(entity := Some(x.entity.value.(isValid := false))) else x
  }

  /** What the tasks about an entity make of it, in order, and whether one of them throws. */
  function Fate(x: Record, tasks: seq<Task>): Record
    decreases |tasks|
  {
    if tasks == [] then x else Fate(One(x, tasks[0]), tasks[1..])
  }

  predicate FateThrows(x: Record, tasks: seq<Task>)
    decreases |tasks|
  {
    tasks != [] && ((tasks[0].Delete? && Valid(x)) || FateThrows(One(x, tasks[0]), tasks[1..]))
  }

  /** Draining treats each entity by its own tasks, whatever else is queued. */
  lemma {:induction false} DrainIsPerEntity(s: State, e: Eid)
    ensures RecordOf(Drain(s), e) == Fate(RecordOf(s, e), TasksOf(s.engine, e))
    decreases |s.engine|
  {
    if s.engine != [] {
      TaskIsPerEntity(s, e);
      DrainIsPerEntity(RunTask(s), e);
    }
  }

  lemma TaskIsPerEntity(s: State, e: Eid)
    requires s.engine != []
    ensures var t, r, tasks := s.engine[0], RunTask(s), TasksOf(s.engine, e);
      if t.id == e then
        && tasks == [t] + TasksOf(r.engine, e) && tasks[1..] == TasksOf(r.engine, e)
        && RecordOf(r, e) == One(RecordOf(s, e), t)
        && (Throws(s, t) <==> t.Delete? && Valid(RecordOf(s, e)))
      else
        tasks == TasksOf(r.engine, e) && RecordOf(r, e) == RecordOf(s, e)
  {
  }

  /** And it throws exactly when the tasks about some entity do. */
  lemma {:induction false} DrainThrowsIff(s: State)
    ensures DrainThrows(s) <==> exists e :: FateThrows(RecordOf(s, e), TasksOf(s.engine, e))
    decreases |s.engine|
  {
    if s.engine != [] {
      var t, r := s.engine[0], RunTask(s);
      DrainThrowsIff(r);
      hide RunTask, RecordOf, One, TasksOf, Throws;
      forall e ensures FateThrows(RecordOf(s, e), TasksOf(s.engine, e)) <==>
                       (e == t.id && Throws(s, t)) || FateThrows(RecordOf(r, e), TasksOf(r.engine, e))
      {
        TaskIsPerEntity(s, e);
      }
      assert FateThrows(RecordOf(s, t.id), TasksOf(s.engine, t.id)) <==>
             Throws(s, t) || FateThrows(RecordOf(r, t.id), TasksOf(r.engine, t.id));
    } else {
      assert forall e :: TasksOf(s.engine, e) == [];
    }
  }

  lemma {:induction false} FateConcat(x: Record, a: seq<Task>, b: seq<Task>)
    ensures Fate(x, a + b) == Fate(Fate(x, a), b)
    ensures FateThrows(x, a + b) <==> FateThrows(x, a) || FateThrows(Fate(x, a), b)
    decreases |a|
  {
    if a == [] {
      assert a + b == b;
    } else {
      assert (a + b)[1..] == a[1..] + b;
      FateConcat(One(x, a[0]), a[1..], b);
    }
  }

  /** Deleting many times is deleting once. */
  lemma {:induction false} FateOfDeletes(x: Record, e: Eid, tasks: seq<Task>)
    requires forall t :: t in tasks ==> t == Delete(e)
    ensures Fate(x, tasks) == if tasks == [] then x else One(x, Delete(e))
    ensures FateThrows(x, tasks) <==> tasks != [] && Valid(x)
    decreases |tasks|
  {
    if tasks != [] {
      assert tasks[0] in tasks && forall t :: t in tasks[1..] ==> t in tasks;
      FateOfDeletes(One(x, tasks[0]), e, tasks[1..]);
    }
  }

  lemma {:induction false} TasksOfConcat(a: seq<Task>, b: seq<Task>, e: Eid)
    ensures TasksOf(a + b, e) == TasksOf(a, e) + TasksOf(b, e)
  {
    if a == [] {
      assert a + b == b;
    } else {
      var first, rest := if a[0].id == e then [a[0]] else [], a[1..];
      assert (a + b)[0] == a[0] && (a + b)[1..] == rest + b;
      TasksOfConcat(rest, b, e);
      assert first + (TasksOf(rest, e) + TasksOf(b, e)) == (first + TasksOf(rest, e)) + TasksOf(b, e);
    }
  }

  lemma {:induction false} TasksOfMember(engine: seq<Task>, e: Eid, t: Task)
    ensures t in TasksOf(engine, e) <==> t in engine && t.id == e
  {
    if engine != [] {
      TasksOfMember(engine[1..], e, t);
      assert engine == [engine[0]] + engine[1..];
    }
  }

  // ---------- removing a container ----------

  /** The state a container removal leaves, its deletions queued in some order. */
  ghost predicate Removed(s: State, c: Cid, r: State) {
    && r.entities == MarkAll(s.entities, OwnedBy(s, c)) && r.ghosts == s.ghosts
    && s.engine <= r.engine && DeletesExactly(r.engine[|s.engine|..], OwnedBy(s, c))
  }

  function Marked(x: Record): Record {
    if x.entity.Some? then x.(entity := Some(x.entity.value.(quarantine := true, isValid := false))) else x
  }

  /** What becomes of an entity: one of the container is marked, goes through the tasks queued before and
      is then deleted once; any other goes through the tasks queued before and no more. */
  function AfterRemoval(s: State, c: Cid, e: Eid): Record {
    var tasks := TasksOf(s.engine, e);
    if e in OwnedBy(s, c) then One(Fate(Marked(RecordOf(s, e)), tasks), Delete(e)) else Fate(RecordOf(s, e), tasks)
  }

  predicate RemovalThrowsFor(s: State, c: Cid, e: Eid) {
    var tasks := TasksOf(s.engine, e);
    if e in OwnedBy(s, c) then
      FateThrows(Marked(RecordOf(s, e)), tasks) || Valid(Fate(Marked(RecordOf(s, e)), tasks))
    else FateThrows(RecordOf(s, e), tasks)
  }

  lemma RemovalOfOne(s: State, c: Cid, r: State, e: Eid)
    requires Removed(s, c, r)
    ensures Fate(RecordOf(r, e), TasksOf(r.engine, e)) == AfterRemoval(s, c, e)
    ensures FateThrows(RecordOf(r, e), TasksOf(r.engine, e)) <==> RemovalThrowsFor(s, c, e)
  {
    var added, start := r.engine[|s.engine|..], RecordOf(r, e);
    assert r.engine == s.engine + added;
    assert start == if e in OwnedBy(s, c) then Marked(RecordOf(s, e)) else RecordOf(s, e);
    var before, after := TasksOf(s.engine, e), TasksOf(added, e);
    TasksOfConcat(s.engine, added, e);
    forall t | t in after ensures t == Delete(e) && e in OwnedBy(s, c) {
      TasksOfMember(added, e, t);
    }
    TasksOfMember(added, e, Delete(e));
    assert after == [] <==> e !in OwnedBy(s, c) by {
      assert after != [] ==> after[0] in after;
    }
    hide RecordOf, One, Fate, FateThrows;
    FateConcat(start, before, after);
    FateOfDeletes(Fate(start, before), e, after);
  }

  /** Removing a container and draining the engine queue, whatever was queued before. */
  lemma RemovalIsExact(s: State, c: Cid, r: State)
    requires Removed(s, c, r)
    ensures forall e :: RecordOf(Drain(r), e) == AfterRemoval(s, c, e)
    ensures DrainThrows(r) <==> exists e :: RemovalThrowsFor(s, c, e)
  {
    hide AfterRemoval, RemovalThrowsFor, RecordOf, Removed, Fate, FateThrows;
    forall e ensures RecordOf(Drain(r), e) == AfterRemoval(s, c, e) {
      DrainIsPerEntity(r, e);
      RemovalOfOne(s, c, r, e);
    }
    DrainThrowsIff(r);
    forall e ensures FateThrows(RecordOf(r, e), TasksOf(r.engine, e)) <==> RemovalThrowsFor(s, c, e) {
      RemovalOfOne(s, c, r, e);
    }
  }

  /** Without a creation for c, an entity ends under c only as it started there, and as valid as then. */
  lemma {:induction false} FateKeepsOut(x: Record, tasks: seq<Task>, c: Cid)
    requires forall t :: t in tasks && t.Instantiate? ==> t.container != c
    ensures var y := Fate(x, tasks);
      y.entity.Some? && y.entity.value.owner == c ==>
      x.entity.Some? && x.entity.value.owner == c && (!Valid(x) ==> !Valid(y))
    decreases |tasks|
  {
    if tasks != [] {
      assert tasks[0] in tasks && forall t :: t in tasks[1..] ==> t in tasks;
      FateKeepsOut(One(x, tasks[0]), tasks[1..], c);
    }
  }

  /** No entity of the container remains if no creation in it was queued, whatever else was. */
  lemma NoneLeft(s: State, c: Cid, r: State)
    requires Removed(s, c, r) && forall e :: Instantiate(e, c) !in s.engine
    ensures OwnedBy(Drain(r), c) == {}
  {
    RemovalIsExact(s, c, r);
    forall e ensures e !in OwnedBy(Drain(r), c) {
      var tasks := TasksOf(s.engine, e);
      forall t | t in tasks && t.Instantiate? ensures t.container != c {
        TasksOfMember(s.engine, e, t);
        assert t == Instantiate(e, t.container);
      }
      FateKeepsOut(RecordOf(s, e), tasks, c);
      FateKeepsOut(Marked(RecordOf(s, e)), tasks, c);
      assert RecordOf(Drain(r), e) == AfterRemoval(s, c, e);
    }
  }

  /** Position of the last creation, or -1. */
  function LastCreation(tasks: seq<Task>): (j: int)
    ensures -1 <= j < |tasks|
    ensures j >= 0 ==> tasks[j].Instantiate?
    ensures forall i :: j < i < |tasks| ==> !tasks[i].Instantiate?
  {
    if tasks == [] then -1
    else if tasks[|tasks| - 1].Instantiate? then |tasks| - 1
    else LastCreation(tasks[..|tasks| - 1])
  }

  /** A deletion finds the entity invalid, from the start or by a delete order before it. */
  ghost predicate DeletedLater(valid: bool, tasks: seq<Task>) {
    exists k :: 0 <= k < |tasks| && tasks[k].Delete? && (!valid || exists i :: 0 <= i < k && tasks[i].Invalidate?)
  }

  lemma {:induction false} FateWithoutCreation(x: Record, tasks: seq<Task>)
    requires x.entity.Some? && forall i :: 0 <= i < |tasks| ==> !tasks[i].Instantiate?
    ensures var y := Fate(x, tasks);
      && (y.entity.Some? <==> !DeletedLater(Valid(x), tasks))
      && (y.entity.Some? ==> y.entity.value.owner == x.entity.value.owner)
    decreases |tasks|
  {
    if tasks != [] {
      var t, rest, y := tasks[0], tasks[1..], One(x, tasks[0]);
      if y.entity.None? {
        AbsentStays(y, rest);
      } else {
        FateWithoutCreation(y, rest);
        DeletedLaterStep(x, tasks);
      }
    }
  }

  lemma {:induction false} AbsentStays(x: Record, tasks: seq<Task>)
    requires x.entity.None? && forall i :: 0 <= i < |tasks| ==> !tasks[i].Instantiate?
    ensures Fate(x, tasks).entity.None?
    decreases |tasks|
  {
    if tasks != [] {
      AbsentStays(One(x, tasks[0]), tasks[1..]);
    }
  }

  lemma DeletedLaterStep(x: Record, tasks: seq<Task>)
    requires tasks != [] && x.entity.Some? && !tasks[0].Instantiate? && One(x, tasks[0]).entity.Some?
    ensures DeletedLater(Valid(x), tasks) <==> DeletedLater(Valid(One(x, tasks[0])), tasks[1..])
  {
    var rest := tasks[1..];
    if k :| 0 <= k < |tasks| && tasks[k].Delete? && (!Valid(x) || exists i :: 0 <= i < k && tasks[i].Invalidate?) {
      assert k > 0 && rest[k - 1] == tasks[k];
      if i :| 0 < i < k && tasks[i].Invalidate? {
        assert rest[i - 1].Invalidate?;
      }
    }
    if k :| 0 <= k < |rest| && rest[k].Delete?
            && (!Valid(One(x, tasks[0])) || exists i :: 0 <= i < k && rest[i].Invalidate?) {
      assert tasks[k + 1] == rest[k];
      if i :| 0 <= i < k && rest[i].Invalidate? {
        assert tasks[i + 1].Invalidate?;
      }
    }
  }

  /** What an entity starts from when its container goes, and all the tasks then queued for it. */
  function AtRemoval(s: State, c: Cid, e: Eid): (Record, seq<Task>) {
    if e in OwnedBy(s, c) then (Marked(RecordOf(s, e)), TasksOf(s.engine, e) + [Delete(e)])
    else (RecordOf(s, e), TasksOf(s.engine, e))
  }

  /** Its last creation is for c, and no deletion queued after that takes effect. */
  ghost predicate CreatedAgain(s: State, c: Cid, e: Eid) {
    var (start, tasks) := AtRemoval(s, c, e);
    var j := LastCreation(tasks);
    j >= 0 && tasks[j].container == c && !DeletedLater(Valid(Fate(start, tasks[..j + 1])), tasks[j + 1..])
  }

  lemma EndsUnderIff(s: State, c: Cid, e: Eid)
    ensures var y := AfterRemoval(s, c, e);
      y.entity.Some? && y.entity.value.owner == c <==> CreatedAgain(s, c, e)
  {
    var (start, tasks) := AtRemoval(s, c, e);
    var j := LastCreation(tasks);
    AfterRemovalIsFate(s, c, e);
    if j >= 0 {
      var created := Fate(start, tasks[..j + 1]);
      assert tasks[..j + 1] == tasks[..j] + [tasks[j]] && tasks == tasks[..j + 1] + tasks[j + 1..];
      FateConcat(start, tasks[..j], [tasks[j]]);
      FateConcat(start, tasks[..j + 1], tasks[j + 1..]);
      OneTask(Fate(start, tasks[..j]), tasks[j]);
      FateWithoutCreation(created, tasks[j + 1..]);
    } else if start.entity.Some? {
      FateWithoutCreation(start, tasks);
      assert e in OwnedBy(s, c) ==> tasks[|tasks| - 1].Delete?;
    } else {
      AbsentStays(start, tasks);
    }
  }

  lemma OneTask(x: Record, t: Task)
    ensures Fate(x, [t]) == One(x, t)
  {
    assert [t][1..] == [];
  }

  lemma AfterRemovalIsFate(s: State, c: Cid, e: Eid)
    ensures var (start, tasks) := AtRemoval(s, c, e); AfterRemoval(s, c, e) == Fate(start, tasks)
  {
    var start, tasks := Marked(RecordOf(s, e)), TasksOf(s.engine, e);
    FateConcat(start, tasks, [Delete(e)]);
    OneTask(Fate(start, tasks), Delete(e));
  }

  /** In general, if and only if of every entity with a creation in it queued the last creation is for
      another container or is undone by a deletion queued after it. */
  lemma NoneLeftIff(s: State, c: Cid, r: State)
    requires Removed(s, c, r)
    ensures OwnedBy(Drain(r), c) == {} <==> forall e :: Instantiate(e, c) in s.engine ==> !CreatedAgain(s, c, e)
  {
    RemovalIsExact(s, c, r);
    var left := OwnedBy(Drain(r), c);
    hide Removed, Drain, AfterRemoval, CreatedAgain;
    forall e ensures e in left <==> CreatedAgain(s, c, e) {
      assert RecordOf(Drain(r), e) == AfterRemoval(s, c, e);
      EndsUnderIff(s, c, e);
    }
    forall e | CreatedAgain(s, c, e) ensures Instantiate(e, c) in s.engine {
      CreationIsQueued(s, c, e);
    }
    if e :| Instantiate(e, c) in s.engine && CreatedAgain(s, c, e) {
      assert e in left;
    }
  }

  lemma CreationIsQueued(s: State, c: Cid, e: Eid)
    requires CreatedAgain(s, c, e)
    ensures Instantiate(e, c) in s.engine
  {
    var tasks := TasksOf(s.engine, e);
    var all := AtRemoval(s, c, e).1;
    var j := LastCreation(all);
    assert j < |tasks| && all[j] == tasks[j];
    TasksOfMember(s.engine, e, tasks[j]);
  }

  /** When no entity with a creation in it queued has another task queued, if and only if every such
      creation is of an entity the container already has. */
  lemma NoneLeftIffCreatedOnce(s: State, c: Cid, r: State)
    requires Removed(s, c, r) && forall e :: Instantiate(e, c) in s.engine ==> |TasksOf(s.engine, e)| <= 1
    ensures OwnedBy(Drain(r), c) == {} <==> forall e :: Instantiate(e, c) in s.engine ==> e in OwnedBy(s, c)
  {
    NoneLeftIff(s, c, r);
    hide Removed, Drain, CreatedAgain;
    forall e | Instantiate(e, c) in s.engine ensures CreatedAgain(s, c, e) <==> e !in OwnedBy(s, c) {
      CreatedOnce(s, c, e);
    }
  }

  lemma CreatedOnce(s: State, c: Cid, e: Eid)
    requires Instantiate(e, c) in s.engine && |TasksOf(s.engine, e)| <= 1
    ensures CreatedAgain(s, c, e) <==> e !in OwnedBy(s, c)
  {
    var tasks := TasksOf(s.engine, e);
    TasksOfMember(s.engine, e, Instantiate(e, c));
    assert tasks == [Instantiate(e, c)];
    EndsUnderIff(s, c, e);
    OneTask(RecordOf(s, e), Instantiate(e, c));
    OneTask(Marked(RecordOf(s, e)), Instantiate(e, c));
  }

  // ---------- delete orders ----------

  /** A delete order from the network, once the engine has drained: whatever was queued before happens, and an
      entity that is then here stays, as it is, but invalid. */
  lemma DeleteArrivesInvalidates(t: State, e: Eid)
    ensures var before := Fate(RecordOf(t, e), TasksOf(t.engine, e));
      RecordOf(Drain(DeleteArrives(t, e)), e) ==
      if before.entity.Some? then before.(entity := Some(before.entity.value.(isValid := false))) else before
  {
    TasksOfAppend(t.engine, Invalidate(e), e);
    DrainIsPerEntity(DeleteArrives(t, e), e);
    FateConcat(RecordOf(t, e), TasksOf(t.engine, e), [Invalidate(e)]);
    OneTask(Fate(RecordOf(t, e), TasksOf(t.engine, e)), Invalidate(e));
  }

  /** With no task about it queued before, exactly the entity becomes invalid, and it stays registered. */
  lemma DeleteArrivesAtIdle(t: State, e: Eid)
    requires t.engine == []
    ensures var d := Drain(DeleteArrives(t, e));
      && d.ghosts == t.ghosts && d.engine == []
      && d.entities == if e in t.entities then t.entities[e := t.entities[e].(isValid := false)] else t.entities
  {
    var s := DeleteArrives(t, e);
    assert s.engine[0] == Invalidate(e) && s.engine[1..] == [];
    assert Drain(RunTask(s)) == RunTask(s);
  }

  /** A server deletes an entity of a container it owns: the order goes to that container's subscribers, and
      once their engines have drained the entity is valid nowhere, at the server or at any of them; a server
      that does not own the container, or does not have the entity valid, sends nothing. */
  lemma DeleteOrderReachesSubscribers(s: State, e: Eid, subscribers: seq<State>)
    ensures DeleteOrder(s, e).1 ==
            if e in s.entities && s.entities[e].isValid && s.entities[e].owner in s.containers
               && s.containers[s.entities[e].owner].locallyOwned then Some(s.entities[e].owner) else None
    ensures !Valid(RecordOf(DeleteOrder(s, e).0, e))
    ensures forall i :: 0 <= i < |subscribers| ==> !Valid(RecordOf(Drain(DeleteArrives(subscribers[i], e)), e))
  {
    forall i | 0 <= i < |subscribers| ensures !Valid(RecordOf(Drain(DeleteArrives(subscribers[i], e)), e)) {
      DeleteArrivesInvalidates(subscribers[i], e);
    }
  }

  // ---------- among deletions only ----------

  ghost predicate OnlyDeletes(tasks: seq<Task>) {
    forall t :: t in tasks ==> t.Delete?
  }

  /** The entities a queue of deletions gets rid of: those it names that are no longer valid. */
  function Doomed(s: State): set<Eid> {
    set e | e in s.entities && Delete(e) in s.engine && !s.entities[e].isValid
  }

  /** With only deletions queued, draining removes exactly the invalid entities named, however often
      each is named, and throws exactly when a valid one is named. */
  lemma {:induction false} DrainDeletes(s: State)
    requires OnlyDeletes(s.engine)
    ensures Drain(s) == s.(entities := s.entities - Doomed(s), ghosts := s.ghosts - Doomed(s), engine := [])
    ensures DrainThrows(s) <==> exists e :: Delete(e) in s.engine && e in s.entities && s.entities[e].isValid
    decreases |s.engine|
  {
    if s.engine != [] {
      var r, t := RunTask(s), s.engine[0];
      assert t in s.engine && s.engine == [t] + s.engine[1..];
      assert t == Delete(t.id);
      assert forall e :: Delete(e) in s.engine <==> e == t.id || Delete(e) in r.engine;
      DrainDeletes(r);
      FirstDeletion(s);
    }
  }

  /** The first deletion takes its own entity out, if doomed, and changes no other's fate. */
  lemma FirstDeletion(s: State)
    requires s.engine != [] && s.engine[0].Delete?
    requires forall e :: Delete(e) in s.engine <==> e == s.engine[0].id || Delete(e) in s.engine[1..]
    ensures var r := RunTask(s);
      && s.entities - Doomed(s) == r.entities - Doomed(r)
      && s.ghosts - Doomed(s) == r.ghosts - Doomed(r)
      && r.containers == s.containers
  {
    var r, id := RunTask(s), s.engine[0].id;
    assert Doomed(s) == Doomed(r) + if id in s.entities && !s.entities[id].isValid then {id} else {};
  }

  /** Removing a container and draining the engine queue takes away exactly the container's entities
      with their ghost properties, besides any invalid entity already queued for deletion, and leaves
      every other entity as it was; it throws exactly when a deletion queued earlier names an entity
      that is still valid and of another container. */
  lemma RemovalAmongDeletions(s: State, c: Cid, r: State)
    requires OnlyDeletes(s.engine) && Removed(s, c, r)
    ensures Drain(r).entities == s.entities - OwnedBy(s, c) - Doomed(s)
    ensures Drain(r).ghosts == s.ghosts - OwnedBy(s, c) - Doomed(s)
    ensures Drain(r).engine == []
    ensures DrainThrows(r) <==>
            exists e :: Delete(e) in s.engine && e in s.entities && s.entities[e].isValid && s.entities[e].owner != c
  {
    hide MarkAll;
    var added, gone := r.engine[|s.engine|..], OwnedBy(s, c);
    assert r.engine == s.engine + added;
    assert forall t :: t in r.engine <==> t in s.engine || t in added;
    DrainDeletes(r);
    assert Doomed(r) == gone + Doomed(s);
    assert r.entities - Doomed(r) == s.entities - gone - Doomed(s);
    assert forall e :: e in r.entities && r.entities[e].isValid <==>
                       e in s.entities && s.entities[e].isValid && e !in gone;
    assert forall e :: Delete(e) in r.engine <==> Delete(e) in s.engine || e in gone;
  }

  /** In particular, with an empty queue nothing but the container's entities goes and nothing throws. */
  lemma RemovalFromEmptyQueue(s: State, c: Cid, r: State)
    requires s.engine == [] && Removed(s, c, r)
    ensures Drain(r).entities == s.entities - OwnedBy(s, c) && Drain(r).ghosts == s.ghosts - OwnedBy(s, c)
    ensures !DrainThrows(r)
  {
    RemovalAmongDeletions(s, c, r);
    assert Doomed(s) == {};
  }
}
