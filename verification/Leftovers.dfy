/** What becomes of an entity at a peer when transfers of it overlap: orders left over from an earlier move
    meet those of a later one. */
module Leftovers {
  import opened Options
  import opened Peer
  import opened Transfer

  /** Where a drop left over from an earlier move does no harm to e, settled on x: e is not held here, or
      the drop's target is subscribed to and its source is not e's index. */
  predicate HarmlessDrop(n: Node, e: Eid, x: Cid, m: Move) {
    e in n.peer.entities ==> m.to in n.peer.containers && (m.from == m.to || m.from != x || !n.peer.server)
  }

  /** And where a take does none: e is held, and the take is for x. */
  predicate HarmlessTake(n: Node, e: Eid, x: Cid, m: Move) {
    e in n.peer.entities && m.to == x
  }

  /** A drop does not look at who owns the entity now.  Where e is settled on x and the engine idle, a
      drop left over from an earlier move, with the deletion it may queue, leaves e settled if and only
      if it is harmless. */
  lemma StaleDropKeepsSettledIff(n: Node, e: Eid, x: Cid, m: Move)
    requires SettledAt(n, e, x) && n.peer.engine == []
    ensures SettledAt(Idle(AfterDrop(n, Order(e, m))), e, x) <==> HarmlessDrop(n, e, x, m)
  {
    var idle := Idle(AfterDrop(n, Order(e, m)));
    if e in n.peer.entities {
      assert Owns(n, e, x) <==> n.peer.server;
      assert Owns(idle, e, x) <==> n.peer.server && (m.from == m.to || m.from != x);
      assert forall c :: c != x ==> (Owns(idle, e, c) <==> Owns(n, e, c));
    } else {
      assert idle.peer == n.peer;
      assert forall c :: Owns(idle, e, c) <==> Owns(n, e, c);
    }
  }

  /** Nor does a take, with the creation it may queue. */
  lemma StaleTakeKeepsSettledIff(n: Node, e: Eid, x: Cid, m: Move)
    requires SettledAt(n, e, x) && n.peer.engine == []
    ensures SettledAt(Idle(AfterTake(n, Order(e, m))), e, x) <==> HarmlessTake(n, e, x, m)
  {
    var idle := Idle(AfterTake(n, Order(e, m)));
    if HarmlessTake(n, e, x, m) {
      assert forall c :: Owns(idle, e, c) <==> Owns(n, e, c);
    } else {
      assert e in idle.peer.entities && idle.peer.entities[e].owner == m.to;
    }
  }

  /** An engine with at most one task has run it. */
  function Idle(n: Node): Node {
    if n.peer.engine == [] then n else AfterTask(n)
  }

  // ---------- all the leftovers of one peer ----------

  ghost predicate LocalRun(n: Node, steps: seq<Local>)
    decreases |steps|
  {
    steps == [] || (LocalEnabled(n, steps[0]) && LocalRun(LocalStep(n, steps[0]), steps[1..]))
  }

  ghost function LocalAfter(n: Node, steps: seq<Local>): Node
    requires LocalRun(n, steps)
    decreases |steps|
  {
    if steps == [] then n else LocalAfter(LocalStep(n, steps[0]), steps[1..])
  }

  lemma {:induction false} LocalConcat(n: Node, a: seq<Local>, b: seq<Local>)
    requires LocalRun(n, a) && LocalRun(LocalAfter(n, a), b)
    ensures LocalRun(n, a + b) && LocalAfter(n, a + b) == LocalAfter(LocalAfter(n, a), b)
    decreases |a|
  {
    if a == [] {
      assert a + b == b;
    } else {
      assert (a + b)[0] == a[0] && (a + b)[1..] == a[1..] + b;
      LocalConcat(LocalStep(n, a[0]), a[1..], b);
    }
  }

  /** Settled, no task about e queued, and every order about e that is left harmless. */
  ghost predicate Harmless(n: Node, e: Eid, x: Cid) {
    && SettledAt(n, e, x) && TasksOf(n.peer.engine, e) == []
    && (forall m: Move :: Order(e, m) in n.takes ==> HarmlessTake(n, e, x, m))
    && (forall m: Move :: Order(e, m) in n.drops ==> HarmlessDrop(n, e, x, m))
  }

  lemma SameForKeepsHarmless(n: Node, v: Node, e: Eid, x: Cid)
    requires Harmless(n, e, x)
    requires v.peer.server == n.peer.server && v.peer.containers.Keys == n.peer.containers.Keys
    requires e in v.peer.entities <==> e in n.peer.entities
    requires e in n.peer.entities ==> v.peer.entities[e] == n.peer.entities[e]
    requires TasksOf(v.peer.engine, e) == TasksOf(n.peer.engine, e)
    requires forall c :: Owns(v, e, c) <==> Owns(n, e, c)
    requires forall m: Move :: Order(e, m) in v.takes ==> Order(e, m) in n.takes
    requires forall m: Move :: Order(e, m) in v.drops ==> Order(e, m) in n.drops
    ensures Harmless(v, e, x)
  {
  }

  lemma HarmlessStep(n: Node, s: Local, e: Eid, x: Cid)
    requires Harmless(n, e, x) && LocalEnabled(n, s)
    ensures Harmless(LocalStep(n, s), e, x)
  {
    var v := LocalStep(n, s);
    match s {
      case LocalTake(o) =>
        if o.id == e {
          assert o == Order(e, o.move) && HarmlessTake(n, e, x, o.move);
        } else {
          TakeIsLocal(n, o, e);
        }
      case LocalDrop(o) =>
        if o.id == e {
          assert o == Order(e, o.move) && HarmlessDrop(n, e, x, o.move);
        } else {
          DropIsLocal(n, o, e);
        }
      case LocalTask =>
        TaskIsLocal(n, e);
    }
    assert forall m: Move :: (Order(e, m) in v.takes ==> Order(e, m) in n.takes) &&
                             (Order(e, m) in v.drops ==> Order(e, m) in n.drops);
    SameForKeepsHarmless(n, v, e, x);
  }

  lemma {:induction false} HarmlessRun(n: Node, steps: seq<Local>, e: Eid, x: Cid)
    requires Harmless(n, e, x) && LocalRun(n, steps)
    ensures Harmless(LocalAfter(n, steps), e, x)
    decreases |steps|
  {
    if steps != [] {
      HarmlessStep(n, steps[0], e, x);
      HarmlessRun(LocalStep(n, steps[0]), steps[1..], e, x);
    }
  }

  lemma TakeLastUnsettles(n: Node, o: Order, x: Cid)
    requires n.peer.engine == [] && (o.move.to != x || x !in n.peer.containers)
    ensures !SettledAt(Idle(AfterTake(n, o)), o.id, x)
  {
    var idle := Idle(AfterTake(n, o));
    assert o.id in idle.peer.entities && idle.peer.entities[o.id].owner == o.move.to;
  }

  lemma DropLastUnsettles(n: Node, o: Order, x: Cid)
    requires n.peer.engine == [] && x in n.peer.containers
    requires !(o.move.to in n.peer.containers && (o.move.from == o.move.to || o.move.from != x || !n.peer.server))
    ensures !SettledAt(Idle(AfterDrop(n, o)), o.id, x)
  {
    var idle := Idle(AfterDrop(n, o));
    assert o.id in idle.peer.entities ==> !Owns(idle, o.id, x) && n.peer.server;
  }

  /** Everything can be delivered except the orders kept back. */
  lemma DeliverOthers(n: Node, takes: multiset<Order>, drops: multiset<Order>) returns (steps: seq<Local>)
    requires takes <= n.takes && drops <= n.drops
    ensures LocalRun(n, steps)
    ensures forall o :: o in drops && drops[o] == n.drops[o] ==> LocalDrop(o) !in steps
    ensures var v := LocalAfter(n, steps);
      && v.takes == takes && v.drops == drops && v.peer.engine == []
      && v.peer.server == n.peer.server && v.peer.containers.Keys == n.peer.containers.Keys
    decreases NodeWork(n)
  {
    var s;
    if o :| o in n.takes - takes {
      s := LocalTake(o);
    } else if o :| o in n.drops - drops {
      s := LocalDrop(o);
    } else if n.peer.engine != [] {
      s := LocalTask;
    } else {
      NothingElse(n.takes, takes);
      NothingElse(n.drops, drops);
      return [];
    }
    StepWorks(n, s);
    hide AfterTake, AfterDrop, AfterTask, NodeWork;
    var rest := DeliverOthers(LocalStep(n, s), takes, drops);
    steps := [s] + rest;
    assert steps[1..] == rest;
  }

  lemma NothingElse(bag: multiset<Order>, kept: multiset<Order>)
    requires kept <= bag && forall o :: o !in bag - kept
    ensures bag == kept
  {
    forall o ensures bag[o] == kept[o] {
      assert (bag - kept)[o] == 0;
    }
  }

  /** One order is delivered last, with the task it may queue: nothing is left. */
  lemma LastOne(n: Node, s: Local) returns (steps: seq<Local>)
    requires LocalEnabled(n, s) && !s.LocalTask? && n.peer.engine == []
    requires if s.LocalTake? then n.takes == multiset{s.order} && n.drops == multiset{}
             else n.drops == multiset{s.order} && n.takes == multiset{}
    ensures LocalRun(n, steps) && LocalAfter(n, steps) == Idle(LocalStep(n, s))
    ensures QuietAt(LocalAfter(n, steps), s.order.id)
  {
    var v := LocalStep(n, s);
    steps := if v.peer.engine == [] then [s] else [s, LocalTask];
    assert [s][1..] == [] && [s, LocalTask][1..] == [LocalTask] && [LocalTask][1..] == [];
    assert Idle(v).peer.engine == [] && Idle(v).takes == Idle(v).drops == multiset{};
    assert LocalRun(v, steps[1..]) && LocalAfter(v, steps[1..]) == Idle(v);
  }

  /** An order that cannot come last without harm: e does not end up settled on x. */
  predicate SpoilsLast(n: Node, s: Local, x: Cid) {
    match s
    case LocalTake(o) => o.move.to != x || x !in n.peer.containers
    case LocalDrop(o) =>
      x in n.peer.containers &&
      !(o.move.to in n.peer.containers && (o.move.from == o.move.to || o.move.from != x || !n.peer.server))
    case LocalTask => false
  }

  /** It is delivered last. */
  lemma SpoiledRun(n: Node, s: Local, x: Cid) returns (steps: seq<Local>)
    requires LocalEnabled(n, s) && SpoilsLast(n, s, x)
    ensures LocalRun(n, steps) && QuietAt(LocalAfter(n, steps), s.order.id)
    ensures !SettledAt(LocalAfter(n, steps), s.order.id, x)
  {
    var o := multiset{s.order};
    var first := DeliverOthers(n, if s.LocalTake? then o else multiset{}, if s.LocalTake? then multiset{} else o);
    var v := LocalAfter(n, first);
    var last := LastOne(v, s);
    LocalConcat(n, first, last);
    steps := first + last;
    if s.LocalTake? {
      TakeLastUnsettles(v, s.order, x);
    } else {
      DropLastUnsettles(v, s.order, x);
    }
  }

  /** Where e is settled on x with no task about it queued, whatever orders are still to come: e is settled
      on x again after every way of delivering those about e if and only if each of them is harmless. */
  lemma LeftoversSettleIff(n: Node, e: Eid, x: Cid)
    requires SettledAt(n, e, x) && TasksOf(n.peer.engine, e) == []
    ensures
      (forall steps :: LocalRun(n, steps) && QuietAt(LocalAfter(n, steps), e) ==> SettledAt(LocalAfter(n, steps), e, x))
      <==>
      (forall m: Move :: (Order(e, m) in n.takes ==> HarmlessTake(n, e, x, m)) &&
                         (Order(e, m) in n.drops ==> HarmlessDrop(n, e, x, m)))
  {
    if m: Move :| Order(e, m) in n.takes && !HarmlessTake(n, e, x, m) {
      var steps := SpoiledRun(n, LocalTake(Order(e, m)), x);
    } else if m: Move :| Order(e, m) in n.drops && !HarmlessDrop(n, e, x, m) {
      var steps := SpoiledRun(n, LocalDrop(Order(e, m)), x);
    } else {
      assert Harmless(n, e, x);
      forall steps | LocalRun(n, steps) ensures SettledAt(LocalAfter(n, steps), e, x) {
        HarmlessRun(n, steps, e, x);
      }
    }
  }

  // ---------- a second transfer while the first is under way ----------

  ghost predicate TakeLeft(n: Node, e: Eid) {
    exists m: Move :: Order(e, m) in n.takes
  }

  ghost predicate FromLeft(n: Node, e: Eid, x: Cid) {
    exists m: Move :: Order(e, m) in n.drops && m.from == x && m.to != x
  }

  /** A drop that will find its target unknown here. */
  ghost predicate OutLeft(n: Node, e: Eid) {
    exists m: Move :: Order(e, m) in n.drops && m.to !in n.peer.containers
  }

  /** Whatever comes first, e ends under f: every take and every queued creation after the first is for f, no
      drop takes e away or unindexes it from f, and any other index it is in is still to be dropped. */
  ghost predicate Converging(n: Node, e: Eid, f: Cid) {
    var s, held, tasks := n.peer, e in n.peer.entities, TasksOf(n.peer.engine, e);
    && f in s.containers
    && (forall m: Move :: Order(e, m) in n.takes ==> m.to == f)
    && (forall m: Move :: Order(e, m) in n.drops ==> m.to in s.containers && (s.server && m.from == f ==> m.to == f))
    && (forall i :: 0 <= i < |tasks| ==> tasks[i].Instantiate? && (i > 0 || held ==> tasks[i].container == f))
    && (held ==> s.entities[e].isValid)
    && (!TakeLeft(n, e) ==>
          && (held ==> !s.entities[e].quarantine && (tasks == [] ==> s.entities[e].owner == f))
          && (!held ==> tasks != [] && tasks[|tasks| - 1].container == f)
          && (s.server ==> Owns(n, e, f)))
    && (forall x :: Owns(n, e, x) ==> s.server && (x == f || (held && FromLeft(n, e, x))))
  }

  /** e goes: nothing will bring it back, and if it is here it is queued for deletion or about to be. */
  ghost predicate Leaving(n: Node, e: Eid) {
    var s, held, tasks := n.peer, e in n.peer.entities, TasksOf(n.peer.engine, e);
    && !TakeLeft(n, e)
    && (forall i :: 0 <= i < |tasks| ==> tasks[i].Delete?)
    && (held && s.entities[e].isValid ==> tasks == [])
    && (held && tasks == [] ==> OutLeft(n, e))
  }

  /** And the drop that takes it away also takes it off every index. */
  ghost predicate IndexLeaves(n: Node, e: Eid) {
    forall x :: Owns(n, e, x) ==>
      && n.peer.server && e in n.peer.entities && TasksOf(n.peer.engine, e) == [] && OutLeft(n, e)
      && forall m: Move :: Order(e, m) in n.drops && m.to !in n.peer.containers ==> m.from == x
  }

  /** e stays or comes: no drop takes it away. */
  ghost predicate Staying(n: Node, e: Eid) {
    var tasks := TasksOf(n.peer.engine, e);
    && !OutLeft(n, e)
    && (forall i :: 0 <= i < |tasks| ==> tasks[i].Instantiate?)
    && (e in n.peer.entities || tasks != [] || TakeLeft(n, e))
  }

  /** A step is about e, or concerns it in nothing. */
  ghost predicate About(n: Node, s: Local, e: Eid)
    requires LocalEnabled(n, s)
  {
    match s
    case LocalTake(o) => o.id == e
    case LocalDrop(o) => o.id == e
    case LocalTask => n.peer.engine[0].id == e
  }

  lemma OtherStep(n: Node, s: Local, e: Eid)
    requires LocalEnabled(n, s) && !About(n, s, e)
    ensures SameFor(n, LocalStep(n, s), e)
    ensures var v := LocalStep(n, s);
      forall m: Move :: (Order(e, m) in v.takes <==> Order(e, m) in n.takes) &&
                        (Order(e, m) in v.drops <==> Order(e, m) in n.drops)
  {
    match s
    case LocalTake(o) => TakeIsLocal(n, o, e);
    case LocalDrop(o) => DropIsLocal(n, o, e);
    case LocalTask => TaskIsLocal(n, e);
  }

  /** What a step about e does to what concerns e. */
  lemma OwnTake(n: Node, e: Eid, m: Move)
    requires Order(e, m) in n.takes
    ensures var v := AfterTake(n, Order(e, m));
      && v.drops == n.drops && (forall k: Move :: Order(e, k) in v.takes ==> Order(e, k) in n.takes)
      && (forall k: Move :: k != m && Order(e, k) in n.takes ==> Order(e, k) in v.takes)
      && v.peer.server == n.peer.server && v.peer.containers.Keys == n.peer.containers.Keys
      && TasksOf(v.peer.engine, e) ==
         TasksOf(n.peer.engine, e) + (if e in n.peer.entities then [] else [Instantiate(e, m.to)])
      && (e in v.peer.entities <==> e in n.peer.entities)
      && (e in n.peer.entities ==> v.peer.entities[e] == n.peer.entities[e].(owner := m.to, quarantine := false))
      && (forall x :: Owns(v, e, x) <==> Owns(n, e, x) || (x == m.to && n.peer.server && x in n.peer.containers))
  {
    TasksOfAppend(n.peer.engine, Instantiate(e, m.to), e);
  }

  lemma OwnDrop(n: Node, e: Eid, m: Move)
    requires Order(e, m) in n.drops
    ensures var v := AfterDrop(n, Order(e, m)); var held, stays := e in n.peer.entities, m.to in n.peer.containers;
      && v.takes == n.takes && (forall k: Move :: Order(e, k) in v.drops ==> Order(e, k) in n.drops)
      && (forall k: Move :: k != m && Order(e, k) in n.drops ==> Order(e, k) in v.drops)
      && v.peer.server == n.peer.server && v.peer.containers.Keys == n.peer.containers.Keys
      && TasksOf(v.peer.engine, e) == TasksOf(n.peer.engine, e) + (if held && !stays then [Delete(e)] else [])
      && (e in v.peer.entities <==> held)
      && (held && stays ==> v.peer.entities[e] == n.peer.entities[e])
      && (held && !stays ==> v.peer.entities[e] == n.peer.entities[e].(quarantine := true, isValid := false))
      && (forall x :: Owns(v, e, x) <==> Owns(n, e, x) && !(held && n.peer.server && x == m.from && m.from != m.to))
  {
    TasksOfAppend(n.peer.engine, Delete(e), e);
  }

  lemma OwnTask(n: Node, e: Eid)
    requires n.peer.engine != [] && n.peer.engine[0].id == e
    ensures var v, t := AfterTask(n), n.peer.engine[0]; var held := e in n.peer.entities;
      && v.takes == n.takes && v.drops == n.drops
      && v.peer.server == n.peer.server && v.peer.containers.Keys == n.peer.containers.Keys
      && TasksOf(n.peer.engine, e) == [t] + TasksOf(v.peer.engine, e)
      && (forall x :: Owns(v, e, x) <==> Owns(n, e, x))
      && (t.Instantiate? ==> e in v.peer.entities)
      && (t.Instantiate? && held ==> v.peer.entities[e] == n.peer.entities[e].(owner := t.container))
      && (t.Instantiate? && !held ==> v.peer.entities[e] == Entity(t.container, false, true))
      && (t.Delete? ==> (e in v.peer.entities <==> held && n.peer.entities[e].isValid))
      && (t.Delete? && e in v.peer.entities ==> v.peer.entities[e] == n.peer.entities[e])
  {
  }

  lemma ConvergingStep(n: Node, s: Local, e: Eid, f: Cid)
    requires Converging(n, e, f) && LocalEnabled(n, s)
    ensures Converging(LocalStep(n, s), e, f)
  {
    if !About(n, s, e) {
      OtherStep(n, s, e);
    } else {
      match s
      case LocalTake(o) => ConvergingTake(n, o, f);
      case LocalDrop(o) => ConvergingDrop(n, o, f);
      case LocalTask => ConvergingTask(n, e, f);
    }
  }

  lemma ConvergingTake(n: Node, o: Order, f: Cid)
    requires Converging(n, o.id, f) && o in n.takes
    ensures Converging(AfterTake(n, o), o.id, f)
  {
    assert o == Order(o.id, o.move);
    OwnTake(n, o.id, o.move);
    hide AfterTake, TasksOf, Owns;
  }

  lemma ConvergingDrop(n: Node, o: Order, f: Cid)
    requires Converging(n, o.id, f) && o in n.drops
    ensures Converging(AfterDrop(n, o), o.id, f)
  {
    assert o == Order(o.id, o.move);
    OwnDrop(n, o.id, o.move);
    hide AfterDrop, TasksOf, Owns;
  }

  lemma ConvergingTask(n: Node, e: Eid, f: Cid)
    requires Converging(n, e, f) && n.peer.engine != [] && n.peer.engine[0].id == e
    ensures Converging(AfterTask(n), e, f)
  {
    OwnTask(n, e);
    hide AfterTask, TasksOf, Owns;
    var tasks, rest := TasksOf(n.peer.engine, e), TasksOf(AfterTask(n).peer.engine, e);
    assert tasks[0] == n.peer.engine[0] && forall i :: 0 <= i < |rest| ==> rest[i] == tasks[i + 1];
  }

  lemma LeavingStep(n: Node, s: Local, e: Eid)
    requires Leaving(n, e) && LocalEnabled(n, s)
    ensures Leaving(LocalStep(n, s), e) && (IndexLeaves(n, e) ==> IndexLeaves(LocalStep(n, s), e))
  {
    if !About(n, s, e) {
      OtherStep(n, s, e);
    } else {
      match s
      case LocalTake(o) => assert false;
      case LocalDrop(o) => LeavingDrop(n, o);
      case LocalTask => LeavingTask(n, e);
    }
  }

  lemma LeavingDrop(n: Node, o: Order)
    requires Leaving(n, o.id) && o in n.drops
    ensures Leaving(AfterDrop(n, o), o.id) && (IndexLeaves(n, o.id) ==> IndexLeaves(AfterDrop(n, o), o.id))
  {
    assert o == Order(o.id, o.move);
    OwnDrop(n, o.id, o.move);
    hide AfterDrop, TasksOf, Owns;
  }

  lemma LeavingTask(n: Node, e: Eid)
    requires Leaving(n, e) && n.peer.engine != [] && n.peer.engine[0].id == e
    ensures Leaving(AfterTask(n), e) && (IndexLeaves(n, e) ==> IndexLeaves(AfterTask(n), e))
  {
    OwnTask(n, e);
    hide AfterTask, TasksOf, Owns;
    var tasks, rest := TasksOf(n.peer.engine, e), TasksOf(AfterTask(n).peer.engine, e);
    assert tasks[0] == n.peer.engine[0] && forall i :: 0 <= i < |rest| ==> rest[i] == tasks[i + 1];
  }

  lemma StayingKeeps(n: Node, e: Eid, f: Cid)
    requires Staying(n, e) && n.takes == n.drops == multiset{} && n.peer.engine == [] && f !in n.peer.containers
    ensures QuietAt(n, e) && !SettledAt(n, e, f)
  {
  }

  lemma StayingStep(n: Node, s: Local, e: Eid)
    requires Staying(n, e) && LocalEnabled(n, s)
    ensures Staying(LocalStep(n, s), e)
  {
    if !About(n, s, e) {
      OtherStep(n, s, e);
    } else {
      match s
      case LocalTake(o) =>
        assert o == Order(e, o.move);
        OwnTake(n, e, o.move);
      case LocalDrop(o) =>
        assert o == Order(e, o.move);
        OwnDrop(n, e, o.move);
      case LocalTask =>
        OwnTask(n, e);
        var tasks, rest := TasksOf(n.peer.engine, e), TasksOf(AfterTask(n).peer.engine, e);
        assert tasks[0] == n.peer.engine[0] && forall i :: 0 <= i < |rest| ==> rest[i] == tasks[i + 1];
    }
  }

  lemma {:induction false} ConvergingRun(n: Node, steps: seq<Local>, e: Eid, f: Cid)
    requires Converging(n, e, f) && LocalRun(n, steps)
    ensures Converging(LocalAfter(n, steps), e, f)
    decreases |steps|
  {
    if steps != [] {
      ConvergingStep(n, steps[0], e, f);
      ConvergingRun(LocalStep(n, steps[0]), steps[1..], e, f);
    }
  }

  lemma {:induction false} LeavingRun(n: Node, steps: seq<Local>, e: Eid)
    requires Leaving(n, e) && LocalRun(n, steps)
    ensures Leaving(LocalAfter(n, steps), e) && (IndexLeaves(n, e) ==> IndexLeaves(LocalAfter(n, steps), e))
    decreases |steps|
  {
    if steps != [] {
      LeavingStep(n, steps[0], e);
      LeavingRun(LocalStep(n, steps[0]), steps[1..], e);
    }
  }

  lemma {:induction false} StayingRun(n: Node, steps: seq<Local>, e: Eid)
    requires Staying(n, e) && LocalRun(n, steps)
    ensures Staying(LocalAfter(n, steps), e)
    decreases |steps|
  {
    if steps != [] {
      StayingStep(n, steps[0], e);
      StayingRun(LocalStep(n, steps[0]), steps[1..], e);
    }
  }

  /** e leaves an index only by a drop from there. */
  lemma {:induction false} IndexLasts(n: Node, steps: seq<Local>, e: Eid, x: Cid)
    requires Owns(n, e, x) && LocalRun(n, steps)
    requires forall m: Move :: m.from == x ==> LocalDrop(Order(e, m)) !in steps
    ensures Owns(LocalAfter(n, steps), e, x)
    decreases |steps|
  {
    if steps != [] {
      var s := steps[0];
      assert s in steps;
      if !About(n, s, e) {
        OtherStep(n, s, e);
      } else if s.LocalTake? {
        assert s.order == Order(e, s.order.move);
        OwnTake(n, e, s.order.move);
      } else if s.LocalDrop? {
        assert s.order == Order(e, s.order.move);
        OwnDrop(n, e, s.order.move);
      } else {
        OwnTask(n, e);
      }
      IndexLasts(LocalStep(n, s), steps[1..], e, x);
    }
  }

  lemma {:induction false} DropsComeFromBag(n: Node, steps: seq<Local>, o: Order)
    requires LocalRun(n, steps) && LocalDrop(o) in steps
    ensures o in n.drops
    decreases |steps|
  {
    if steps[0] != LocalDrop(o) {
      assert LocalDrop(o) in steps[1..];
      DropsComeFromBag(LocalStep(n, steps[0]), steps[1..], o);
      StepWorks(n, steps[0]);
    }
  }

  // ---------- the condition ----------

  /** At a peer still under way from c to d, when the order for a move from y to f comes, y being c or d:
      the same target again; or f is subscribed, the first take is no longer to come, and without d the
      entity is gone and its drop fired, with d no index but f's is left in the end; or f is not subscribed,
      and neither is d, or the entity has arrived and will be taken off every index before it goes. */
  predicate OverlapIsHarmless(n: Node, e: Eid, c: Cid, d: Cid, y: Cid, f: Cid) {
    var first, s, held := Order(e, Move(c, d)), n.peer, e in n.peer.entities;
    || d == f
    || (f in s.containers && first !in n.takes &&
        if d !in s.containers then first !in n.drops && !held
        else if y == d then (held || !s.server) && !(first in n.drops && c == f && s.server)
        else !s.server)
    || (f !in s.containers &&
        (d !in s.containers ||
         (first !in n.takes && held &&
          if y == d then !(first in n.drops && s.server && c in s.containers && e in s.containers[c].owned)
          else !s.server && c in s.containers)))
  }

  /** The second order may come from a peer that has the entity under either container. */
  ghost predicate Overlaps(n: Node, e: Eid, c: Cid, d: Cid, y: Cid, initiator: bool) {
    && MovingAt(n, e, c, d) && (y == c || y == d)
    && (initiator ==> e in n.peer.entities && n.peer.entities[e] == Entity(y, false, true))
  }

  /** The second order has come. */
  function Overlapped(n: Node, e: Eid, y: Cid, f: Cid, initiator: bool): Node
    requires initiator ==> e in n.peer.entities
  {
    AfterStart(n, Order(e, Move(y, f)), initiator)
  }

  lemma OverlappedParts(n: Node, e: Eid, c: Cid, d: Cid, y: Cid, f: Cid, initiator: bool)
    requires Overlaps(n, e, c, d, y, initiator)
    ensures var v, m, second := Overlapped(n, e, y, f, initiator), Move(c, d), Move(y, f);
      && v.peer.server == n.peer.server && v.peer.containers == n.peer.containers && v.peer.engine == n.peer.engine
      && (e in v.peer.entities <==> e in n.peer.entities)
      && (e in v.peer.entities ==> v.peer.entities[e].owner == n.peer.entities[e].owner &&
                                   v.peer.entities[e].isValid == n.peer.entities[e].isValid)
      && (forall k: Move :: Order(e, k) in v.takes <==>
            (k == m && Order(e, m) in n.takes) || (k == second && f in n.peer.containers))
      && (forall k: Move :: Order(e, k) in v.drops <==>
            (k == m && Order(e, m) in n.drops) || (k == second && y != f && y in n.peer.containers))
      && (forall x :: Owns(v, e, x) <==> Owns(n, e, x))
  {
    assert forall x :: Owns(Overlapped(n, e, y, f, initiator), e, x) <==> Owns(n, e, x);
  }

  lemma OverlapConverges(n: Node, e: Eid, c: Cid, d: Cid, y: Cid, f: Cid, initiator: bool)
    requires Overlaps(n, e, c, d, y, initiator) && OverlapIsHarmless(n, e, c, d, y, f) && f in n.peer.containers
    ensures Converging(Overlapped(n, e, y, f, initiator), e, f)
  {
    var v := Overlapped(n, e, y, f, initiator);
    OverlappedParts(n, e, c, d, y, f, initiator);
    hide Overlapped;
    assert Order(e, Move(y, f)) in v.takes;
    assert Order(e, Move(c, d)) in n.drops ==> Order(e, Move(c, d)) in v.drops;
    assert y != f && y in n.peer.containers ==> Order(e, Move(y, f)) in v.drops;
  }

  lemma OverlapLeaves(n: Node, e: Eid, c: Cid, d: Cid, y: Cid, f: Cid, initiator: bool)
    requires Overlaps(n, e, c, d, y, initiator) && OverlapIsHarmless(n, e, c, d, y, f) && f !in n.peer.containers
    ensures var v := Overlapped(n, e, y, f, initiator); Leaving(v, e) && IndexLeaves(v, e)
  {
    var v := Overlapped(n, e, y, f, initiator);
    OverlappedParts(n, e, c, d, y, f, initiator);
    hide Overlapped;
    assert Order(e, Move(c, d)) in n.drops ==> Order(e, Move(c, d)) in v.drops;
    assert y != f && y in n.peer.containers ==> Order(e, Move(y, f)) in v.drops;
  }

  // ---------- how it fails ----------

  /** A way of delivering everything about e after which it is not settled on f. */
  ghost predicate Spoils(v: Node, steps: seq<Local>, e: Eid, f: Cid) {
    LocalRun(v, steps) && QuietAt(LocalAfter(v, steps), e) && !SettledAt(LocalAfter(v, steps), e, f)
  }

  /** Everything else follows a first step. */
  lemma StepThenAll(n: Node, s: Local) returns (steps: seq<Local>, rest: seq<Local>)
    requires LocalEnabled(n, s)
    ensures steps == [s] + rest && LocalRun(n, steps) && LocalRun(LocalStep(n, s), rest)
    ensures var v := LocalAfter(n, steps);
      v == LocalAfter(LocalStep(n, s), rest) && v.takes == v.drops == multiset{} && v.peer.engine == []
      && v.peer.server == n.peer.server && v.peer.containers.Keys == n.peer.containers.Keys
  {
    StepWorks(n, s);
    rest := DeliverOthers(LocalStep(n, s), multiset{}, multiset{});
    steps := [s] + rest;
    assert steps[1..] == rest;
  }

  /** f is subscribed, d is not, and e is still here, marked and queued for deletion: the take finds it and
      the deletion takes it away. */
  lemma TakenThenDeleted(n: Node, e: Eid, c: Cid, d: Cid, y: Cid, f: Cid, initiator: bool) returns (steps: seq<Local>)
    requires Overlaps(n, e, c, d, y, initiator) && d != f && f in n.peer.containers && d !in n.peer.containers
    requires Order(e, Move(c, d)) !in n.drops && e in n.peer.entities
    ensures Spoils(Overlapped(n, e, y, f, initiator), steps, e, f)
  {
    var v, o := Overlapped(n, e, y, f, initiator), Order(e, Move(y, f));
    OverlappedParts(n, e, c, d, y, f, initiator);
    assert v.takes[o] == 1 by {
      assert n.takes[o] == 0;
    }
    hide Overlapped;
    OwnTake(v, e, Move(y, f));
    var rest;
    steps, rest := StepThenAll(v, LocalTake(o));
    var u := AfterTake(v, o);
    assert u.takes[o] == 0;
    assert !TakeLeft(u, e) by {
      assert forall k: Move :: Order(e, k) in u.takes ==> Order(e, k) in v.takes && k == Move(y, f);
    }
    assert Leaving(u, e);
    LeavingRun(u, rest, e);
  }

  /** The drop from d finds nothing to unindex, or nothing to take away, since e is still to be created. */
  lemma DropTooEarly(n: Node, e: Eid, c: Cid, d: Cid, f: Cid) returns (steps: seq<Local>)
    requires MovingAt(n, e, c, d) && d != f && d in n.peer.containers
    requires Order(e, Move(c, d)) !in n.takes && e !in n.peer.entities && (f in n.peer.containers ==> n.peer.server)
    ensures Spoils(Overlapped(n, e, d, f, false), steps, e, f)
  {
    var v, o := Overlapped(n, e, d, f, false), Order(e, Move(d, f));
    OverlappedParts(n, e, c, d, d, f, false);
    assert v.drops[o] == 1 by {
      assert n.drops[o] == 0;
    }
    hide Overlapped;
    OwnDrop(v, e, Move(d, f));
    var rest;
    steps, rest := StepThenAll(v, LocalDrop(o));
    var u := AfterDrop(v, o);
    assert u.drops[o] == 0;
    assert forall k: Move :: Order(e, k) in u.drops ==> Order(e, k) in v.drops && k == Move(c, d);
    if f in n.peer.containers {
      IndexLastsWithout(u, rest, e, d);
    } else {
      assert Staying(u, e);
      StayingRun(u, rest, e);
    }
  }

  lemma IndexLastsWithout(n: Node, steps: seq<Local>, e: Eid, x: Cid)
    requires Owns(n, e, x) && LocalRun(n, steps) && forall m: Move :: Order(e, m) in n.drops ==> m.from != x
    ensures Owns(LocalAfter(n, steps), e, x)
  {
    forall m: Move | m.from == x ensures LocalDrop(Order(e, m)) !in steps {
      if LocalDrop(Order(e, m)) in steps {
        DropsComeFromBag(n, steps, Order(e, m));
      }
    }
    IndexLasts(n, steps, e, x);
  }

  /** f is not subscribed: e is taken away before the first drop has fired, which then finds nothing to
      unindex. */
  lemma DropTooLate(n: Node, e: Eid, c: Cid, d: Cid, f: Cid, initiator: bool) returns (steps: seq<Local>)
    requires Overlaps(n, e, c, d, d, initiator) && d != f && f !in n.peer.containers && d in n.peer.containers
    requires Order(e, Move(c, d)) !in n.takes && e in n.peer.entities
    requires Order(e, Move(c, d)) in n.drops && n.peer.server && Owns(n, e, c)
    ensures Spoils(Overlapped(n, e, d, f, initiator), steps, e, f)
  {
    var v, o := Overlapped(n, e, d, f, initiator), Order(e, Move(c, d));
    OverlappedParts(n, e, c, d, d, f, initiator);
    assert v.drops[o] == 1 by {
      assert n.drops[o] == 1;
    }
    hide Overlapped;
    var out := Order(e, Move(d, f));
    assert out in v.drops && out.move.to !in v.peer.containers;
    assert Leaving(v, e);
    var first := DeliverOthers(v, multiset{}, multiset{o});
    LeavingRun(v, first, e);
    forall m: Move | m.from == c ensures LocalDrop(Order(e, m)) !in first {
      if LocalDrop(Order(e, m)) in first {
        DropsComeFromBag(v, first, Order(e, m));
      }
    }
    IndexLasts(v, first, e, c);
    var u := LocalAfter(v, first);
    var last := LastOne(u, LocalDrop(o));
    LocalConcat(v, first, last);
    steps := first + last;
    assert e !in u.peer.entities;
    OwnDrop(u, e, Move(c, d));
    assert Owns(LocalAfter(v, steps), e, c);
  }

  /** The second transfer starts where e is still under c: no drop from d is ever sent, so at a server e stays
      in d's index, whatever is delivered. */
  lemma IndexedByTarget(n: Node, e: Eid, c: Cid, d: Cid, f: Cid, initiator: bool) returns (steps: seq<Local>)
    requires Overlaps(n, e, c, d, c, initiator) && c != d && d != f && d in n.peer.containers && n.peer.server
    requires Order(e, Move(c, d)) !in n.takes
    ensures Spoils(Overlapped(n, e, c, f, initiator), steps, e, f)
  {
    var v := Overlapped(n, e, c, f, initiator);
    OverlappedParts(n, e, c, d, c, f, initiator);
    hide Overlapped;
    steps := DeliverOthers(v, multiset{}, multiset{});
    IndexLastsWithout(v, steps, e, d);
  }

  /** And elsewhere nothing takes it away, without c subscribed or before e is created. */
  lemma KeptByTarget(n: Node, e: Eid, c: Cid, d: Cid, f: Cid, initiator: bool) returns (steps: seq<Local>)
    requires Overlaps(n, e, c, d, c, initiator) && c != d && d != f && d in n.peer.containers
    requires Order(e, Move(c, d)) !in n.takes && f !in n.peer.containers
    requires e !in n.peer.entities || c !in n.peer.containers
    ensures Spoils(Overlapped(n, e, c, f, initiator), steps, e, f)
  {
    var v, o := Overlapped(n, e, c, f, initiator), Order(e, Move(c, f));
    OverlappedParts(n, e, c, d, c, f, initiator);
    assert v.drops[o] <= 1 by {
      assert n.drops[o] == 0;
    }
    hide Overlapped, Owns;
    if o !in v.drops {
      steps := DeliverOthers(v, multiset{}, multiset{});
      assert Staying(v, e);
      StayingRun(v, steps, e);
    } else {
      OwnDrop(v, e, Move(c, f));
      var rest;
      steps, rest := StepThenAll(v, LocalDrop(o));
      var u := AfterDrop(v, o);
      assert u.drops[o] == 0;
      hide AfterDrop;
      assert forall k: Move :: Order(e, k) in u.drops ==> Order(e, k) in v.drops && k == Move(c, d);
      assert c in n.peer.containers && e !in n.peer.entities;
      assert Staying(u, e);
      hide Staying, LocalRun, LocalAfter;
      StayingRun(u, rest, e);
      StayingKeeps(LocalAfter(u, rest), e, f);
    }
  }

  lemma OverlapSpoils(n: Node, e: Eid, c: Cid, d: Cid, y: Cid, f: Cid, initiator: bool) returns (steps: seq<Local>)
    requires Overlaps(n, e, c, d, y, initiator) && !OverlapIsHarmless(n, e, c, d, y, f)
    ensures Spoils(Overlapped(n, e, y, f, initiator), steps, e, f)
  {
    var v, o, s := Overlapped(n, e, y, f, initiator), Order(e, Move(c, d)), n.peer;
    OverlappedParts(n, e, c, d, y, f, initiator);
    hide Overlapped;
    if o in n.takes {
      assert o in v.takes;
      steps := SpoiledRun(v, LocalTake(o), f);
    } else if f in s.containers && o in n.drops && (d !in s.containers || (c == f && s.server)) {
      assert o in v.drops;
      steps := SpoiledRun(v, LocalDrop(o), f);
    } else if d !in s.containers {
      steps := TakenThenDeleted(n, e, c, d, y, f, initiator);
    } else if y != d && s.server {
      steps := IndexedByTarget(n, e, c, d, f, initiator);
    } else if y != d {
      steps := KeptByTarget(n, e, c, d, f, initiator);
    } else if e !in s.entities {
      steps := DropTooEarly(n, e, c, d, f);
    } else {
      steps := DropTooLate(n, e, c, d, f, initiator);
    }
  }

  /** While e is under way from c to d, another transfer to f starts at a peer that has e under c or d: at each
      peer, e ends settled on f after every way of delivering what there is about it if and only if the
      overlap is harmless there. */
  lemma OverlapSettlesIff(n: Node, e: Eid, c: Cid, d: Cid, y: Cid, f: Cid, initiator: bool)
    requires Overlaps(n, e, c, d, y, initiator)
    ensures (exists steps :: Spoils(Overlapped(n, e, y, f, initiator), steps, e, f)) <==>
            !OverlapIsHarmless(n, e, c, d, y, f)
  {
    var v := Overlapped(n, e, y, f, initiator);
    if !OverlapIsHarmless(n, e, c, d, y, f) {
      var steps := OverlapSpoils(n, e, c, d, y, f, initiator);
    } else {
      forall steps ensures !Spoils(v, steps, e, f) {
        if LocalRun(v, steps) && QuietAt(LocalAfter(v, steps), e) {
          OverlapSettles(n, e, c, d, y, f, initiator, steps);
        }
      }
    }
  }

  lemma OverlapSettles(n: Node, e: Eid, c: Cid, d: Cid, y: Cid, f: Cid, initiator: bool, steps: seq<Local>)
    requires Overlaps(n, e, c, d, y, initiator) && OverlapIsHarmless(n, e, c, d, y, f)
    requires var v := Overlapped(n, e, y, f, initiator); LocalRun(v, steps) && QuietAt(LocalAfter(v, steps), e)
    ensures SettledAt(LocalAfter(Overlapped(n, e, y, f, initiator), steps), e, f)
  {
    var v := Overlapped(n, e, y, f, initiator);
    OverlappedParts(n, e, c, d, y, f, initiator);
    KeysLast(v, steps);
    if f in n.peer.containers {
      OverlapConverges(n, e, c, d, y, f, initiator);
      ConvergingRun(v, steps, e, f);
    } else {
      OverlapLeaves(n, e, c, d, y, f, initiator);
      LeavingRun(v, steps, e);
    }
  }

  lemma {:induction false} KeysLast(n: Node, steps: seq<Local>)
    requires LocalRun(n, steps)
    ensures var v := LocalAfter(n, steps);
      v.peer.server == n.peer.server && v.peer.containers.Keys == n.peer.containers.Keys
    decreases |steps|
  {
    if steps != [] {
      StepWorks(n, steps[0]);
      KeysLast(LocalStep(n, steps[0]), steps[1..]);
    }
  }
}
