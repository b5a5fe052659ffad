/** A peer that subscribes to the target of a transfer while it is under way, and then loads the entities
    the owner lists.  It was not among those the orders were sent to as subscribers of the target. */
module LateSubscriber {
  import opened Options
  import opened Peer
  import opened Transfer
  import opened Leftovers

  function Subscribed(n: Node, d: Cid): Node {
    n.(peer := n.peer.(containers := n.peer.containers[d := Container(false, {}, 2)]))
  }

  /** The owner's list has arrived and names e: it is registered under d, or given d as owner. */
  function Loaded(n: Node, e: Eid, d: Cid): Node {
    n.(peer := Perform(n.peer, Instantiate(e, d)))
  }

  /** A way of delivering what there is about e, the list coming in between, after which e is not settled. */
  ghost predicate Misses(v: Node, e: Eid, d: Cid, before: seq<Local>, after: seq<Local>) {
    && LocalRun(v, before)
    && var u := Loaded(LocalAfter(v, before), e, d);
    && LocalRun(u, after) && QuietAt(LocalAfter(u, after), e) && !SettledAt(LocalAfter(u, after), e, d)
  }

  /** Until the list comes: no index is kept, and e, if it is here, stays as it is. */
  ghost predicate Waiting(n: Node, e: Eid, d: Cid) {
    && d in n.peer.containers && !n.peer.server && !TakeLeft(n, e) && !OutLeft(n, e)
    && TasksOf(n.peer.engine, e) == [] && (forall x :: !Owns(n, e, x))
    && (e in n.peer.entities ==> n.peer.entities[e].isValid && !n.peer.entities[e].quarantine)
  }

  /** Nothing lifts its quarantine or takes it away. */
  ghost predicate Held(n: Node, e: Eid) {
    && !TakeLeft(n, e) && !OutLeft(n, e) && TasksOf(n.peer.engine, e) == []
    && e in n.peer.entities && n.peer.entities[e].quarantine
  }

  /** It is not in d's index, and no take will put it there. */
  ghost predicate NotIndexed(n: Node, e: Eid, d: Cid) {
    d in n.peer.containers && n.peer.server && !TakeLeft(n, e) && !Owns(n, e, d)
  }

  /** It is not validly under d, and nothing will put it there. */
  ghost predicate NotUnder(n: Node, e: Eid, d: Cid) {
    var tasks := TasksOf(n.peer.engine, e);
    && d in n.peer.containers && !TakeLeft(n, e) && (forall i :: 0 <= i < |tasks| ==> tasks[i].Delete?)
    && (e in n.peer.entities ==> n.peer.entities[e].owner != d || !n.peer.entities[e].isValid)
  }

  /** All four last. */
  lemma StepKeeps(n: Node, s: Local, e: Eid, d: Cid)
    requires LocalEnabled(n, s) && !TakeLeft(n, e)
    ensures var v := LocalStep(n, s);
      && (Waiting(n, e, d) ==> Waiting(v, e, d)) && (Held(n, e) ==> Held(v, e))
      && (NotIndexed(n, e, d) ==> NotIndexed(v, e, d)) && (NotUnder(n, e, d) ==> NotUnder(v, e, d))
      && !TakeLeft(v, e)
  {
    if !About(n, s, e) {
      OtherStep(n, s, e);
      hide LocalStep, TasksOf, Owns;
    } else {
      match s
      case LocalTake(o) => assert false;
      case LocalDrop(o) => DropKeeps(n, o, d);
      case LocalTask => TaskKeeps(n, e, d);
    }
  }

  lemma DropKeeps(n: Node, o: Order, d: Cid)
    requires o in n.drops && !TakeLeft(n, o.id)
    ensures var v, e := AfterDrop(n, o), o.id;
      && (Waiting(n, e, d) ==> Waiting(v, e, d)) && (Held(n, e) ==> Held(v, e))
      && (NotIndexed(n, e, d) ==> NotIndexed(v, e, d)) && (NotUnder(n, e, d) ==> NotUnder(v, e, d))
      && !TakeLeft(v, e)
  {
    assert o == Order(o.id, o.move);
    OwnDrop(n, o.id, o.move);
    hide AfterDrop, TasksOf, Owns;
  }

  lemma TaskKeeps(n: Node, e: Eid, d: Cid)
    requires n.peer.engine != [] && n.peer.engine[0].id == e && !TakeLeft(n, e)
    ensures var v := AfterTask(n);
      && (Waiting(n, e, d) ==> Waiting(v, e, d)) && (Held(n, e) ==> Held(v, e))
      && (NotIndexed(n, e, d) ==> NotIndexed(v, e, d)) && (NotUnder(n, e, d) ==> NotUnder(v, e, d))
      && !TakeLeft(v, e)
  {
    OwnTask(n, e);
    hide AfterTask, TasksOf, Owns;
    var tasks, rest := TasksOf(n.peer.engine, e), TasksOf(AfterTask(n).peer.engine, e);
    assert tasks[0] == n.peer.engine[0] && forall i :: 0 <= i < |rest| ==> rest[i] == tasks[i + 1];
  }

  lemma {:induction false} RunKeeps(n: Node, steps: seq<Local>, e: Eid, d: Cid)
    requires LocalRun(n, steps) && !TakeLeft(n, e)
    ensures var v := LocalAfter(n, steps);
      && (Waiting(n, e, d) ==> Waiting(v, e, d)) && (Held(n, e) ==> Held(v, e))
      && (NotIndexed(n, e, d) ==> NotIndexed(v, e, d)) && (NotUnder(n, e, d) ==> NotUnder(v, e, d))
    decreases |steps|
  {
    if steps != [] {
      StepKeeps(n, steps[0], e, d);
      hide Waiting, Held, NotIndexed, NotUnder;
      RunKeeps(LocalStep(n, steps[0]), steps[1..], e, d);
    }
  }

  /** What the new subscriber starts from. */
  lemma SubscribedParts(n: Node, e: Eid, c: Cid, d: Cid)
    requires MovingAt(n, e, c, d) && d !in n.peer.containers
    ensures var v := Subscribed(n, d);
      && !TakeLeft(v, e) && !OutLeft(v, e) && !Owns(v, e, d) && NotUnder(v, e, d)
      && (forall x :: Owns(v, e, x) <==> Owns(n, e, x))
  {
    var v := Subscribed(n, d);
    assert forall x :: Owns(v, e, x) <==> Owns(n, e, x);
  }

  /** If the list names e, it ends settled on d, whatever comes before and after, if and only if the peer keeps
      no index (loading does not enter e there) and e, if it is still here, is valid and not quarantined. */
  lemma LateSubscriberSettlesIff(n: Node, e: Eid, c: Cid, d: Cid)
    requires MovingAt(n, e, c, d) && d !in n.peer.containers
    ensures (exists before, after :: Misses(Subscribed(n, d), e, d, before, after)) <==>
            !(!n.peer.server &&
              (e in n.peer.entities ==> n.peer.entities[e].isValid && !n.peer.entities[e].quarantine))
  {
    var v := Subscribed(n, d);
    SubscribedParts(n, e, c, d);
    if !n.peer.server && (e in n.peer.entities ==> n.peer.entities[e].isValid && !n.peer.entities[e].quarantine) {
      assert Waiting(v, e, d);
      forall before, after ensures !Misses(v, e, d, before, after) {
        if LocalRun(v, before) && LocalRun(Loaded(LocalAfter(v, before), e, d), after) {
          ListedSettles(v, e, d, before, after);
        }
      }
    } else {
      var after := ListedMisses(n, e, c, d);
      assert LocalAfter(v, []) == v;
      assert Misses(v, e, d, [], after);
    }
  }

  lemma ListedSettles(v: Node, e: Eid, d: Cid, before: seq<Local>, after: seq<Local>)
    requires Waiting(v, e, d) && LocalRun(v, before) && LocalRun(Loaded(LocalAfter(v, before), e, d), after)
    ensures var u := LocalAfter(Loaded(LocalAfter(v, before), e, d), after);
      QuietAt(u, e) ==> SettledAt(u, e, d)
  {
    RunKeeps(v, before, e, d);
    var w := LocalAfter(v, before);
    var u := Loaded(w, e, d);
    assert forall x :: Owns(u, e, x) <==> Owns(w, e, x);
    assert Converging(u, e, d);
    ConvergingRun(u, after, e, d);
    KeysLast(u, after);
  }

  lemma ListedMisses(n: Node, e: Eid, c: Cid, d: Cid) returns (after: seq<Local>)
    requires MovingAt(n, e, c, d) && d !in n.peer.containers
    requires n.peer.server ||
             (e in n.peer.entities && (!n.peer.entities[e].isValid || n.peer.entities[e].quarantine))
    ensures var u := Loaded(Subscribed(n, d), e, d);
      LocalRun(u, after) && QuietAt(LocalAfter(u, after), e) && !SettledAt(LocalAfter(u, after), e, d)
  {
    SubscribedParts(n, e, c, d);
    var u := Loaded(Subscribed(n, d), e, d);
    assert forall x :: Owns(u, e, x) <==> Owns(n, e, x);
    assert !TakeLeft(u, e) && !OutLeft(u, e);
    after := DeliverOthers(u, multiset{}, multiset{});
    if n.peer.server {
      assert NotIndexed(u, e, d);
      RunKeeps(u, after, e, d);
    } else if n.peer.entities[e].isValid {
      assert Held(u, e);
      RunKeeps(u, after, e, d);
    } else {
      assert Leaving(u, e);
      LeavingRun(u, after, e);
    }
  }

  /** If it does not name e, nothing else will make it known here under d. */
  lemma UnlistedNeverSettles(n: Node, e: Eid, c: Cid, d: Cid, steps: seq<Local>)
    requires MovingAt(n, e, c, d) && d !in n.peer.containers && LocalRun(Subscribed(n, d), steps)
    ensures !SettledAt(LocalAfter(Subscribed(n, d), steps), e, d)
  {
    SubscribedParts(n, e, c, d);
    RunKeeps(Subscribed(n, d), steps, e, d);
  }
}
