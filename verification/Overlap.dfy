/** Runs in which two transfers of one entity overlap: exactly when they end well, and one that does not. */
module Overlap {
  import opened Options
  import opened Peer
  import opened Transfer
  import opened Leftovers

  /** Steps as the code allows them, overlapping transfers included. */
  ghost predicate AllowedRun(w: World, steps: seq<Step>)
    decreases |steps|
  {
    steps == [] || (Allowed(w, steps[0]) && AllowedRun(Execute(w, steps[0]), steps[1..]))
  }

  ghost function AllowedAfter(w: World, steps: seq<Step>): World
    requires AllowedRun(w, steps)
    decreases |steps|
  {
    if steps == [] then w else AllowedAfter(Execute(w, steps[0]), steps[1..])
  }

  lemma {:induction false} AllowedConcat(w: World, a: seq<Step>, b: seq<Step>)
    requires AllowedRun(w, a) && AllowedRun(AllowedAfter(w, a), b)
    ensures AllowedRun(w, a + b) && AllowedAfter(w, a + b) == AllowedAfter(AllowedAfter(w, a), b)
    decreases |a|
  {
    if a == [] {
      assert a + b == b;
    } else {
      assert (a + b)[0] == a[0] && (a + b)[1..] == a[1..] + b;
      AllowedConcat(Execute(w, a[0]), a[1..], b);
    }
  }

  // ---------- what a run does at one peer ----------

  ghost predicate Deliveries(steps: seq<Step>) {
    forall s :: s in steps ==> Delivery(s)
  }

  function LocalOf(s: Step): Local
    requires s.TakeArrives? || s.DropFires? || s.EngineRuns?
  {
    if s.TakeArrives? then LocalTake(s.order) else if s.DropFires? then LocalDrop(s.order) else LocalTask
  }

  function StepOf(q: nat, s: Local): Step {
    match s
    case LocalTake(o) => TakeArrives(q, o)
    case LocalDrop(o) => DropFires(q, o)
    case LocalTask => EngineRuns(q)
  }

  lemma DeliveryIsLocal(w: World, s: Step)
    requires Delivery(s) && s.p < |w.nodes|
    ensures Allowed(w, s) <==> LocalEnabled(w.nodes[s.p], LocalOf(s))
    ensures Allowed(w, s) ==> Execute(w, s) == w.(nodes := w.nodes[s.p := LocalStep(w.nodes[s.p], LocalOf(s))])
  {
  }

  /** The part of a run that takes place at q. */
  function Locals(steps: seq<Step>, q: nat): seq<Local>
    requires forall s :: s in steps ==> s.TakeArrives? || s.DropFires? || s.EngineRuns?
  {
    if steps == [] then []
    else
      assert steps[0] in steps && forall s :: s in steps[1..] ==> s in steps;
      (if steps[0].p == q then [LocalOf(steps[0])] else []) + Locals(steps[1..], q)
  }

  lemma {:induction false} RunIsLocal(w: World, steps: seq<Step>, q: nat)
    requires AllowedRun(w, steps) && Deliveries(steps) && q < |w.nodes|
    ensures LocalRun(w.nodes[q], Locals(steps, q))
    ensures var v := AllowedAfter(w, steps);
      |v.nodes| == |w.nodes| && v.phase == w.phase && v.nodes[q] == LocalAfter(w.nodes[q], Locals(steps, q))
    decreases |steps|
  {
    if steps != [] {
      var s := steps[0];
      assert s in steps && forall t :: t in steps[1..] ==> t in steps;
      DeliveryIsLocal(w, s);
      LocalsFirst(steps, q);
      hide Execute, Allowed, LocalStep, LocalEnabled, LocalOf, Locals;
      RunIsLocal(Execute(w, s), steps[1..], q);
      hide LocalRun, LocalAfter;
      if s.p == q {
        LocalFirst(w.nodes[q], LocalOf(s), Locals(steps[1..], q));
      }
    } else {
      assert Locals(steps, q) == [];
    }
  }

  lemma LocalsFirst(steps: seq<Step>, q: nat)
    requires steps != [] && Deliveries(steps)
    ensures Deliveries(steps[1..])
    ensures Locals(steps, q) ==
            if steps[0].p == q then [LocalOf(steps[0])] + Locals(steps[1..], q) else Locals(steps[1..], q)
  {
    assert forall s :: s in steps[1..] ==> s in steps;
  }

  lemma LocalFirst(n: Node, s: Local, rest: seq<Local>)
    requires LocalEnabled(n, s) && LocalRun(LocalStep(n, s), rest)
    ensures LocalRun(n, [s] + rest) && LocalAfter(n, [s] + rest) == LocalAfter(LocalStep(n, s), rest)
  {
    assert ([s] + rest)[1..] == rest;
  }

  /** Whatever one peer can do it can do while the others wait. */
  lemma {:induction false} LocalIsRun(w: World, q: nat, locals: seq<Local>) returns (steps: seq<Step>)
    requires q < |w.nodes| && LocalRun(w.nodes[q], locals)
    ensures AllowedRun(w, steps) && Deliveries(steps)
    ensures AllowedAfter(w, steps) == w.(nodes := w.nodes[q := LocalAfter(w.nodes[q], locals)])
    decreases |locals|
  {
    if locals == [] {
      steps := [];
      assert w.nodes[q := w.nodes[q]] == w.nodes;
    } else {
      var s := StepOf(q, locals[0]);
      DeliveryIsLocal(w, s);
      assert LocalOf(s) == locals[0];
      hide Execute, Allowed, LocalStep, LocalEnabled, LocalOf;
      var v := Execute(w, s);
      var rest := LocalIsRun(v, q, locals[1..]);
      AllowedFirst(w, s, rest);
      steps := [s] + rest;
      hide AllowedAfter, AllowedRun;
      assert v.nodes[q := LocalAfter(v.nodes[q], locals[1..])] == w.nodes[q := LocalAfter(w.nodes[q], locals)];
    }
  }

  lemma AllowedFirst(w: World, s: Step, rest: seq<Step>)
    requires Allowed(w, s) && AllowedRun(Execute(w, s), rest)
    ensures AllowedRun(w, [s] + rest) && AllowedAfter(w, [s] + rest) == AllowedAfter(Execute(w, s), rest)
  {
    assert ([s] + rest)[1..] == rest;
  }

  /** Everything at the first k peers can be delivered, leaving peer q and the rest as they are. */
  lemma {:induction false} OthersCanFinish(w: World, k: nat, q: nat, e: Eid) returns (steps: seq<Step>)
    requires k <= |w.nodes|
    ensures AllowedRun(w, steps) && Deliveries(steps)
    ensures var v := AllowedAfter(w, steps);
      && |v.nodes| == |w.nodes| && (q < |w.nodes| ==> v.nodes[q] == w.nodes[q])
      && (forall i :: k <= i < |w.nodes| ==> v.nodes[i] == w.nodes[i])
      && (forall i :: 0 <= i < k && i != q ==> QuietAt(v.nodes[i], e))
    decreases k
  {
    if k == 0 {
      steps := [];
      return;
    }
    hide AllowedRun, AllowedAfter, QuietAt, Deliveries;
    var first := OthersCanFinish(w, k - 1, q, e);
    if k - 1 == q {
      return first;
    }
    var u := AllowedAfter(w, first);
    var last := OneCanFinish(u, k - 1, e);
    AllowedConcat(w, first, last);
    DeliveriesConcat(first, last);
    steps := first + last;
  }

  lemma OneCanFinish(w: World, i: nat, e: Eid) returns (steps: seq<Step>)
    requires i < |w.nodes|
    ensures AllowedRun(w, steps) && Deliveries(steps)
    ensures var v := AllowedAfter(w, steps);
      |v.nodes| == |w.nodes| && QuietAt(v.nodes[i], e)
      && forall j :: 0 <= j < |w.nodes| && j != i ==> v.nodes[j] == w.nodes[j]
  {
    var locals := DeliverOthers(w.nodes[i], multiset{}, multiset{});
    EmptyIsQuiet(LocalAfter(w.nodes[i], locals), e);
    hide AllowedRun, AllowedAfter, LocalRun, LocalAfter, QuietAt;
    steps := LocalIsRun(w, i, locals);
  }

  lemma EmptyIsQuiet(n: Node, e: Eid)
    requires n.takes == n.drops == multiset{} && n.peer.engine == []
    ensures QuietAt(n, e)
  {
  }

  lemma DeliveriesConcat(a: seq<Step>, b: seq<Step>)
    requires Deliveries(a) && Deliveries(b)
    ensures Deliveries(a + b)
  {
  }

  // ---------- the second transfer ----------

  /** In any reachable state with e under way from c to d: a transfer to f that starts where e is under y ends,
      however everything is delivered, with e settled on f if and only if the overlap is harmless at every
      peer. */
  lemma OverlappingTransferSettlesIff(w: World, e: Eid, s: Step)
    requires Inv(w) && e in w.phase && w.phase[e].Moved? && Allowed(w, s) && s.Start? && s.id == e
    requires Transferable(w.nodes[s.p].peer, e, s.to, s.ignoreNoMove)
    ensures var c, d, y := w.phase[e].from, w.phase[e].to, w.nodes[s.p].peer.entities[e].owner;
      (forall steps :: AllowedRun(Execute(w, s), steps) && Deliveries(steps)
                       && Quiet(AllowedAfter(Execute(w, s), steps), e) ==>
                       Settled(AllowedAfter(Execute(w, s), steps), e, s.to))
      <==> forall q :: 0 <= q < |w.nodes| ==> OverlapIsHarmless(w.nodes[q], e, c, d, y, s.to)
  {
    var c, d, y, v := w.phase[e].from, w.phase[e].to, w.nodes[s.p].peer.entities[e].owner, Execute(w, s);
    forall q | 0 <= q < |w.nodes|
      ensures Overlaps(w.nodes[q], e, c, d, y, q == s.p) && v.nodes[q] == Overlapped(w.nodes[q], e, y, s.to, q == s.p)
    {
      StartOverlaps(w, e, s, q);
    }
    if q :| 0 <= q < |w.nodes| && !OverlapIsHarmless(w.nodes[q], e, c, d, y, s.to) {
      var locals := OverlapSpoils(w.nodes[q], e, c, d, y, s.to, q == s.p);
      var steps := SpoiledWorld(v, e, s.to, q, locals);
    } else {
      forall steps | AllowedRun(v, steps) && Deliveries(steps) && Quiet(AllowedAfter(v, steps), e)
        ensures Settled(AllowedAfter(v, steps), e, s.to)
      {
        RunIsLocal(v, steps, s.p);
        forall q | 0 <= q < |v.nodes| ensures SettledAt(AllowedAfter(v, steps).nodes[q], e, s.to) {
          RunIsLocal(v, steps, q);
          OverlapSettles(w.nodes[q], e, c, d, y, s.to, q == s.p, Locals(steps, q));
        }
      }
    }
  }

  lemma StartOverlaps(w: World, e: Eid, s: Step, q: nat)
    requires Inv(w) && e in w.phase && w.phase[e].Moved? && Allowed(w, s) && s.Start? && s.id == e
    requires Transferable(w.nodes[s.p].peer, e, s.to, s.ignoreNoMove) && q < |w.nodes|
    ensures var c, d, y, v := w.phase[e].from, w.phase[e].to, w.nodes[s.p].peer.entities[e].owner, Execute(w, s);
      && Overlaps(w.nodes[q], e, c, d, y, q == s.p)
      && |v.nodes| == |w.nodes| && v.nodes[q] == Overlapped(w.nodes[q], e, y, s.to, q == s.p)
  {
    assert InvAt(w.nodes[q], e, w.phase) && InvAt(w.nodes[s.p], e, w.phase);
  }

  lemma SpoiledWorld(v: World, e: Eid, f: Cid, q: nat, locals: seq<Local>) returns (steps: seq<Step>)
    requires q < |v.nodes| && Spoils(v.nodes[q], locals, e, f)
    ensures AllowedRun(v, steps) && Deliveries(steps)
    ensures Quiet(AllowedAfter(v, steps), e) && !Settled(AllowedAfter(v, steps), e, f)
  {
    var first := LocalIsRun(v, q, locals);
    var u := AllowedAfter(v, first);
    var last := OthersCanFinish(u, |u.nodes|, q, e);
    AllowedConcat(v, first, last);
    steps := first + last;
    assert !SettledAt(AllowedAfter(v, steps).nodes[q], e, f);
  }

  // ---------- a run that ends badly ----------

  function Cell(owned: set<Eid>): Container {
    Container(false, owned, 2)
  }

  /** A server that subscribes to c only, and one that subscribes to c and d. */
  function Near(c: Cid, entities: map<Eid, Entity>, inC: set<Eid>, engine: seq<Task>,
                takes: multiset<Order>, drops: multiset<Order>): Node {
    Node(State(true, entities, map[c := Cell(inC)], engine, {}), takes, drops)
  }

  function Far(c: Cid, d: Cid, entities: map<Eid, Entity>, inC: set<Eid>, inD: set<Eid>,
               takes: multiset<Order>, drops: multiset<Order>): Node {
    Node(State(true, entities, map[c := Cell(inC), d := Cell(inD)], [], {}), takes, drops)
  }

  ghost predicate Goes(w: World, s: Step, v: World) {
    Allowed(w, s) && Execute(w, s) == v
  }

  function Two(near: Node, far: Node, e: Eid, from: Cid, to: Cid): World {
    World([near, far], map[e := Moved(from, to)])
  }

  /** One peer receives a take, fires a drop or runs a task. */
  lemma NodeGoes(w: World, s: Step, e: Eid, from: Cid, to: Cid, near: Node, far: Node, n: Node)
    requires w == Two(near, far, e, from, to) && Allowed(w, s) && (s.TakeArrives? || s.DropFires? || s.EngineRuns?)
    requires n == if s.TakeArrives? then AfterTake(w.nodes[s.p], s.order)
                  else if s.DropFires? then AfterDrop(w.nodes[s.p], s.order) else AfterTask(w.nodes[s.p])
    ensures Goes(w, s, if s.p == 0 then Two(n, far, e, from, to) else Two(near, n, e, from, to))
  {
    hide AfterTake, AfterDrop, AfterTask;
  }

  /** The second server, holding e under `from`, starts a transfer. */
  lemma StartGoes(e: Eid, a: Cid, b: Cid, from: Cid, to: Cid, near: Node, far: Node)
    requires from != to && far.peer.server
    requires e in far.peer.entities && far.peer.entities[e] == Entity(from, false, true)
    ensures var away := Order(e, Move(from, to));
      var busy := far.(peer := far.peer.(entities := far.peer.entities[e := Entity(from, true, true)]));
      Goes(Two(near, far, e, a, b), Start(1, e, to, false), Two(Receive(near, away), Receive(busy, away), e, from, to))
  {
    hide Receive;
    var away := Order(e, Move(from, to));
    var w := Two(near, far, e, a, b);
    var busy := far.(peer := far.peer.(entities := far.peer.entities[e := Entity(from, true, true)]));
    assert Peer.Transfer(far.peer, e, to, false) == (busy.peer, Some(Move(from, to)));
    assert w.nodes[1 := busy] == [near, busy];
    assert Broadcast([near, busy], away) == [Receive(near, away), Receive(busy, away)];
    assert w.phase[e := Moved(from, to)] == map[e := Moved(from, to)];
  }

  /** e goes to d and straight back, before the first drops have fired. */
  function ThereAndBack(e: Eid, c: Cid, d: Cid): seq<Step> {
    var away, back := Order(e, Move(c, d)), Order(e, Move(d, c));
    [Start(1, e, d, false), TakeArrives(1, away), Start(1, e, c, false), TakeArrives(0, back), TakeArrives(1, back),
     DropFires(0, away), DropFires(1, away), DropFires(1, back), EngineRuns(0)]
  }

  lemma FarTakes(c: Cid, d: Cid, e: Eid, from: Cid, to: Cid, inC: set<Eid>, inD: set<Eid>, drops: multiset<Order>)
    requires c != d && to in {c, d}
    ensures var o := Order(e, Move(from, to));
      AfterTake(Far(c, d, map[e := Entity(from, true, true)], inC, inD, multiset{o}, drops), o) ==
      Far(c, d, map[e := Entity(to, false, true)],
          if to == c then inC + {e} else inC, if to == d then inD + {e} else inD, multiset{}, drops)
  {
    var o := Order(e, Move(from, to));
    var n := AfterTake(Far(c, d, map[e := Entity(from, true, true)], inC, inD, multiset{o}, drops), o);
    assert n.peer.entities == map[e := Entity(to, false, true)];
    assert n.peer.containers == map[c := Cell(if to == c then inC + {e} else inC),
                                    d := Cell(if to == d then inD + {e} else inD)];
  }

  lemma FarDrops(c: Cid, d: Cid, e: Eid, from: Cid, to: Cid, owner: Cid, inC: set<Eid>, inD: set<Eid>,
                 rest: multiset<Order>)
    requires c != d && from != to && to in {c, d} && from in {c, d}
    ensures var o, x := Order(e, Move(from, to)), map[e := Entity(owner, false, true)];
      AfterDrop(Far(c, d, x, inC, inD, multiset{}, rest + multiset{o}), o) ==
      Far(c, d, x, if from == c then inC - {e} else inC, if from == d then inD - {e} else inD, multiset{}, rest)
  {
    var o, x := Order(e, Move(from, to)), map[e := Entity(owner, false, true)];
    var n := AfterDrop(Far(c, d, x, inC, inD, multiset{}, rest + multiset{o}), o);
    assert n.peer.containers == map[c := Cell(if from == c then inC - {e} else inC),
                                    d := Cell(if from == d then inD - {e} else inD)];
    assert n.drops == rest;
  }

  lemma NearTakes(c: Cid, d: Cid, e: Eid, drops: multiset<Order>)
    ensures var o, x := Order(e, Move(d, c)), map[e := Entity(c, false, true)];
      AfterTake(Near(c, x, {e}, [], multiset{o}, drops), o) == Near(c, x, {e}, [], multiset{}, drops)
  {
    var o, x := Order(e, Move(d, c)), map[e := Entity(c, false, true)];
    var n := AfterTake(Near(c, x, {e}, [], multiset{o}, drops), o);
    assert {e} + {e} == {e} && n.peer.entities == x && n.peer.containers == map[c := Cell({e})];
  }

  lemma NearDrops(c: Cid, d: Cid, e: Eid)
    requires c != d
    ensures var o := Order(e, Move(c, d));
      AfterDrop(Near(c, map[e := Entity(c, false, true)], {e}, [], multiset{}, multiset{o}), o) ==
      Near(c, map[e := Entity(c, true, false)], {}, [Delete(e)], multiset{}, multiset{})
  {
    var o := Order(e, Move(c, d));
    var n := AfterDrop(Near(c, map[e := Entity(c, false, true)], {e}, [], multiset{}, multiset{o}), o);
    assert {e} - {e} == {} && n.peer.entities == map[e := Entity(c, true, false)];
    assert n.peer.containers == map[c := Cell({})];
  }

  lemma NearDeletes(c: Cid, e: Eid)
    ensures AfterTask(Near(c, map[e := Entity(c, true, false)], {}, [Delete(e)], multiset{}, multiset{})) ==
            Near(c, map[], {}, [], multiset{}, multiset{})
  {
    assert map[e := Entity(c, true, false)] - {e} == map[];
  }

  /** e settled on c, at the outset. */
  function AtHome(e: Eid, c: Cid, d: Cid): World {
    var on, none: multiset<Order> := map[e := Entity(c, false, true)], multiset{};
    Two(Near(c, on, {e}, [], none, none), Far(c, d, on, {e}, {}, none, none), e, c, c)
  }

  /** Both transfers started, the second as soon as the first take had arrived where it was sent from. */
  function BothStarted(e: Eid, c: Cid, d: Cid): World {
    var away, back := Order(e, Move(c, d)), Order(e, Move(d, c));
    Two(Near(c, map[e := Entity(c, false, true)], {e}, [], multiset{back}, multiset{away}),
        Far(c, d, map[e := Entity(d, true, true)], {e}, {e}, multiset{back}, multiset{back} + multiset{away}), e, d, c)
  }

  /** Both takes have arrived. */
  function Taken(e: Eid, c: Cid, d: Cid): World {
    var away, back, on := Order(e, Move(c, d)), Order(e, Move(d, c)), map[e := Entity(c, false, true)];
    Two(Near(c, on, {e}, [], multiset{}, multiset{away}),
        Far(c, d, on, {e}, {e}, multiset{}, multiset{back} + multiset{away}), e, d, c)
  }

  function Lost(e: Eid, c: Cid, d: Cid): World {
    Two(Near(c, map[], {}, [], multiset{}, multiset{}),
        Far(c, d, map[e := Entity(c, false, true)], {}, {}, multiset{}, multiset{}), e, d, c)
  }

  lemma Away(e: Eid, c: Cid, d: Cid) returns (w1: World, w2: World)
    requires c != d
    ensures var steps := ThereAndBack(e, c, d);
      Goes(AtHome(e, c, d), steps[0], w1) && Goes(w1, steps[1], w2)
    ensures w2 == Two(Near(c, map[e := Entity(c, false, true)], {e}, [], multiset{}, multiset{Order(e, Move(c, d))}),
                      Far(c, d, map[e := Entity(d, false, true)], {e}, {e}, multiset{}, multiset{Order(e, Move(c, d))}),
                      e, c, d)
  {
    var away, none: multiset<Order> := Order(e, Move(c, d)), multiset{};
    var w := AtHome(e, c, d);
    StartGoes(e, c, c, c, d, w.nodes[0], w.nodes[1]);
    var near := Near(c, map[e := Entity(c, false, true)], {e}, [], none, multiset{away});
    var far := Far(c, d, map[e := Entity(c, true, true)], {e}, {}, multiset{away}, multiset{away});
    assert Receive(w.nodes[0], away) == near;
    var busy := w.nodes[1].(peer := w.nodes[1].peer.(entities := far.peer.entities));
    assert w.nodes[1].peer.entities[e := Entity(c, true, true)] == far.peer.entities;
    assert Receive(busy, away) == far;
    w1 := Two(near, far, e, c, d);
    FarTakes(c, d, e, c, d, {e}, {}, multiset{away});
    var landed := Far(c, d, map[e := Entity(d, false, true)], {e}, {} + {e}, none, multiset{away});
    NodeGoes(w1, TakeArrives(1, away), e, c, d, near, far, landed);
    w2 := Two(near, landed, e, c, d);
    assert {} + {e} == {e};
  }

  lemma Back(e: Eid, c: Cid, d: Cid, w: World)
    requires c != d
    requires w == Two(Near(c, map[e := Entity(c, false, true)], {e}, [], multiset{}, multiset{Order(e, Move(c, d))}),
                      Far(c, d, map[e := Entity(d, false, true)], {e}, {e}, multiset{}, multiset{Order(e, Move(c, d))}),
                      e, c, d)
    ensures Goes(w, ThereAndBack(e, c, d)[2], BothStarted(e, c, d))
  {
    var away, back := Order(e, Move(c, d)), Order(e, Move(d, c));
    var near, far, end := w.nodes[0], w.nodes[1], BothStarted(e, c, d);
    StartGoes(e, c, d, d, c, near, far);
    assert Receive(near, back) == end.nodes[0];
    assert far.peer.entities[e := Entity(d, true, true)] == end.nodes[1].peer.entities;
    assert multiset{away} + multiset{back} == multiset{back} + multiset{away};
    assert Receive(far.(peer := end.nodes[1].peer), back) == end.nodes[1];
  }

  lemma BothTake(e: Eid, c: Cid, d: Cid) returns (w: World)
    requires c != d
    ensures var steps := ThereAndBack(e, c, d);
      Goes(BothStarted(e, c, d), steps[3], w) && Goes(w, steps[4], Taken(e, c, d))
  {
    var away, back := Order(e, Move(c, d)), Order(e, Move(d, c));
    var start, end := BothStarted(e, c, d), Taken(e, c, d);
    NearTakes(c, d, e, multiset{away});
    NodeGoes(start, TakeArrives(0, back), e, d, c, start.nodes[0], start.nodes[1], end.nodes[0]);
    w := Two(end.nodes[0], start.nodes[1], e, d, c);
    FarTakes(c, d, e, d, c, {e}, {e}, multiset{back} + multiset{away});
    assert {e} + {e} == {e};
    NodeGoes(w, TakeArrives(1, back), e, d, c, end.nodes[0], start.nodes[1], end.nodes[1]);
  }

  lemma AllDrop(e: Eid, c: Cid, d: Cid) returns (w1: World, w2: World, w3: World)
    requires c != d
    ensures var steps := ThereAndBack(e, c, d);
      && Goes(Taken(e, c, d), steps[5], w1) && Goes(w1, steps[6], w2)
      && Goes(w2, steps[7], w3) && Goes(w3, steps[8], Lost(e, c, d))
  {
    var away, back := Order(e, Move(c, d)), Order(e, Move(d, c));
    var w, on := Taken(e, c, d), map[e := Entity(c, false, true)];
    var near := Near(c, map[e := Entity(c, true, false)], {}, [Delete(e)], multiset{}, multiset{});
    NearDrops(c, d, e);
    NodeGoes(w, DropFires(0, away), e, d, c, w.nodes[0], w.nodes[1], near);
    w1 := Two(near, w.nodes[1], e, d, c);
    var far := Far(c, d, on, {e} - {e}, {e}, multiset{}, multiset{back});
    FarDrops(c, d, e, c, d, c, {e}, {e}, multiset{back});
    NodeGoes(w1, DropFires(1, away), e, d, c, near, w.nodes[1], far);
    w2 := Two(near, far, e, d, c);
    assert {e} - {e} == {} && multiset{back} == multiset{} + multiset{back};
    FarDrops(c, d, e, d, c, c, {}, {e}, multiset{});
    var end := Lost(e, c, d);
    NodeGoes(w2, DropFires(1, back), e, d, c, near, far, end.nodes[1]);
    w3 := Two(near, end.nodes[1], e, d, c);
    NearDeletes(c, e);
    NodeGoes(w3, EngineRuns(0), e, d, c, near, end.nodes[1], end.nodes[0]);
  }

  lemma AllGo(e: Eid, c: Cid, d: Cid) returns (ws: seq<World>)
    requires c != d
    ensures |ws| == 10 == |ThereAndBack(e, c, d)| + 1 && ws[0] == AtHome(e, c, d) && ws[9] == Lost(e, c, d)
    ensures forall i :: 0 <= i < 9 ==> Goes(ws[i], ThereAndBack(e, c, d)[i], ws[i + 1])
  {
    var w1, w2 := Away(e, c, d);
    Back(e, c, d, w2);
    var w4 := BothTake(e, c, d);
    var w6, w7, w8 := AllDrop(e, c, d);
    hide AtHome, BothStarted, Taken, Lost, Goes, Near, Far, Two;
    ws := [AtHome(e, c, d), w1, w2, BothStarted(e, c, d), w4, Taken(e, c, d), w6, w7, w8, Lost(e, c, d)];
  }

  /** From e settled on c, the two transfers end with nothing under way, e lost at the first server and
      missing from the index at the second. */
  lemma OverlappingTransfersLoseEntity(e: Eid, c: Cid, d: Cid)
    requires c != d
    ensures Settled(AtHome(e, c, d), e, c)
    ensures AllowedRun(AtHome(e, c, d), ThereAndBack(e, c, d))
    ensures AllowedAfter(AtHome(e, c, d), ThereAndBack(e, c, d)) == Lost(e, c, d)
    ensures Quiet(Lost(e, c, d), e)
    ensures !SettledAt(Lost(e, c, d).nodes[0], e, c) && !SettledAt(Lost(e, c, d).nodes[1], e, c)
  {
    LostIsQuiet(e, c, d);
    hide AtHome, Lost, Goes, AllowedRun, AllowedAfter, Quiet, SettledAt;
    var steps := ThereAndBack(e, c, d);
    var ws := AllGo(e, c, d);
    hide ThereAndBack;
    ChainRuns(ws, steps, 0);
    assert steps[0..] == steps;
  }

  lemma LostIsQuiet(e: Eid, c: Cid, d: Cid)
    requires c != d
    ensures var v := Lost(e, c, d);
      && Settled(AtHome(e, c, d), e, c)
      && Quiet(v, e) && !SettledAt(v.nodes[0], e, c) && !SettledAt(v.nodes[1], e, c)
  {
    assert Owns(AtHome(e, c, d).nodes[1], e, c) && !Owns(Lost(e, c, d).nodes[1], e, c);
  }

  lemma ChainRuns(ws: seq<World>, steps: seq<Step>, i: nat)
    requires |ws| == |steps| + 1 && i <= |steps|
    requires forall j :: 0 <= j < |steps| ==> Goes(ws[j], steps[j], ws[j + 1])
    ensures AllowedRun(ws[i], steps[i..]) && AllowedAfter(ws[i], steps[i..]) == ws[|steps|]
    decreases |steps| - i
  {
    if i < |steps| {
      ChainRuns(ws, steps, i + 1);
      assert steps[i..][1..] == steps[i + 1..];
    }
  }
}
