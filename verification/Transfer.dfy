/** Transfers of authority between containers, over any number of peers.

    A transfer sends a take order to every subscriber of the target container and a drop order to
    every subscriber of the source.  Orders arrive in any order, a drop fires at any time after it
    arrived, and each peer's engine performs its queued tasks whenever it likes.  Which peer
    subscribes to which container does not change during a run. */
module Transfer {
  import opened Options
  import opened Peer

  datatype Order = Order(id: Eid, move: Move)

  /** One peer with the take orders it has not received and the drop orders that have not fired. */
  datatype Node = Node(peer: State, takes: multiset<Order>, drops: multiset<Order>)

  /** Where an entity is: registered by its creator, or sent from one container to another. */
  datatype Phase = Spawned(c: Cid) | Moved(from: Cid, to: Cid)

  datatype World = World(nodes: seq<Node>, phase: map<Eid, Phase>)

  datatype Step =
    | Spawn(p: nat, id: Eid, c: Cid)
    | Start(p: nat, id: Eid, to: Cid, ignoreNoMove: bool)
    | TakeArrives(p: nat, order: Order)
    | DropFires(p: nat, order: Order)
    | EngineRuns(p: nat)

  ghost predicate QuietAt(n: Node, e: Eid) {
    (forall m: Move :: Order(e, m) !in n.takes && Order(e, m) !in n.drops) && TasksOf(n.peer.engine, e) == []
  }

  /** No order about the entity is under way and no task about it is queued, on any peer. */
  ghost predicate Quiet(w: World, e: Eid) {
    forall p :: 0 <= p < |w.nodes| ==> QuietAt(w.nodes[p], e)
  }

  /** A server may call for a transfer whenever it wants. */
  ghost predicate Allowed(w: World, s: Step) {
    && (s.Spawn? || s.Start? || s.TakeArrives? || s.DropFires? || s.EngineRuns?)
    && s.p < |w.nodes|
    && var n := w.nodes[s.p];
    match s
    case Spawn(_, e, c) => n.peer.server && e !in w.phase && c in n.peer.containers
    case Start(_, e, to, ignore) => n.peer.server
    case TakeArrives(_, o) => o in n.takes
    case DropFires(_, o) => o in n.drops
    case EngineRuns(_) => n.peer.engine != []
  }

  /** The one hypothesis: a call which has an effect is not made while an earlier transfer of that entity
      is still under way. */
  ghost predicate Enabled(w: World, s: Step) {
    Allowed(w, s) &&
    (s.Start? && Transferable(w.nodes[s.p].peer, s.id, s.to, s.ignoreNoMove) ==> Quiet(w, s.id))
  }

  function Receive(n: Node, o: Order): Node {
    Node(n.peer,
         if o.move.to in n.peer.containers then n.takes + multiset{o} else n.takes,
         if o.move.from != o.move.to && o.move.from in n.peer.containers then n.drops + multiset{o} else n.drops)
  }

  /** Sent to all subscribers; a drop order whose two containers are the same is ignored. */
  function Broadcast(nodes: seq<Node>, o: Order): seq<Node> {
    seq(|nodes|, i requires 0 <= i < |nodes| => Receive(nodes[i], o))
  }

  function SetPeer(w: World, p: nat, n: Node): World
    requires p < |w.nodes|
  {
    w.(nodes := w.nodes[p := n])
  }

  ghost function Execute(w: World, s: Step): World
    requires Allowed(w, s)
  {
    var n := w.nodes[s.p];
    match s
    case Spawn(p, e, c) =>
      SetPeer(w, p, n.(peer := n.peer.(entities := n.peer.entities[e := Entity(c, false, true)])))
      .(phase := w.phase[e := Spawned(c)])
    case Start(p, e, to, ignore) =>
      var (peer, order) := Transfer(n.peer, e, to, ignore);
      if order.None? then w
      else World(Broadcast(w.nodes[p := n.(peer := peer)], Order(e, order.value)),
                 w.phase[e := Moved(order.value.from, order.value.to)])
    case TakeArrives(p, o) =>
      SetPeer(w, p, AfterTake(n, o))
    case DropFires(p, o) =>
      SetPeer(w, p, AfterDrop(n, o))
    case EngineRuns(p) =>
      SetPeer(w, p, AfterTask(n))
  }

  /** Peers with their subscriptions, nothing registered and nothing under way. */
  ghost predicate Initial(w: World) {
    w.phase == map[] && forall p :: 0 <= p < |w.nodes| ==>
      var n := w.nodes[p];
      && n.takes == n.drops == multiset{} && n.peer.engine == [] && n.peer.entities == map[]
      && forall c :: c in n.peer.containers ==> n.peer.containers[c].owned == {}
  }

  ghost predicate Possible(start: World, steps: seq<Step>)
    decreases |steps|, 0
  {
    steps == [] || (Possible(start, steps[..|steps| - 1]) &&
                    Enabled(After(start, steps[..|steps| - 1]), steps[|steps| - 1]))
  }

  ghost function After(start: World, steps: seq<Step>): World
    requires Possible(start, steps)
    decreases |steps|, 1
  {
    if steps == [] then start
    else Execute(After(start, steps[..|steps| - 1]), steps[|steps| - 1])
  }

  // ---------- what holds at one peer for one entity ----------

  ghost predicate Owns(n: Node, e: Eid, c: Cid) {
    c in n.peer.containers && e in n.peer.containers[c].owned
  }

  ghost predicate IndexedNowhere(n: Node, e: Eid) {
    forall c :: !Owns(n, e, c)
  }

  /** At most the one order given is pending for e, and at most once. */
  ghost predicate AtMost(bag: multiset<Order>, o: Order) {
    forall m: Move :: bag[Order(o.id, m)] == if m == o.move && o in bag then 1 else 0
  }

  ghost predicate BlankAt(n: Node, e: Eid) {
    QuietAt(n, e) && e !in n.peer.entities && IndexedNowhere(n, e)
  }

  /** Nothing under way; whoever holds the entity agrees on c. */
  ghost predicate PlacedAt(n: Node, e: Eid, c: Cid) {
    && QuietAt(n, e)
    && (e in n.peer.entities ==> c in n.peer.containers && n.peer.entities[e] == Entity(c, false, true))
    && (forall x :: Owns(n, e, x) ==> x == c && e in n.peer.entities && n.peer.server)
  }

  ghost predicate MovingAt(n: Node, e: Eid, c: Cid, d: Cid) {
    var s, o := n.peer, Order(e, Move(c, d));
    var held, tasks := e in s.entities, TasksOf(s.engine, e);
    && AtMost(n.takes, o) && AtMost(n.drops, o)
    && (o in n.drops ==> c in s.containers && c != d)
    && if d in s.containers then
         if o in n.takes then  // take not yet here
           && tasks == []
           && (held ==> c in s.containers && s.entities[e].owner == c && s.entities[e].isValid)
           && (forall x :: Owns(n, e, x) ==> x == c && held && s.server && (o in n.drops || c == d))
         else                  // taken over
           && tasks == (if held then [] else [Instantiate(e, d)])
           && (held ==> s.entities[e] == Entity(d, false, true))
           && (s.server ==> Owns(n, e, d))
           && (forall x :: Owns(n, e, x) ==> s.server && (x == d || (x == c && held && o in n.drops)))
       else
         && o !in n.takes
         && if o in n.drops then  // still here
              && tasks == []
              && (held ==> s.entities[e].owner == c && s.entities[e].isValid)
              && (forall x :: Owns(n, e, x) ==> x == c && held && s.server)
            else                  // on its way out, or gone
              && tasks == (if held then [Delete(e)] else [])
              && (held ==> !s.entities[e].isValid)
              && IndexedNowhere(n, e)
  }

  ghost predicate InvAt(n: Node, e: Eid, phase: map<Eid, Phase>) {
    if e !in phase then BlankAt(n, e)
    else match phase[e]
      case Spawned(c) => PlacedAt(n, e, c)
      case Moved(c, d) => MovingAt(n, e, c, d)
  }

  ghost predicate Inv(w: World) {
    forall p, e :: 0 <= p < |w.nodes| ==> InvAt(w.nodes[p], e, w.phase)
  }

  // ---------- each step, at the peer and entity it is about ----------

  function AfterTake(n: Node, o: Order): Node {
    n.(peer := Take(n.peer, o.id, o.move.to), takes := n.takes - multiset{o})
  }

  function AfterDrop(n: Node, o: Order): Node {
    n.(peer := Drop(n.peer, o.id, o.move), drops := n.drops - multiset{o})
  }

  function AfterTask(n: Node): Node
    requires n.peer.engine != []
  {
    n.(peer := RunTask(n.peer))
  }

  function AfterStart(n: Node, o: Order, initiator: bool): Node
    requires initiator ==> o.id in n.peer.entities
  {
    var e := o.id;
    var es := if initiator then n.peer.entities[e := n.peer.entities[e].(quarantine := true)] else n.peer.entities;
    Receive(n.(peer := n.peer.(entities := es)), o)
  }

  lemma TakeMoves(n: Node, e: Eid, c: Cid, d: Cid)
    requires MovingAt(n, e, c, d) && Order(e, Move(c, d)) in n.takes
    ensures MovingAt(AfterTake(n, Order(e, Move(c, d))), e, c, d)
  {
    var v := AfterTake(n, Order(e, Move(c, d)));
    TasksOfAppend(n.peer.engine, Instantiate(e, d), e);
    assert forall x :: Owns(v, e, x) <==> Owns(n, e, x) || (x == d && n.peer.server);
  }

  lemma DropMoves(n: Node, e: Eid, c: Cid, d: Cid)
    requires MovingAt(n, e, c, d) && Order(e, Move(c, d)) in n.drops
    ensures MovingAt(AfterDrop(n, Order(e, Move(c, d))), e, c, d)
  {
    var v := AfterDrop(n, Order(e, Move(c, d)));
    TasksOfAppend(n.peer.engine, Delete(e), e);
    assert forall x :: Owns(v, e, x) <==> Owns(n, e, x) && !(x == c && e in n.peer.entities && n.peer.server);
  }

  lemma TaskMoves(n: Node, e: Eid, c: Cid, d: Cid)
    requires MovingAt(n, e, c, d) && n.peer.engine != [] && n.peer.engine[0].id == e
    ensures MovingAt(AfterTask(n), e, c, d) && !Throws(n.peer, n.peer.engine[0])
  {
    var v := AfterTask(n);
    assert forall x :: Owns(v, e, x) <==> Owns(n, e, x);
    assert TasksOf(n.peer.engine, e)[1..] == TasksOf(v.peer.engine, e);
    assert TasksOf(n.peer.engine, e)[0] == n.peer.engine[0];
  }

  /** A transfer about to start finds every peer in agreement on the source container. */
  lemma StartMoves(n: Node, e: Eid, c: Cid, d: Cid, initiator: bool)
    requires PlacedAt(n, e, c) && (initiator ==> e in n.peer.entities)
    ensures MovingAt(AfterStart(n, Order(e, Move(c, d)), initiator), e, c, d)
  {
    var v := AfterStart(n, Order(e, Move(c, d)), initiator);
    assert forall x :: Owns(v, e, x) <==> Owns(n, e, x);
  }

  lemma QuietMovedIsPlaced(n: Node, e: Eid, c: Cid, d: Cid)
    requires MovingAt(n, e, c, d) && QuietAt(n, e)
    ensures PlacedAt(n, e, d) && (e in n.peer.entities <==> d in n.peer.containers)
    ensures n.peer.server && d in n.peer.containers ==> Owns(n, e, d)
  {
    assert Order(e, Move(c, d)) !in n.takes && Order(e, Move(c, d)) !in n.drops;
  }

  // ---------- other peers, other entities ----------

  /** v differs from n in nothing that concerns e. */
  ghost predicate SameFor(n: Node, v: Node, e: Eid) {
    && v.peer.server == n.peer.server && v.peer.containers.Keys == n.peer.containers.Keys
    && (e in v.peer.entities <==> e in n.peer.entities)
    && (e in n.peer.entities ==> v.peer.entities[e] == n.peer.entities[e])
    && TasksOf(v.peer.engine, e) == TasksOf(n.peer.engine, e)
    && (forall x :: Owns(v, e, x) <==> Owns(n, e, x))
    && (forall m: Move :: v.takes[Order(e, m)] == n.takes[Order(e, m)])
    && (forall m: Move :: v.drops[Order(e, m)] == n.drops[Order(e, m)])
  }

  lemma SameForKeepsInv(n: Node, v: Node, e: Eid, phase: map<Eid, Phase>)
    requires SameFor(n, v, e) && InvAt(n, e, phase)
    ensures InvAt(v, e, phase)
  {
    assert forall m: Move :: (Order(e, m) in v.takes <==> Order(e, m) in n.takes) &&
                             (Order(e, m) in v.drops <==> Order(e, m) in n.drops);
  }

  lemma TakeIsLocal(n: Node, o: Order, e: Eid)
    requires e != o.id
    ensures SameFor(n, AfterTake(n, o), e)
  {
    TasksOfAppend(n.peer.engine, Instantiate(o.id, o.move.to), e);
  }

  lemma DropIsLocal(n: Node, o: Order, e: Eid)
    requires e != o.id
    ensures SameFor(n, AfterDrop(n, o), e)
  {
    TasksOfAppend(n.peer.engine, Delete(o.id), e);
  }

  lemma TaskIsLocal(n: Node, e: Eid)
    requires n.peer.engine != [] && n.peer.engine[0].id != e
    ensures SameFor(n, AfterTask(n), e)
  {
  }

  lemma StartIsLocal(n: Node, o: Order, initiator: bool, e: Eid)
    requires e != o.id && (initiator ==> o.id in n.peer.entities)
    ensures SameFor(n, AfterStart(n, o, initiator), e)
  {
  }

  // ---------- every step keeps the invariant ----------

  /** An order under way is the one of the entity's current move. */
  lemma OrderIsCurrent(n: Node, o: Order, phase: map<Eid, Phase>)
    requires InvAt(n, o.id, phase) && (o in n.takes || o in n.drops)
    ensures o.id in phase && phase[o.id] == Moved(o.move.from, o.move.to)
  {
    assert o == Order(o.id, Move(o.move.from, o.move.to));
    if o.id in phase && phase[o.id].Moved? {
      assert n.takes[Order(o.id, o.move)] == n.takes[o] && n.drops[Order(o.id, o.move)] == n.drops[o];
    }
  }

  lemma TakeKeepsInv(w: World, s: Step)
    requires Inv(w) && Enabled(w, s) && s.TakeArrives?
    ensures Inv(Execute(w, s))
  {
    var v, n, o := Execute(w, s), w.nodes[s.p], s.order;
    forall p, e | 0 <= p < |v.nodes| ensures InvAt(v.nodes[p], e, v.phase) {
      assert InvAt(w.nodes[p], e, w.phase) && InvAt(n, o.id, w.phase);
      if p == s.p {
        OrderIsCurrent(n, o, w.phase);
        if e == o.id {
          TakeMoves(n, e, o.move.from, o.move.to);
        } else {
          TakeIsLocal(n, o, e);
          SameForKeepsInv(n, v.nodes[p], e, w.phase);
        }
      }
    }
  }

  lemma DropKeepsInv(w: World, s: Step)
    requires Inv(w) && Enabled(w, s) && s.DropFires?
    ensures Inv(Execute(w, s))
  {
    var v, n, o := Execute(w, s), w.nodes[s.p], s.order;
    forall p, e | 0 <= p < |v.nodes| ensures InvAt(v.nodes[p], e, v.phase) {
      assert InvAt(w.nodes[p], e, w.phase) && InvAt(n, o.id, w.phase);
      if p == s.p {
        OrderIsCurrent(n, o, w.phase);
        if e == o.id {
          DropMoves(n, e, o.move.from, o.move.to);
        } else {
          DropIsLocal(n, o, e);
          SameForKeepsInv(n, v.nodes[p], e, w.phase);
        }
      }
    }
  }

  /** The entity of a queued task is on the move. */
  lemma TaskIsCurrent(n: Node, phase: map<Eid, Phase>)
    requires n.peer.engine != [] && InvAt(n, n.peer.engine[0].id, phase)
    ensures n.peer.engine[0].id in phase && phase[n.peer.engine[0].id].Moved?
  {
    assert TasksOf(n.peer.engine, n.peer.engine[0].id) != [];
  }

  lemma TaskKeepsInv(w: World, s: Step)
    requires Inv(w) && Enabled(w, s) && s.EngineRuns?
    ensures Inv(Execute(w, s)) && !Throws(w.nodes[s.p].peer, w.nodes[s.p].peer.engine[0])
  {
    var v, n := Execute(w, s), w.nodes[s.p];
    var t := n.peer.engine[0];
    assert InvAt(n, t.id, w.phase);
    TaskIsCurrent(n, w.phase);
    TaskMoves(n, t.id, w.phase[t.id].from, w.phase[t.id].to);
    forall p, e | 0 <= p < |v.nodes| ensures InvAt(v.nodes[p], e, v.phase) {
      assert InvAt(w.nodes[p], e, w.phase);
      if p == s.p && e != t.id {
        TaskIsLocal(n, e);
        SameForKeepsInv(n, v.nodes[p], e, w.phase);
      }
    }
  }

  /** Where an entity is when nothing is under way for it. */
  function Location(ph: Phase): Cid {
    match ph case Spawned(c) => c case Moved(_, d) => d
  }

  lemma QuietIsPlaced(n: Node, e: Eid, phase: map<Eid, Phase>)
    requires InvAt(n, e, phase) && e in phase && QuietAt(n, e)
    ensures PlacedAt(n, e, Location(phase[e]))
  {
    match phase[e]
    case Spawned(_) =>
    case Moved(c, d) => QuietMovedIsPlaced(n, e, c, d);
  }

  lemma StartAtNode(m: Node, o: Order, initiator: bool, x: Eid, before: map<Eid, Phase>, after: map<Eid, Phase>)
    requires InvAt(m, x, before) && after == before[o.id := Moved(o.move.from, o.move.to)]
    requires PlacedAt(m, o.id, o.move.from) && (initiator ==> o.id in m.peer.entities)
    ensures InvAt(AfterStart(m, o, initiator), x, after)
  {
    if x == o.id {
      StartMoves(m, x, o.move.from, o.move.to, initiator);
    } else {
      StartIsLocal(m, o, initiator, x);
      SameForKeepsInv(m, AfterStart(m, o, initiator), x, after);
    }
  }

  lemma StartKeepsInv(w: World, s: Step)
    requires Inv(w) && Enabled(w, s) && s.Start?
    ensures Inv(Execute(w, s))
  {
    var v, n, e := Execute(w, s), w.nodes[s.p], s.id;
    if Transferable(n.peer, e, s.to, s.ignoreNoMove) {
      assert InvAt(n, e, w.phase) && QuietAt(n, e);
      QuietIsPlaced(n, e, w.phase);
      var o := Order(e, Move(n.peer.entities[e].owner, s.to));
      forall p, x | 0 <= p < |v.nodes| ensures InvAt(v.nodes[p], x, v.phase) {
        var m := w.nodes[p];
        assert InvAt(m, x, w.phase) && InvAt(m, e, w.phase) && QuietAt(m, e);
        QuietIsPlaced(m, e, w.phase);
        StartAtNode(m, o, p == s.p, x, w.phase, v.phase);
      }
    }
  }

  lemma SpawnKeepsInv(w: World, s: Step)
    requires Inv(w) && Enabled(w, s) && s.Spawn?
    ensures Inv(Execute(w, s))
  {
    var v := Execute(w, s);
    forall p, e | 0 <= p < |v.nodes| ensures InvAt(v.nodes[p], e, v.phase) {
      assert InvAt(w.nodes[p], e, w.phase);
      assert forall x :: Owns(v.nodes[p], e, x) <==> Owns(w.nodes[p], e, x);
      if e != s.id {
        SameForKeepsInv(w.nodes[p], v.nodes[p], e, v.phase);
      }
    }
  }

  lemma {:induction false} RunKeepsInv(start: World, steps: seq<Step>)
    requires Initial(start) && Possible(start, steps)
    ensures Inv(After(start, steps))
  {
    if steps != [] {
      RunKeepsInv(start, steps[..|steps| - 1]);
      var w, s := After(start, steps[..|steps| - 1]), steps[|steps| - 1];
      match s
      case Spawn(_, _, _) => SpawnKeepsInv(w, s);
      case Start(_, _, _, _) => StartKeepsInv(w, s);
      case TakeArrives(_, _) => TakeKeepsInv(w, s);
      case DropFires(_, _) => DropKeepsInv(w, s);
      case EngineRuns(_) => TaskKeepsInv(w, s);
    }
  }

  // ---------- main results ----------

  /** The holders of e are exactly d's subscribers; all have it under d, valid and unquarantined; and on
      servers e is in the index of d and of no other container. */
  ghost predicate Settled(w: World, e: Eid, d: Cid) {
    forall p :: 0 <= p < |w.nodes| ==> SettledAt(w.nodes[p], e, d)
  }

  ghost predicate SettledAt(n: Node, e: Eid, d: Cid) {
    && (e in n.peer.entities <==> d in n.peer.containers)
    && (e in n.peer.entities ==> n.peer.entities[e] == Entity(d, false, true))
    && (forall c :: Owns(n, e, c) <==> c == d && n.peer.server && c in n.peer.containers)
  }

  /** After any run of transfers that do not overlap per entity, in any interleaving and over any
      number of peers, an entity for which nothing is under way is settled on the target of its last
      transfer. */
  lemma TransfersConverge(start: World, steps: seq<Step>, e: Eid)
    requires Initial(start) && Possible(start, steps)
    requires var w := After(start, steps); e in w.phase && w.phase[e].Moved? && Quiet(w, e)
    ensures var w := After(start, steps); Settled(w, e, w.phase[e].to)
  {
    RunKeepsInv(start, steps);
    var w := After(start, steps);
    forall p | 0 <= p < |w.nodes| ensures SettledAt(w.nodes[p], e, w.phase[e].to) {
      assert InvAt(w.nodes[p], e, w.phase) && QuietAt(w.nodes[p], e);
      QuietMovedIsPlaced(w.nodes[p], e, w.phase[e].from, w.phase[e].to);
    }
  }

  /** And no engine task of such a run ever throws. */
  lemma EngineNeverThrows(start: World, steps: seq<Step>)
    requires Initial(start) && Possible(start, steps) && steps != [] && steps[|steps| - 1].EngineRuns?
    ensures var n := After(start, steps[..|steps| - 1]).nodes[steps[|steps| - 1].p];
      !Throws(n.peer, n.peer.engine[0])
  {
    RunKeepsInv(start, steps[..|steps| - 1]);
    TaskKeepsInv(After(start, steps[..|steps| - 1]), steps[|steps| - 1]);
  }

  // ---------- everything under way comes to an end ----------

  ghost predicate Delivery(s: Step) {
    s.TakeArrives? || s.DropFires? || s.EngineRuns?
  }

  /** An order can still queue one task. */
  function NodeWork(n: Node): nat {
    2 * |n.takes| + 2 * |n.drops| + |n.peer.engine|
  }

  function Work(nodes: seq<Node>): nat {
    if nodes == [] then 0 else NodeWork(nodes[0]) + Work(nodes[1..])
  }

  lemma {:induction false} WorkOfUpdate(nodes: seq<Node>, p: nat, n: Node)
    requires p < |nodes|
    ensures Work(nodes[p := n]) == Work(nodes) - NodeWork(nodes[p]) + NodeWork(n)
  {
    if p > 0 {
      assert nodes[p := n][1..] == nodes[1..][p - 1 := n];
      WorkOfUpdate(nodes[1..], p - 1, n);
    } else {
      assert nodes[p := n][1..] == nodes[1..];
    }
  }

  /** Deliveries alone, from any world, number at most the work left in it. */
  lemma {:induction false} DeliveriesEnd(w: World, steps: seq<Step>)
    requires Possible(w, steps) && forall s :: s in steps ==> Delivery(s)
    ensures |steps| + Work(After(w, steps).nodes) <= Work(w.nodes)
  {
    hide Work, Perform, Take, Drop, RunTask;
    if steps != [] {
      var before, s := After(w, steps[..|steps| - 1]), steps[|steps| - 1];
      DeliveriesEnd(w, steps[..|steps| - 1]);
      assert s in steps;
      DeliveryWorks(before, s);
    }
  }

  datatype Local = LocalTake(order: Order) | LocalDrop(order: Order) | LocalTask

  predicate LocalEnabled(n: Node, s: Local) {
    match s
    case LocalTake(o) => o in n.takes
    case LocalDrop(o) => o in n.drops
    case LocalTask => n.peer.engine != []
  }

  function LocalStep(n: Node, s: Local): Node
    requires LocalEnabled(n, s)
  {
    match s
    case LocalTake(o) => AfterTake(n, o)
    case LocalDrop(o) => AfterDrop(n, o)
    case LocalTask => AfterTask(n)
  }

  /** A step that delivers an order or runs a task leaves less to do. */
  lemma StepWorks(n: Node, s: Local)
    requires LocalEnabled(n, s)
    ensures var v := LocalStep(n, s);
      && NodeWork(v) < NodeWork(n)
      && v.peer.server == n.peer.server && v.peer.containers.Keys == n.peer.containers.Keys
      && (s.LocalTake? ==> v.takes == n.takes - multiset{s.order} && v.drops == n.drops)
      && (s.LocalDrop? ==> v.drops == n.drops - multiset{s.order} && v.takes == n.takes)
      && (s.LocalTask? ==> v.takes == n.takes && v.drops == n.drops)
  {
    match s
    case LocalTake(o) =>
      OneLess(n.takes, o);
      hide RunTask, Drop;
    case LocalDrop(o) =>
      OneLess(n.drops, o);
      hide RunTask, Take;
    case LocalTask =>
      hide Take, Drop;
  }

  lemma OneLess(bag: multiset<Order>, o: Order)
    requires o in bag
    ensures |bag - multiset{o}| == |bag| - 1
  {
  }

  lemma DeliveryWorks(w: World, s: Step)
    requires Enabled(w, s) && Delivery(s)
    ensures Work(Execute(w, s).nodes) < Work(w.nodes)
  {
    var local := if s.TakeArrives? then LocalTake(s.order) else if s.DropFires? then LocalDrop(s.order) else LocalTask;
    StepWorks(w.nodes[s.p], local);
    hide AfterTake, AfterDrop, AfterTask, NodeWork, Work;
    WorkOfUpdate(w.nodes, s.p, LocalStep(w.nodes[s.p], local));
  }

  ghost predicate Stuck(w: World) {
    forall s :: Delivery(s) ==> !Enabled(w, s)
  }

  lemma StuckIsQuiet(w: World, e: Eid)
    requires Stuck(w)
    ensures Quiet(w, e)
  {
    forall p | 0 <= p < |w.nodes| ensures QuietAt(w.nodes[p], e) {
      assert !Enabled(w, EngineRuns(p));
      forall m: Move ensures Order(e, m) !in w.nodes[p].takes && Order(e, m) !in w.nodes[p].drops {
        assert !Enabled(w, TakeArrives(p, Order(e, m))) && !Enabled(w, DropFires(p, Order(e, m)));
      }
    }
  }

  /** So wherever a run stands, letting what is under way be delivered, in any order, ends after
      boundedly many steps, with every entity ever transferred settled on its last target. */
  lemma DeliveryAlwaysSettles(start: World, steps: seq<Step>, more: seq<Step>, e: Eid)
    requires Initial(start) && Possible(start, steps) && e in After(start, steps).phase
    requires Possible(After(start, steps), more) && forall s :: s in more ==> Delivery(s)
    ensures |more| <= Work(After(start, steps).nodes)
    ensures Stuck(After(After(start, steps), more)) && After(start, steps).phase[e].Moved? ==>
      Settled(After(After(start, steps), more), e, After(start, steps).phase[e].to)
  {
    var w := After(start, steps);
    DeliveriesEnd(w, more);
    RunContinues(start, steps, more);
    DeliveryKeepsPhase(w, more);
    if Stuck(After(w, more)) && w.phase[e].Moved? {
      StuckIsQuiet(After(w, more), e);
      TransfersConverge(start, steps + more, e);
    }
  }

  lemma {:induction false} RunContinues(start: World, steps: seq<Step>, more: seq<Step>)
    requires Possible(start, steps) && Possible(After(start, steps), more)
    ensures Possible(start, steps + more) && After(start, steps + more) == After(After(start, steps), more)
  {
    if more == [] {
      assert steps + more == steps;
    } else {
      RunContinues(start, steps, more[..|more| - 1]);
      assert (steps + more)[..|steps + more| - 1] == steps + more[..|more| - 1];
    }
  }

  lemma {:induction false} DeliveryKeepsPhase(w: World, more: seq<Step>)
    requires Possible(w, more) && forall s :: s in more ==> Delivery(s)
    ensures After(w, more).phase == w.phase
  {
    if more != [] {
      DeliveryKeepsPhase(w, more[..|more| - 1]);
      assert more[|more| - 1] in more;
    }
  }
}
