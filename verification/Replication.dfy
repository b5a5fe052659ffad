/** Replication of entity properties from the peer that owns a container to its replicas.

    The owner writes changed values into a pending table per container; a worker turns that table
    into a packet on the container's stream; a replica applies the packets of its container in order.
    Tables, packets and property sets are all maps from a slot (entity, key) to a value. */
module Replication {
  import opened Maps

  datatype Slot = Slot(eid: string, key: string)

  type Values = map<Slot, string>

  /** What a property snapshot can show: it drops the empty key. */
  function Visible(v: Values): Values {
    v - (set s | s in v && s.key == "")
  }

  /** The container each entity of this peer belongs to. */
  type Home = string -> string

  function Of(v: Values, home: Home, c: string): Values {
    v - (set s | s in v && home(s.eid) != c)
  }

  /** Apply packets left to right: later ones win. */
  function OverlayAll(base: Values, packets: seq<Values>): Values
    decreases |packets|
  {
    if packets == [] then base else OverlayAll(base + packets[0], packets[1..])
  }

  /** A place in a container's stream, and what a peer shows there. */
  datatype Replica = Replica(container: string, values: Values, seen: nat)

  /** The owner's answer to a joining peer.  Its loop looks at one entity after the other: `at` is the length of
      the stream when it looked at each, `begun` the length when it began, `todo` the entities with properties
      then; an entity it skips came later.  `place` is the joiner's place in the stream when it installs. */
  datatype Answer =
    | Awaited
    | Listing(snapshot: Values, begun: nat, at: map<string, nat>, todo: set<string>)
    | Sent(snapshot: Values, begun: nat, at: map<string, nat>)
    | Installed(snapshot: Values, begun: nat, at: map<string, nat>, place: nat)

  /** A peer that joined a container.  Its reader attaches to the stream some time after that, at `from`. */
  datatype Joiner = Joiner(container: string, values: Values, attached: bool, from: nat, seen: nat, answer: Answer)

  /** The containers this peer owns are the keys of `pending` and of `log`. */
  datatype World = World(
    owner: Values,
    pending: map<string, Values>,
    log: map<string, seq<Values>>,
    joiners: map<string, Joiner>)

  datatype Step =
    | Update(eid: string, key: string, value: string)
    | Drain(container: string)
    | Join(joiner: string, container: string)
    | Attach(joiner: string, from: nat)
    | BeginAnswer(joiner: string)
    | LookAt(joiner: string, eid: string)
    | SendAnswer(joiner: string)
    | Install(joiner: string)
    | Deliver(joiner: string)
    | Peek(eid: string)

  ghost function Initial(containers: set<string>): World {
    World(map[], Constant(containers, map[]), Constant(containers, []), map[])
  }

  predicate Enabled(w: World, s: Step) {
    match s
    case Update(_, _, _) => true
    case Drain(c) => c in w.pending && c in w.log
    case Join(r, c) => r !in w.joiners && c in w.log
    case Attach(r, from) =>
      && r in w.joiners && !w.joiners[r].attached
      && w.joiners[r].container in w.log && from <= |w.log[w.joiners[r].container]|
    case BeginAnswer(r) => r in w.joiners && w.joiners[r].answer.Awaited? && w.joiners[r].container in w.log
    case LookAt(r, eid) =>
      && r in w.joiners && w.joiners[r].answer.Listing? && eid !in w.joiners[r].answer.at
      && w.joiners[r].container in w.log
    case SendAnswer(r) =>
      && r in w.joiners && w.joiners[r].answer.Listing?
      && w.joiners[r].answer.todo <= w.joiners[r].answer.at.Keys
    case Install(r) => r in w.joiners && w.joiners[r].answer.Sent?
    case Deliver(r) =>
      && r in w.joiners && w.joiners[r].attached
      && w.joiners[r].container in w.log && w.joiners[r].seen < |w.log[w.joiners[r].container]|
    case Peek(_) => true
  }

  /** Only entities of an owned container can be changed here, and only real changes are queued. */
  function DoUpdate(w: World, eid: string, key: string, value: string, home: Home): World {
    var c, s := home(eid), Slot(eid, key);
    if c !in w.pending || (s in w.owner && w.owner[s] == value) then w
    else w.(owner := w.owner[s := value], pending := w.pending[c := w.pending[c][s := value]])
  }

  function DoDrain(w: World, c: string): World
    requires Enabled(w, Drain(c))
  {
    if w.pending[c] == map[] then w
    else w.(pending := w.pending[c := map[]], log := w.log[c := w.log[c] + [w.pending[c]]])
  }

  /** A snapshot of the container as the owner would send it. */
  function Snapshot(w: World, home: Home, c: string): Values {
    Visible(Of(w.owner, home, c))
  }

  function Erase(v: Values, eid: string): Values {
    v - {Slot(eid, "")}
  }

  function EntitiesOf(v: Values): set<string> {
    set s | s in v :: s.eid
  }

  function OfEntity(v: Values, eid: string): Values {
    v - (set s | s in v && (s.eid != eid || s.key == ""))
  }

  /** The loop takes the entities of the container, each with its properties as they are now. */
  function LookedAt(w: World, a: Answer, c: string, eid: string, home: Home): Answer
    requires a.Listing? && c in w.log
  {
    if home(eid) != c then a
    else Listing(a.snapshot + OfEntity(w.owner, eid), a.begun, a.at[eid := |w.log[c]|], a.todo)
  }

  function Attached(x: Joiner, from: nat): Joiner {
    var answer := if x.answer.Installed? then x.answer.(place := from) else x.answer;
    x.(attached := true, from := from, seen := from, answer := answer)
  }

  function Execute(w: World, s: Step, home: Home): World
    requires Enabled(w, s)
  {
    match s
    case Update(eid, key, value) => DoUpdate(w, eid, key, value, home)
    case Drain(c) => DoDrain(w, c)
    case Join(r, c) => w.(joiners := w.joiners[r := Joiner(c, map[], false, 0, 0, Awaited)])
    case Attach(r, from) => w.(joiners := w.joiners[r := Attached(w.joiners[r], from)])
    case BeginAnswer(r) =>
      var x := w.joiners[r];
      var todo := EntitiesOf(Snapshot(w, home, x.container));
      w.(joiners := w.joiners[r := x.(answer := Listing(map[], |w.log[x.container]|, map[], todo))])
    case LookAt(r, eid) =>
      var x := w.joiners[r];
      var answer := LookedAt(w, x.answer, x.container, eid, home);
      w.(owner := if answer == x.answer then w.owner else Erase(w.owner, eid),
         joiners := w.joiners[r := x.(answer := answer)])
    case SendAnswer(r) =>
      var x := w.joiners[r];
      w.(joiners := w.joiners[r := x.(answer := Sent(x.answer.snapshot, x.answer.begun, x.answer.at))])
    case Install(r) =>
      var x := w.joiners[r];
      var a := x.answer;
      w.(joiners := w.joiners[r := x.(values := x.values + a.snapshot,
                                      answer := Installed(a.snapshot, a.begun, a.at, x.seen))])
    case Deliver(r) =>
      var x := w.joiners[r];
      w.(joiners := w.joiners[r := x.(values := x.values + w.log[x.container][x.seen], seen := x.seen + 1)])
    case Peek(eid) => w.(owner := Erase(w.owner, eid))
  }

  ghost predicate Possible(containers: set<string>, steps: seq<Step>, home: Home)
    decreases |steps|, 0
  {
    steps == [] ||
    var n := |steps| - 1;
    Possible(containers, steps[..n], home) && Enabled(After(containers, steps[..n], home), steps[n])
  }

  ghost function After(containers: set<string>, steps: seq<Step>, home: Home): World
    requires Possible(containers, steps, home)
    decreases |steps|, 1
  {
    if steps == [] then Initial(containers)
    else Execute(After(containers, steps[..|steps| - 1], home), steps[|steps| - 1], home)
  }

  // ---------- overlays ----------

  lemma {:induction false} OverlayIsMerge(base: Values, packets: seq<Values>)
    ensures OverlayAll(base, packets) == base + OverlayAll(map[], packets)
    decreases |packets|
  {
    if packets != [] {
      OverlayIsMerge(base + packets[0], packets[1..]);
      OverlayIsMerge(map[] + packets[0], packets[1..]);
      assert map[] + packets[0] == packets[0];
      var rest := OverlayAll(map[], packets[1..]);
      assert (base + packets[0]) + rest == base + (packets[0] + rest);
    }
  }

  lemma {:induction false} OverlaySnoc(base: Values, packets: seq<Values>, last: Values)
    ensures OverlayAll(base, packets + [last]) == OverlayAll(base, packets) + last
    decreases |packets|
  {
    if packets == [] {
      assert (packets + [last])[1..] == [];
    } else {
      assert (packets + [last])[1..] == packets[1..] + [last];
      OverlaySnoc(base + packets[0], packets[1..], last);
    }
  }

  // ---------- the invariant ----------

  /** Everything container c still has to tell a replica at position k of its stream. */
  function Tail(w: World, c: string, k: nat): Values
    requires c in w.log && c in w.pending && k <= |w.log[c]|
  {
    OverlayAll(map[], w.log[c][k..]) + w.pending[c]
  }

  ghost predicate Agrees(small: Values, big: Values) {
    forall s :: s in small ==> s in big && big[s] == small[s]
  }

  ghost predicate StreamInv(w: World, c: string, home: Home)
    requires c in w.log && c in w.pending
  {
    && (forall s :: s in w.pending[c] ==> home(s.eid) == c)
    && (forall i, s :: 0 <= i < |w.log[c]| && s in w.log[c][i] ==> home(s.eid) == c)
    && (forall k :: 0 <= k <= |w.log[c]| ==> Agrees(Visible(Tail(w, c, k)), w.owner))
  }

  /** The replica, once it has heard everything, shows the owner's properties of its container. */
  ghost predicate ReplicaInv(w: World, r: Replica, home: Home) {
    && r.container in w.log && r.container in w.pending && r.seen <= |w.log[r.container]|
    && Visible(r.values + Tail(w, r.container, r.seen)) == Snapshot(w, home, r.container)
  }

  /** The packets of c's stream from place a up to place b, overlaid. */
  function Heard(w: World, c: string, a: nat, b: nat): Values
    requires c in w.log && a <= b <= |w.log[c]|
  {
    OverlayAll(map[], w.log[c][a..b])
  }

  /** What a joiner shows: the packets it heard, over them the snapshot, over that the packets since. */
  ghost predicate Told(w: World, x: Joiner) {
    && x.container in w.log
    && if !x.attached then
         x.values == if x.answer.Installed? then x.answer.snapshot else map[]
       else
         && x.from <= x.seen <= |w.log[x.container]|
         && if x.answer.Installed? then
              && x.from <= x.answer.place <= x.seen
              && x.values == OverlayAll(Joined(w, x), w.log[x.container][x.answer.place..x.seen])
            else
              x.values == Heard(w, x.container, x.from, x.seen)
  }

  /** What it shows right after installing the snapshot. */
  function Joined(w: World, x: Joiner): Values
    requires x.container in w.log && x.answer.Installed? && x.from <= x.answer.place <= |w.log[x.container]|
  {
    Heard(w, x.container, x.from, x.answer.place) + x.answer.snapshot
  }

  ghost predicate SameAt(a: Values, b: Values, s: Slot) {
    (s in a <==> s in b) && (s in a && s in b ==> a[s] == b[s])
  }

  /** ReplicaInv for one slot. */
  ghost predicate ReplicaAt(w: World, r: Replica, home: Home, s: Slot) {
    && r.container in w.log && r.container in w.pending && r.seen <= |w.log[r.container]|
    && (s.key != "" ==> SameAt(r.values + Tail(w, r.container, r.seen), Of(w.owner, home, r.container), s))
  }

  /** How long the stream was when the answer's loop looked at an entity, or began without it. */
  function At(a: Answer, eid: string): nat
    requires !a.Awaited?
  {
    if eid in a.at then a.at[eid] else a.begun
  }

  /** The answer says all there is to say about the entity. */
  predicate Covered(a: Answer, eid: string) {
    a.Sent? || a.Installed? || (a.Listing? && (eid in a.at || eid !in a.todo))
  }

  /** A snapshot alone, at any place up to where it was taken, is correct for every entity covered, and it
      shows every slot sent until then. */
  ghost predicate GoodSnapshot(w: World, c: string, a: Answer, home: Home)
    requires !a.Awaited?
  {
    && c in w.log && a.begun <= |w.log[c]| && (forall e :: e in a.at ==> a.begun <= a.at[e] <= |w.log[c]|)
    && (forall s: Slot, p :: Covered(a, s.eid) && 0 <= p <= At(a, s.eid) ==>
          ReplicaAt(w, Replica(c, a.snapshot, p), home, s))
    && (forall i, s: Slot :: 0 <= i < |w.log[c]| && i < At(a, s.eid) && s in w.log[c][i] && Covered(a, s.eid) ==>
          s.key == "" || s in a.snapshot)
    && (forall s :: s in a.snapshot ==> s.eid in a.at)
  }

  ghost predicate JoinerInv(w: World, x: Joiner, home: Home) {
    && Told(w, x)
    && (!x.answer.Awaited? ==> GoodSnapshot(w, x.container, x.answer, home))
  }

  ghost predicate Inv(w: World, home: Home) {
    && w.pending.Keys == w.log.Keys
    && (forall c :: c in w.log ==> StreamInv(w, c, home))
    && (forall r :: r in w.joiners ==> JoinerInv(w, w.joiners[r], home))
  }

  lemma {:induction false} SlotsOfOverlay(packets: seq<Values>, s: Slot)
    requires s in OverlayAll(map[], packets)
    ensures exists i :: 0 <= i < |packets| && s in packets[i]
  {
    if packets != [] {
      OverlayIsMerge(map[] + packets[0], packets[1..]);
      if s in OverlayAll(map[], packets[1..]) {
        SlotsOfOverlay(packets[1..], s);
        var i :| 0 <= i < |packets[1..]| && s in packets[1..][i];
        assert s in packets[i + 1];
      }
    }
  }

  lemma TailStaysHome(w: World, c: string, k: nat, home: Home)
    requires c in w.log && c in w.pending && k <= |w.log[c]| && StreamInv(w, c, home)
    ensures forall s :: s in Tail(w, c, k) ==> home(s.eid) == c
  {
    forall s | s in OverlayAll(map[], w.log[c][k..]) ensures home(s.eid) == c {
      SlotsOfOverlay(w.log[c][k..], s);
    }
  }

  // ---------- every step keeps it ----------

  /** What an effective update does to every tail and every snapshot: one slot changes. */
  lemma UpdateChangesOneSlot(w: World, eid: string, key: string, value: string, home: Home)
    requires w.pending.Keys == w.log.Keys && DoUpdate(w, eid, key, value, home) != w
    ensures var v, s := DoUpdate(w, eid, key, value, home), Slot(eid, key);
      && (forall d, k :: d in w.log && 0 <= k <= |w.log[d]| ==>
            Tail(v, d, k) == if d == home(eid) then Tail(w, d, k)[s := value] else Tail(w, d, k))
      && (forall d :: Snapshot(v, home, d) ==
            if d == home(eid) && key != "" then Snapshot(w, home, d)[s := value] else Snapshot(w, home, d))
  {
  }

  lemma WriteKeepsAgreement(tail: Values, after: Values, owner: Values, s: Slot, value: string)
    requires Agrees(Visible(tail), owner)
    requires after == tail[s := value] || (after == tail && s !in tail)
    ensures Agrees(Visible(after), owner[s := value])
  {
  }

  lemma UpdateKeepsStream(w: World, eid: string, key: string, value: string, home: Home, d: string)
    requires Inv(w, home) && d in w.log && DoUpdate(w, eid, key, value, home) != w
    ensures StreamInv(DoUpdate(w, eid, key, value, home), d, home)
  {
    var v, s := DoUpdate(w, eid, key, value, home), Slot(eid, key);
    assert StreamInv(w, d, home);
    UpdateChangesOneSlot(w, eid, key, value, home);
    hide Snapshot, Tail, Visible, Agrees;
    forall k | 0 <= k <= |v.log[d]| ensures Agrees(Visible(Tail(v, d, k)), v.owner) {
      TailStaysHome(w, d, k, home);
      assert Agrees(Visible(Tail(w, d, k)), w.owner);
      WriteKeepsAgreement(Tail(w, d, k), Tail(v, d, k), w.owner, s, value);
    }
  }

  lemma UpdateKeepsReplica(w: World, eid: string, key: string, value: string, home: Home, x: Replica)
    requires w.pending.Keys == w.log.Keys && ReplicaInv(w, x, home) && DoUpdate(w, eid, key, value, home) != w
    ensures ReplicaInv(DoUpdate(w, eid, key, value, home), x, home)
  {
    var v, s, c := DoUpdate(w, eid, key, value, home), Slot(eid, key), x.container;
    UpdateChangesOneSlot(w, eid, key, value, home);
    hide DoUpdate, Snapshot, Tail;
    if c == home(eid) {
      VisibleAfterWrite(x.values, Tail(w, c, x.seen), s, value);
    }
  }

  lemma UpdateKeepsAt(w: World, eid: string, key: string, value: string, home: Home, x: Replica, s: Slot)
    requires w.pending.Keys == w.log.Keys && ReplicaAt(w, x, home, s) && DoUpdate(w, eid, key, value, home) != w
    ensures ReplicaAt(DoUpdate(w, eid, key, value, home), x, home, s)
  {
    var v := DoUpdate(w, eid, key, value, home);
    UpdateChangesOneSlot(w, eid, key, value, home);
    assert v.owner == w.owner[Slot(eid, key) := value];
    hide DoUpdate, Snapshot, Tail;
  }

  lemma VisibleAfterWrite(values: Values, tail: Values, s: Slot, value: string)
    ensures Visible(values + tail[s := value]) ==
            if s.key == "" then Visible(values + tail) else Visible(values + tail)[s := value]
  {
  }

  /** Streams that only grow tell a joiner nothing else about its past. */
  lemma ToldSurvives(w: World, v: World, x: Joiner)
    requires Told(w, x) && x.container in v.log && w.log[x.container] <= v.log[x.container]
    ensures Told(v, x)
  {
    var before, after := w.log[x.container], v.log[x.container];
    assert forall a, b :: 0 <= a <= b <= |before| ==> after[a..b] == before[a..b];
  }

  /** A snapshot stays good where the streams only grow and each of its slots stays correct. */
  lemma GoodSurvives(w: World, v: World, c: string, a: Answer, home: Home)
    requires !a.Awaited? && GoodSnapshot(w, c, a, home) && c in v.log && w.log[c] <= v.log[c]
    requires forall s: Slot, p :: Covered(a, s.eid) && 0 <= p <= At(a, s.eid) ==>
      ReplicaAt(v, Replica(c, a.snapshot, p), home, s)
    ensures GoodSnapshot(v, c, a, home)
  {
    hide ReplicaAt;
  }

  lemma UpdateKeepsJoiner(w: World, eid: string, key: string, value: string, home: Home, x: Joiner)
    requires Inv(w, home) && JoinerInv(w, x, home) && DoUpdate(w, eid, key, value, home) != w
    ensures JoinerInv(DoUpdate(w, eid, key, value, home), x, home)
  {
    hide ReplicaAt, StreamInv, Told;
    var v, a := DoUpdate(w, eid, key, value, home), x.answer;
    assert x.container in w.log by {
      TellsContainer(w, x);
    }
    ToldSurvives(w, v, x);
    if !a.Awaited? {
      forall s: Slot, p | Covered(a, s.eid) && 0 <= p <= At(a, s.eid)
        ensures ReplicaAt(v, Replica(x.container, a.snapshot, p), home, s)
      {
        UpdateKeepsAt(w, eid, key, value, home, Replica(x.container, a.snapshot, p), s);
      }
      hide DoUpdate;
      GoodSurvives(w, v, x.container, a, home);
    }
  }

  lemma UpdateKeepsInv(w: World, eid: string, key: string, value: string, home: Home)
    requires Inv(w, home)
    ensures Inv(DoUpdate(w, eid, key, value, home), home)
  {
    hide JoinerInv, StreamInv;
    var v := DoUpdate(w, eid, key, value, home);
    if v != w {
      forall d | d in v.log ensures StreamInv(v, d, home) {
        UpdateKeepsStream(w, eid, key, value, home, d);
      }
      forall r | r in v.joiners ensures JoinerInv(v, v.joiners[r], home) {
        UpdateKeepsJoiner(w, eid, key, value, home, w.joiners[r]);
      }
    }
  }

  /** Draining moves the pending table to the end of the log: no tail changes. */
  lemma DrainKeepsTail(w: World, c: string, d: string, k: nat)
    requires w.pending.Keys == w.log.Keys && Enabled(w, Drain(c)) && d in w.log && k <= |w.log[d]|
    ensures Tail(DoDrain(w, c), d, k) == Tail(w, d, k)
  {
    if d == c {
      assert (w.log[c] + [w.pending[c]])[k..] == w.log[c][k..] + [w.pending[c]];
      OverlaySnoc(map[], w.log[c][k..], w.pending[c]);
    }
  }

  lemma DrainKeepsStream(w: World, c: string, d: string, home: Home)
    requires Inv(w, home) && Enabled(w, Drain(c)) && d in w.log
    ensures StreamInv(DoDrain(w, c), d, home)
  {
    var v := DoDrain(w, c);
    assert StreamInv(w, d, home);
    forall k | 0 <= k <= |v.log[d]| ensures Agrees(Visible(Tail(v, d, k)), v.owner) {
      if k <= |w.log[d]| {
        DrainKeepsTail(w, c, d, k);
        assert Agrees(Visible(Tail(w, d, k)), w.owner);
      } else {
        assert v.log[d][k..] == [];
      }
    }
  }

  lemma DrainKeepsAt(w: World, c: string, x: Replica, home: Home, s: Slot)
    requires w.pending.Keys == w.log.Keys && Enabled(w, Drain(c)) && ReplicaAt(w, x, home, s)
    ensures ReplicaAt(DoDrain(w, c), x, home, s)
  {
    DrainKeepsTail(w, c, x.container, x.seen);
    hide Tail;
  }

  lemma DrainKeepsJoiner(w: World, c: string, x: Joiner, home: Home)
    requires Inv(w, home) && Enabled(w, Drain(c)) && JoinerInv(w, x, home)
    ensures JoinerInv(DoDrain(w, c), x, home)
  {
    hide ReplicaAt, StreamInv, Told;
    var v, a := DoDrain(w, c), x.answer;
    assert x.container in w.log by {
      TellsContainer(w, x);
    }
    ToldSurvives(w, v, x);
    if !a.Awaited? {
      forall s: Slot, p | Covered(a, s.eid) && 0 <= p <= At(a, s.eid)
        ensures ReplicaAt(v, Replica(x.container, a.snapshot, p), home, s)
      {
        DrainKeepsAt(w, c, Replica(x.container, a.snapshot, p), home, s);
      }
      hide DoDrain;
      GoodSurvives(w, v, x.container, a, home);
    }
  }

  lemma TellsContainer(w: World, x: Joiner)
    requires Told(w, x)
    ensures x.container in w.log && (x.attached ==> x.seen <= |w.log[x.container]|)
  {
  }

  lemma DrainKeepsInv(w: World, c: string, home: Home)
    requires Inv(w, home) && Enabled(w, Drain(c))
    ensures Inv(DoDrain(w, c), home)
  {
    hide JoinerInv, StreamInv;
    var v := DoDrain(w, c);
    forall d | d in v.log ensures StreamInv(v, d, home) {
      DrainKeepsStream(w, c, d, home);
    }
    forall r | r in v.joiners ensures JoinerInv(v, v.joiners[r], home) {
      DrainKeepsJoiner(w, c, w.joiners[r], home);
    }
  }

  lemma MergeAssoc(a: Values, b: Values, c: Values)
    ensures (a + b) + c == a + (b + c)
  {
  }

  lemma DeliverTells(w: World, x: Joiner)
    requires Told(w, x) && x.attached && x.seen < |w.log[x.container]|
    ensures Told(w, x.(values := x.values + w.log[x.container][x.seen], seen := x.seen + 1))
  {
    var packets := w.log[x.container];
    var start, base := x.from, map[];
    if x.answer.Installed? {
      start, base := x.answer.place, Joined(w, x);
    }
    assert packets[start..x.seen + 1] == packets[start..x.seen] + [packets[x.seen]];
    OverlaySnoc(base, packets[start..x.seen], packets[x.seen]);
  }

  lemma DeliverKeepsInv(w: World, r: string, home: Home)
    requires Inv(w, home) && Enabled(w, Deliver(r))
    ensures Inv(Execute(w, Deliver(r), home), home)
  {
    hide GoodSnapshot, Told;
    DeliverTells(w, w.joiners[r]);
    SameStreams(w, Execute(w, Deliver(r), home), home);
  }

  /** A step that leaves streams and visible owner values alone leaves streams and snapshots correct. */
  lemma SameStreams(w: World, v: World, home: Home)
    requires Inv(w, home)
    requires v.log == w.log && v.pending == w.pending && Visible(v.owner) == Visible(w.owner)
    requires forall q :: q in v.joiners ==> JoinerInv(w, v.joiners[q], home)
    ensures Inv(v, home)
  {
    hide JoinerInv, StreamInv;
    forall d | d in v.log ensures StreamInv(v, d, home) {
      StreamOnly(w, v, d, home);
    }
    forall q | q in v.joiners ensures JoinerInv(v, v.joiners[q], home) {
      JoinerOnly(w, v, v.joiners[q], home);
    }
  }

  lemma JoinerOnly(w: World, v: World, x: Joiner, home: Home)
    requires v.log == w.log && v.pending == w.pending && Visible(v.owner) == Visible(w.owner)
    requires JoinerInv(w, x, home)
    ensures JoinerInv(v, x, home)
  {
    hide ReplicaAt, Told, Visible;
    var a := x.answer;
    assert x.container in w.log by {
      TellsContainer(w, x);
    }
    ToldSurvives(w, v, x);
    if !a.Awaited? {
      forall s: Slot, p | Covered(a, s.eid) && 0 <= p <= At(a, s.eid)
        ensures ReplicaAt(v, Replica(x.container, a.snapshot, p), home, s)
      {
        AtOnly(w, v, Replica(x.container, a.snapshot, p), home, s);
      }
      GoodSurvives(w, v, x.container, a, home);
    }
  }

  lemma AtOnly(w: World, v: World, x: Replica, home: Home, s: Slot)
    requires v.log == w.log && v.pending == w.pending && Visible(v.owner) == Visible(w.owner)
    requires ReplicaAt(w, x, home, s)
    ensures ReplicaAt(v, x, home, s)
  {
    assert s.key != "" ==> (s in Visible(v.owner) <==> s in v.owner) && (s in Visible(w.owner) <==> s in w.owner);
    assert Tail(v, x.container, x.seen) == Tail(w, x.container, x.seen);
  }

  /** StreamInv looks at the owner's visible values, the log and the pending tables only. */
  lemma StreamOnly(w: World, v: World, c: string, home: Home)
    requires c in w.log && c in w.pending && StreamInv(w, c, home)
    requires v.log == w.log && v.pending == w.pending && Visible(v.owner) == Visible(w.owner)
    ensures StreamInv(v, c, home)
  {
    forall k | 0 <= k <= |v.log[c]| ensures Agrees(Visible(Tail(v, c, k)), v.owner) {
      assert Tail(v, c, k) == Tail(w, c, k) && Agrees(Visible(Tail(w, c, k)), w.owner);
      forall s | s in Visible(Tail(v, c, k)) ensures s in v.owner && v.owner[s] == Visible(Tail(v, c, k))[s] {
        assert s in Visible(w.owner);
      }
    }
  }

  /** The owner's snapshot, with any packets already in the stream sent again over it, older than the
      snapshot or not, makes a correct replica. */
  lemma SnapshotIsCorrect(w: World, c: string, from: nat, home: Home)
    requires Inv(w, home) && c in w.log && from <= |w.log[c]|
    ensures ReplicaInv(w, Replica(c, Snapshot(w, home, c), from), home)
  {
    assert StreamInv(w, c, home);
    TailStaysHome(w, c, from, home);
    assert Agrees(Visible(Tail(w, c, from)), w.owner);
    AddingKnownValues(w.owner, Tail(w, c, from), home, c);
  }

  /** It shows every slot the stream has carried so far. */
  lemma SnapshotShowsSent(w: World, c: string, i: nat, s: Slot, home: Home)
    requires c in w.log && c in w.pending && StreamInv(w, c, home) && i < |w.log[c]| && s in w.log[c][i] && s.key != ""
    ensures s in Snapshot(w, home, c)
  {
    SentIsInOverlay(w.log[c], i, s);
    assert w.log[c][0..] == w.log[c];
    assert Agrees(Visible(Tail(w, c, 0)), w.owner);
    assert s in Tail(w, c, 0);
  }

  lemma {:induction false} SentIsInOverlay(packets: seq<Values>, i: nat, s: Slot)
    requires i < |packets| && s in packets[i]
    ensures s in OverlayAll(map[], packets)
    decreases |packets|
  {
    OverlayIsMerge(map[] + packets[0], packets[1..]);
    if i > 0 {
      SentIsInOverlay(packets[1..], i - 1, s);
    }
  }

  /** Looked at now, a slot is correct with any packets already sent over it. */
  lemma LookIsCorrect(w: World, c: string, values: Values, p: nat, home: Home, s: Slot)
    requires Inv(w, home) && c in w.log && p <= |w.log[c]|
    requires s.key != "" ==> SameAt(values, Of(w.owner, home, c), s)
    ensures ReplicaAt(w, Replica(c, values, p), home, s)
  {
    assert StreamInv(w, c, home);
    TailStaysHome(w, c, p, home);
    assert Agrees(Visible(Tail(w, c, p)), w.owner);
    assert s.key != "" && s in Tail(w, c, p) ==> s in Visible(Tail(w, c, p));
  }

  lemma AddingKnownValues(owner: Values, tail: Values, home: Home, c: string)
    requires Agrees(Visible(tail), owner) && forall s :: s in tail ==> home(s.eid) == c
    ensures Visible(Visible(Of(owner, home, c)) + tail) == Visible(Of(owner, home, c))
  {
    forall s | s in Visible(tail) ensures s in Of(owner, home, c) && Of(owner, home, c)[s] == tail[s] {
    }
  }

  lemma BeginIsGood(w: World, x: Joiner, home: Home)
    requires Inv(w, home) && x.container in w.log
    ensures var todo := EntitiesOf(Snapshot(w, home, x.container));
      GoodSnapshot(w, x.container, Listing(map[], |w.log[x.container]|, map[], todo), home)
  {
    var c := x.container;
    var todo := EntitiesOf(Snapshot(w, home, c));
    var a := Listing(map[], |w.log[c]|, map[], todo);
    assert StreamInv(w, c, home);
    hide StreamInv, JoinerInv;
    forall s: Slot, p | Covered(a, s.eid) && 0 <= p <= At(a, s.eid)
      ensures ReplicaAt(w, Replica(c, map[], p), home, s)
    {
      assert s !in Snapshot(w, home, c);
      LookIsCorrect(w, c, map[], p, home, s);
    }
    forall i, s | 0 <= i < |w.log[c]| && s in w.log[c][i] && s.key != "" ensures s.eid in todo {
      SnapshotShowsSent(w, c, i, s, home);
    }
  }

  lemma BeginKeepsInv(w: World, r: string, home: Home)
    requires Inv(w, home) && Enabled(w, BeginAnswer(r))
    ensures Inv(Execute(w, BeginAnswer(r), home), home)
  {
    assert JoinerInv(w, w.joiners[r], home);
    BeginIsGood(w, w.joiners[r], home);
    hide GoodSnapshot;
    SameStreams(w, Execute(w, BeginAnswer(r), home), home);
  }

  lemma LookIsGood(w: World, c: string, a: Answer, eid: string, home: Home)
    requires Inv(w, home) && a.Listing? && GoodSnapshot(w, c, a, home) && eid !in a.at
    ensures GoodSnapshot(w, c, LookedAt(w, a, c, eid, home), home)
  {
    var b := LookedAt(w, a, c, eid, home);
    if home(eid) == c {
      assert StreamInv(w, c, home);
      hide StreamInv, JoinerInv, Inv;
      forall s: Slot, p | Covered(b, s.eid) && 0 <= p <= At(b, s.eid)
        ensures ReplicaAt(w, Replica(c, b.snapshot, p), home, s)
      {
        LookAtSlot(w, c, a, eid, home, s, p);
      }
      forall i, s | 0 <= i < |w.log[c]| && s in w.log[c][i] && Covered(b, s.eid) && i < At(b, s.eid) && s.key != ""
        ensures s in b.snapshot
      {
        if s.eid == eid {
          SnapshotShowsSent(w, c, i, s, home);
        }
      }
    }
  }

  lemma LookAtSlot(w: World, c: string, a: Answer, eid: string, home: Home, s: Slot, p: nat)
    requires Inv(w, home) && a.Listing? && GoodSnapshot(w, c, a, home) && eid !in a.at && home(eid) == c
    requires var b := LookedAt(w, a, c, eid, home); Covered(b, s.eid) && p <= At(b, s.eid)
    ensures ReplicaAt(w, Replica(c, LookedAt(w, a, c, eid, home).snapshot, p), home, s)
  {
    var b := LookedAt(w, a, c, eid, home);
    if s.eid == eid {
      LookIsCorrect(w, c, b.snapshot, p, home, s);
    } else {
      assert ReplicaAt(w, Replica(c, a.snapshot, p), home, s);
      assert SameAt(a.snapshot, b.snapshot, s);
      hide Inv, GoodSnapshot, Tail;
    }
  }

  lemma EraseIsInvisible(v: Values, eid: string)
    ensures Visible(Erase(v, eid)) == Visible(v)
  {
  }

  lemma LookKeepsInv(w: World, r: string, eid: string, home: Home)
    requires Inv(w, home) && Enabled(w, LookAt(r, eid))
    ensures Inv(Execute(w, LookAt(r, eid), home), home)
  {
    var v, x := Execute(w, LookAt(r, eid), home), w.joiners[r];
    assert JoinerInv(w, x, home);
    LookIsGood(w, x.container, x.answer, eid, home);
    EraseIsInvisible(w.owner, eid);
    hide GoodSnapshot, Visible, LookedAt, Erase;
    SameStreams(w, v, home);
  }

  lemma SendKeepsInv(w: World, r: string, home: Home)
    requires Inv(w, home) && Enabled(w, SendAnswer(r))
    ensures Inv(Execute(w, SendAnswer(r), home), home)
  {
    var v, x := Execute(w, SendAnswer(r), home), w.joiners[r];
    assert JoinerInv(w, x, home);
    SentIsGood(w, x.container, x.answer, v.joiners[r].answer, home);
    hide GoodSnapshot;
    SameStreams(w, v, home);
  }

  /** The same snapshot, with every entity covered. */
  lemma SentIsGood(w: World, c: string, a: Answer, b: Answer, home: Home)
    requires !a.Awaited? && !b.Awaited? && GoodSnapshot(w, c, a, home)
    requires b.snapshot == a.snapshot && b.begun == a.begun && b.at == a.at && forall e :: Covered(a, e)
    ensures GoodSnapshot(w, c, b, home)
  {
    hide ReplicaAt;
  }

  lemma InstallKeepsInv(w: World, r: string, home: Home)
    requires Inv(w, home) && Enabled(w, Install(r))
    ensures Inv(Execute(w, Install(r), home), home)
  {
    var v, x := Execute(w, Install(r), home), w.joiners[r];
    assert JoinerInv(w, x, home);
    if x.attached {
      assert w.log[x.container][x.seen..x.seen] == [];
    }
    SentIsGood(w, x.container, x.answer, v.joiners[r].answer, home);
    hide GoodSnapshot;
    SameStreams(w, v, home);
  }

  lemma AttachKeepsInv(w: World, r: string, from: nat, home: Home)
    requires Inv(w, home) && Enabled(w, Attach(r, from))
    ensures Inv(Execute(w, Attach(r, from), home), home)
  {
    var v, x := Execute(w, Attach(r, from), home), w.joiners[r];
    assert JoinerInv(w, x, home);
    assert w.log[x.container][from..from] == [];
    if x.answer.Installed? {
      SentIsGood(w, x.container, x.answer, v.joiners[r].answer, home);
    }
    hide GoodSnapshot;
    SameStreams(w, v, home);
  }

  lemma PeekKeepsInv(w: World, eid: string, home: Home)
    requires Inv(w, home)
    ensures Inv(Execute(w, Peek(eid), home), home)
  {
    var v := Execute(w, Peek(eid), home);
    assert Visible(v.owner) == Visible(w.owner);
    SameStreams(w, v, home);
  }

  lemma StepKeepsInv(w: World, s: Step, home: Home)
    requires Inv(w, home) && Enabled(w, s)
    ensures Inv(Execute(w, s, home), home)
  {
    match s
    case Update(eid, key, value) => UpdateKeepsInv(w, eid, key, value, home);
    case Drain(c) => DrainKeepsInv(w, c, home);
    case Join(_, _) => SameStreams(w, Execute(w, s, home), home);
    case Attach(r, from) => AttachKeepsInv(w, r, from, home);
    case BeginAnswer(r) => BeginKeepsInv(w, r, home);
    case LookAt(r, eid) => LookKeepsInv(w, r, eid, home);
    case SendAnswer(r) => SendKeepsInv(w, r, home);
    case Install(r) => InstallKeepsInv(w, r, home);
    case Deliver(r) => DeliverKeepsInv(w, r, home);
    case Peek(eid) => PeekKeepsInv(w, eid, home);
  }

  /** In every reachable state, everything a stream still has to tell agrees with the owner, and every
      snapshot, for each entity overlaid by the packets sent since the owner looked at it and then by the
      pending table, shows exactly the owner's properties. */
  lemma {:induction false} RunKeepsInv(containers: set<string>, steps: seq<Step>, home: Home)
    requires Possible(containers, steps, home)
    ensures Inv(After(containers, steps, home), home)
  {
    if steps != [] {
      RunKeepsInv(containers, steps[..|steps| - 1], home);
      hide Inv;
      StepKeepsInv(After(containers, steps[..|steps| - 1], home), steps[|steps| - 1], home);
    }
  }

  // ---------- joining ----------

  lemma OverlayConcat(base: Values, a: seq<Values>, b: seq<Values>)
    ensures OverlayAll(base, a + b) == OverlayAll(OverlayAll(base, a), b)
    decreases |a|
  {
    if a == [] {
      assert a + b == b;
    } else {
      assert (a + b)[1..] == a[1..] + b;
      OverlayConcat(base + a[0], a[1..], b);
    }
  }

  /** Applying the packets from a to b moves them from the tail into what is shown. */
  lemma CatchUp(w: World, c: string, base: Values, a: nat, b: nat)
    requires c in w.log && c in w.pending && a <= b <= |w.log[c]|
    ensures OverlayAll(base, w.log[c][a..b]) + Tail(w, c, b) == base + Tail(w, c, a)
  {
    var first, later := w.log[c][a..b], w.log[c][b..];
    assert w.log[c][a..] == first + later;
    OverlayConcat(map[], first, later);
    OverlayIsMerge(OverlayAll(map[], first), later);
    OverlayIsMerge(base, first);
    Regroup(base, OverlayAll(map[], first), OverlayAll(map[], later), w.pending[c]);
  }

  lemma Regroup(a: Values, b: Values, c: Values, d: Values)
    ensures (a + b) + (c + d) == a + ((b + c) + d)
  {
  }

  /** A snapshot put over packets y, where packets z ought to be over the snapshot. */
  lemma SnapshotOverPackets(snapshot: Values, y: Values, z: Values, tail: Values)
    requires forall s :: s in y && s !in snapshot && s !in tail && s.key != "" ==> s in z && z[s] == y[s]
    ensures Visible((y + snapshot) + tail) == Visible((snapshot + z) + tail) <==>
            forall s :: s in z && s !in tail && s.key != "" ==> s in y + snapshot && (y + snapshot)[s] == z[s]
  {
    var shown, right := Visible((y + snapshot) + tail), Visible((snapshot + z) + tail);
    if s :| s in z && s !in tail && s.key != "" && !(s in y + snapshot && (y + snapshot)[s] == z[s]) {
      assert s in right && right[s] == z[s];
      assert s in shown ==> shown[s] == (y + snapshot)[s];
    } else {
      forall s ensures s in shown <==> s in right
        ensures s in shown && s in right ==> shown[s] == right[s]
      {
      }
    }
  }

  /** The same for one slot. */
  lemma SlotOverPackets(snapshot: Values, y: Values, z: Values, tail: Values, s: Slot)
    requires s in y && s !in snapshot && s !in tail ==> s in z && z[s] == y[s]
    ensures SameAt((y + snapshot) + tail, (snapshot + z) + tail, s) <==>
            (s in z && s !in tail ==> s in y + snapshot && (y + snapshot)[s] == z[s])
  {
  }

  /** What the stream carried between the owner's look at an entity and the joiner's place when the snapshot
      was installed. */
  function Since(w: World, x: Joiner, eid: string): Values
    requires x.container in w.log && x.answer.Installed? && x.answer.place <= |w.log[x.container]|
  {
    if At(x.answer, eid) <= x.answer.place then Heard(w, x.container, At(x.answer, eid), x.answer.place) else map[]
  }

  /** Each value of that entity among them was there when the snapshot had been installed, or its slot is
      written again. */
  ghost predicate NotMissed(w: World, x: Joiner, s: Slot)
    requires x.container in w.log && x.container in w.pending && x.answer.Installed?
    requires x.from <= x.answer.place <= |w.log[x.container]|
  {
    s in Since(w, x, s.eid) && s !in Tail(w, x.container, x.answer.place) ==>
      s in Joined(w, x) && Joined(w, x)[s] == Since(w, x, s.eid)[s]
  }

  ghost predicate NothingMissed(w: World, x: Joiner)
    requires x.container in w.log && x.container in w.pending && x.answer.Installed?
    requires x.from <= x.answer.place <= |w.log[x.container]|
  {
    forall s: Slot :: s.key != "" ==> NotMissed(w, x, s)
  }

  lemma AbsentFromOverlay(packets: seq<Values>, s: Slot)
    requires forall i :: 0 <= i < |packets| ==> s !in packets[i]
    ensures s !in OverlayAll(map[], packets)
  {
    if s in OverlayAll(map[], packets) {
      SlotsOfOverlay(packets, s);
    }
  }

  /** Overlaying more packets at the front changes nothing for a slot that is in none of them, or that a
      later packet writes. */
  lemma FrontDoesNotMatter(front: seq<Values>, later: seq<Values>, s: Slot)
    ensures s in OverlayAll(map[], later) ==>
      s in OverlayAll(map[], front + later) && OverlayAll(map[], front + later)[s] == OverlayAll(map[], later)[s]
    ensures (forall i :: 0 <= i < |front| ==> s !in front[i]) ==>
      (s in OverlayAll(map[], front + later) <==> s in OverlayAll(map[], later))
  {
    OverlayConcat(map[], front, later);
    OverlayIsMerge(OverlayAll(map[], front), later);
    if forall i :: 0 <= i < |front| ==> s !in front[i] {
      AbsentFromOverlay(front, s);
    }
  }

  /** A slot the snapshot does not show was first sent after the owner's look at its entity. */
  lemma NewSlotsCameSince(w: World, x: Joiner, s: Slot, home: Home)
    requires JoinerInv(w, x, home) && x.attached && x.answer.Installed?
    requires var y := Heard(w, x.container, x.from, x.answer.place);
      s in y && s !in x.answer.snapshot && s.key != ""
    ensures var z := Since(w, x, s.eid);
      s in z && z[s] == Heard(w, x.container, x.from, x.answer.place)[s]
  {
    var packets, from, at, place := w.log[x.container], x.from, At(x.answer, s.eid), x.answer.place;
    assert Covered(x.answer, s.eid);
    assert forall i :: 0 <= i < at && i < |packets| ==> s !in packets[i];
    if place < at {
      AbsentFromOverlay(packets[from..place], s);
    } else if from <= at {
      assert packets[from..place] == packets[from..at] + packets[at..place];
      FrontDoesNotMatter(packets[from..at], packets[at..place], s);
    } else {
      assert packets[at..place] == packets[at..from] + packets[from..place];
      FrontDoesNotMatter(packets[at..from], packets[from..place], s);
    }
  }

  /** The snapshot, what was sent since for the slot's entity, and all that is still to come: the owner's
      value. */
  lemma SnapshotAndSince(w: World, x: Joiner, home: Home, s: Slot)
    requires JoinerInv(w, x, home) && x.attached && x.answer.Installed? && s.key != ""
    requires x.container in w.pending
    ensures SameAt((x.answer.snapshot + Since(w, x, s.eid)) + Tail(w, x.container, x.answer.place),
                   Of(w.owner, home, x.container), s)
  {
    var c, snapshot, place, at := x.container, x.answer.snapshot, x.answer.place, At(x.answer, s.eid);
    var base := if at <= place then at else place;
    assert Covered(x.answer, s.eid);
    assert ReplicaAt(w, Replica(c, snapshot, base), home, s);
    assert w.log[c][place..place] == [] && Since(w, x, s.eid) == OverlayAll(map[], w.log[c][base..place]);
    hide JoinerInv, Tail, Since, OverlayAll, Of;
    CatchUp(w, c, snapshot, base, place);
    OverlayIsMerge(snapshot, w.log[c][base..place]);
  }

  lemma JoinerIsCorrectAtIff(w: World, x: Joiner, home: Home, s: Slot)
    requires JoinerInv(w, x, home) && x.attached && x.answer.Installed? && x.container in w.pending
    ensures ReplicaAt(w, Replica(x.container, x.values, x.seen), home, s) <==> (s.key != "" ==> NotMissed(w, x, s))
  {
    var c, snapshot, place := x.container, x.answer.snapshot, x.answer.place;
    var y, tail := Heard(w, c, x.from, place), Tail(w, c, place);
    if s.key != "" {
      CatchUp(w, c, Joined(w, x), place, x.seen);
      SnapshotAndSince(w, x, home, s);
      if s in y && s !in snapshot {
        NewSlotsCameSince(w, x, s, home);
      }
      hide JoinerInv, Tail, Heard, Since;
      SlotOverPackets(snapshot, y, Since(w, x, s.eid), tail, s);
    }
  }

  lemma ReplicaInvIff(w: World, x: Replica, home: Home)
    requires x.container in w.log && x.container in w.pending && x.seen <= |w.log[x.container]|
    ensures ReplicaInv(w, x, home) <==> forall s :: ReplicaAt(w, x, home, s)
  {
    var shown, right := x.values + Tail(w, x.container, x.seen), Of(w.owner, home, x.container);
    assert forall s: Slot :: s.key != "" ==>
      (s in Visible(shown) <==> s in shown) && (s in Visible(right) <==> s in right);
    hide Tail;
    if forall s :: ReplicaAt(w, x, home, s) {
      forall s ensures s in Visible(shown) <==> s in Visible(right)
        ensures s in Visible(shown) ==> Visible(shown)[s] == Visible(right)[s]
      {
        assert ReplicaAt(w, x, home, s);
      }
    }
    if ReplicaInv(w, x, home) {
      forall s ensures ReplicaAt(w, x, home, s) {
        assert s.key != "" ==> (s in Visible(shown) <==> s in Visible(right));
      }
    }
  }

  /** In every reachable state, whenever its reader attached and however late its snapshot came: a joiner
      is a correct replica if and only if it missed nothing sent since the owner looked. */
  lemma JoinerIsCorrectIff(w: World, x: Joiner, home: Home)
    requires Inv(w, home) && JoinerInv(w, x, home) && x.attached && x.answer.Installed?
    ensures ReplicaInv(w, Replica(x.container, x.values, x.seen), home) <==> NothingMissed(w, x)
  {
    var r := Replica(x.container, x.values, x.seen);
    ReplicaInvIff(w, r, home);
    assert NothingMissed(w, x) <==> forall s: Slot :: s.key != "" ==> NotMissed(w, x, s);
    hide ReplicaInv, ReplicaAt, NotMissed, NothingMissed, GoodSnapshot, StreamInv;
    forall s ensures ReplicaAt(w, r, home, s) <==> (s.key != "" ==> NotMissed(w, x, s)) {
      JoinerIsCorrectAtIff(w, x, home, s);
    }
  }

  /** So with nothing pending and nothing in flight, joiner and owner show the same if and only if it missed
      nothing; and it missed nothing if it had not yet read past where the answer began. */
  lemma QuietReplicaEqualsOwnerIff(containers: set<string>, steps: seq<Step>, home: Home, r: string)
    requires Possible(containers, steps, home) && r in After(containers, steps, home).joiners
    requires var w := After(containers, steps, home); var x := w.joiners[r];
      && x.attached && x.answer.Installed?
      && (x.container in w.log ==> x.seen == |w.log[x.container]|)
      && (x.container in w.pending ==> w.pending[x.container] == map[])
    ensures var w := After(containers, steps, home); var x := w.joiners[r];
      && Inv(w, home) && JoinerInv(w, x, home)
      && (Visible(x.values) == Snapshot(w, home, x.container) <==> NothingMissed(w, x))
      && (x.answer.place <= x.answer.begun ==> Visible(x.values) == Snapshot(w, home, x.container))
  {
    RunKeepsInv(containers, steps, home);
    QuietJoiner(After(containers, steps, home), After(containers, steps, home).joiners[r], home);
  }

  lemma QuietMeansShown(w: World, x: Replica, home: Home)
    requires x.container in w.log && x.container in w.pending
    requires x.seen == |w.log[x.container]| && w.pending[x.container] == map[]
    ensures ReplicaInv(w, x, home) <==> Visible(x.values) == Snapshot(w, home, x.container)
  {
    assert w.log[x.container][x.seen..] == [];
    hide Snapshot, Visible;
    assert x.values + Tail(w, x.container, x.seen) == x.values;
  }

  lemma QuietJoiner(w: World, x: Joiner, home: Home)
    requires Inv(w, home) && JoinerInv(w, x, home) && x.attached && x.answer.Installed?
    requires x.container in w.log ==> x.seen == |w.log[x.container]|
    requires x.container in w.pending ==> w.pending[x.container] == map[]
    ensures Visible(x.values) == Snapshot(w, home, x.container) <==> NothingMissed(w, x)
    ensures x.answer.place <= x.answer.begun ==> NothingMissed(w, x)
  {
    JoinerIsCorrectIff(w, x, home);
    NoMissWhenInTime(w, x);
    hide NothingMissed, StreamInv, Joined, ReplicaInv, Snapshot, Visible;
    QuietMeansShown(w, Replica(x.container, x.values, x.seen), home);
  }

  lemma NoMissWhenInTime(w: World, x: Joiner)
    requires x.container in w.log && x.container in w.pending && x.answer.Installed?
    requires x.from <= x.answer.place <= |w.log[x.container]|
    requires forall e :: e in x.answer.at ==> x.answer.begun <= x.answer.at[e]
    ensures x.answer.place <= x.answer.begun ==> NothingMissed(w, x)
  {
    assert w.log[x.container][x.answer.place..x.answer.place] == [];
    if x.answer.place <= x.answer.begun {
      forall s: Slot | s.key != "" ensures NotMissed(w, x, s) {
        assert Since(w, x, s.eid) == map[];
      }
    }
  }

  // ---------- where it stops holding ----------

  /** The empty key is not covered: looking at an entity's properties erases it from the owner alone.
      A replica that agreed on all keys still does so afterwards if and only if there was no such key. */
  lemma PeekKeepsFullAgreementIff(w: World, eid: string, home: Home, x: Replica)
    requires x.container in w.log && x.container in w.pending && x.seen <= |w.log[x.container]|
    requires x.values + Tail(w, x.container, x.seen) == Of(w.owner, home, x.container)
    ensures var v := Execute(w, Peek(eid), home);
      x.values + Tail(v, x.container, x.seen) == Of(v.owner, home, x.container)
      <==> !(home(eid) == x.container && Slot(eid, "") in w.owner)
  {
    var v, s := Execute(w, Peek(eid), home), Slot(eid, "");
    var before, after := Of(w.owner, home, x.container), Of(v.owner, home, x.container);
    assert x.values + Tail(v, x.container, x.seen) == before;
    if home(eid) == x.container && s in w.owner {
      assert s in before && s !in after;
    } else {
      assert after == before;
    }
  }

  /** A container without a writer stream: its fetched table is thrown away. */
  function DropPending(w: World, c: string): World
    requires c in w.pending
  {
    w.(pending := w.pending[c := map[]])
  }

  /** Such a drain leaves a correct replica correct if and only if the stream alone will already bring
      it every value the table held. */
  lemma DropKeepsReplicaIff(w: World, c: string, home: Home, x: Replica)
    requires x.container == c && ReplicaInv(w, x, home)
    ensures ReplicaInv(DropPending(w, c), x, home) <==>
            Agrees(Visible(w.pending[c]), x.values + OverlayAll(map[], w.log[c][x.seen..]))
  {
    var v, stream := DropPending(w, c), OverlayAll(map[], w.log[c][x.seen..]);
    assert Tail(v, c, x.seen) == stream;
    MergeAssoc(x.values, stream, w.pending[c]);
    NothingNewIff(x.values + stream, w.pending[c]);
  }

  lemma NothingNewIff(known: Values, table: Values)
    ensures Visible(known) == Visible(known + table) <==> Agrees(Visible(table), known)
  {
    if s :| s in Visible(table) && !(s in known && known[s] == table[s]) {
      assert s in Visible(known + table) && Visible(known + table)[s] == table[s];
    }
  }

  /** For the owner, who sees no replica: such a drain does no harm to any correct replica if and only if the
      table has nothing to show. */
  lemma DropIsHarmlessIff(w: World, c: string, home: Home)
    requires Inv(w, home) && c in w.log
    ensures Visible(w.pending[c]) == map[] <==>
            forall x: Replica :: x.container == c && ReplicaInv(w, x, home) ==> ReplicaInv(DropPending(w, c), x, home)
  {
    var table := w.pending[c];
    if Visible(table) == map[] {
      hide Inv;
      forall x: Replica | x.container == c && ReplicaInv(w, x, home) ensures ReplicaInv(DropPending(w, c), x, home) {
        DropKeepsReplicaIff(w, c, home, x);
      }
    } else {
      var s :| s in Visible(table);
      var x := MissesPendingSlot(w, c, home, s);
    }
  }

  /** A correct replica that knows everything but one pending slot, and does not without that table. */
  lemma MissesPendingSlot(w: World, c: string, home: Home, s: Slot) returns (x: Replica)
    requires Inv(w, home) && c in w.log && s in Visible(w.pending[c])
    ensures x.container == c && ReplicaInv(w, x, home) && !ReplicaInv(DropPending(w, c), x, home)
  {
    var n, table, all := |w.log[c]|, w.pending[c], Snapshot(w, home, c);
    SnapshotIsCorrect(w, c, n, home);
    hide Inv, Snapshot;
    x := Replica(c, all - {s}, n);
    assert w.log[c][n..] == [] && Tail(w, c, n) == table;
    WithoutPendingSlot(all, table, s);
    DropKeepsReplicaIff(w, c, home, x);
    assert s !in x.values + OverlayAll(map[], w.log[c][n..]);
  }

  lemma WithoutPendingSlot(v: Values, table: Values, s: Slot)
    requires s in table
    ensures (v - {s}) + table == v + table
  {
  }

  /** For example the first value ever written, in a container that has no stream yet, never arrives. */
  lemma UnreadyContainerLosesFirstValue(c: string, eid: string, key: string, value: string)
    requires key != ""
    ensures var home: Home := _ => c;
      var w, x := DoUpdate(Initial({c}), eid, key, value, home), Replica(c, map[], 0);
      ReplicaInv(w, x, home) && !ReplicaInv(DropPending(w, c), x, home)
  {
    var home: Home := _ => c;
    var w, x, s := DoUpdate(Initial({c}), eid, key, value, home), Replica(c, map[], 0), Slot(eid, key);
    UpdateKeepsReplica(Initial({c}), eid, key, value, home, x);
    DropKeepsReplicaIff(w, c, home, x);
    assert s in Visible(w.pending[c]) && s !in x.values + OverlayAll(map[], w.log[c][x.seen..]);
  }

  /** A reader attached in time at `from`, and a snapshot installed over the packets y heard up to k: correct
      if and only if every slot that both carry with different values is written again. */
  lemma LateSnapshotKeepsReplicaIff(w: World, home: Home, c: string, snapshot: Values, from: nat, k: nat)
    requires ReplicaInv(w, Replica(c, snapshot, from), home) && from <= k <= |w.log[c]|
    ensures var y := Heard(w, c, from, k);
      ReplicaInv(w, Replica(c, y + snapshot, k), home) <==>
      forall s :: s in y && s in snapshot && s !in Tail(w, c, k) && s.key != "" ==> y[s] == snapshot[s]
  {
    var y, tail := Heard(w, c, from, k), Tail(w, c, k);
    CatchUp(w, c, map[], from, k);
    assert Tail(w, c, from) == y + tail;
    MergeAssoc(snapshot, y, tail);
    hide Heard, Tail;
    SnapshotOverPackets(snapshot, y, y, tail);
  }

  /** One more step of a run. */
  lemma Next(containers: set<string>, steps: seq<Step>, w: World, s: Step, home: Home)
    returns (more: seq<Step>, v: World)
    requires Possible(containers, steps, home) && After(containers, steps, home) == w && Enabled(w, s)
    ensures more == steps + [s] && Possible(containers, more, home)
    ensures v == After(containers, more, home) == Execute(w, s, home)
  {
    more, v := steps + [s], Execute(w, s, home);
    assert more[..|steps|] == steps;
  }

  /** Everything is sent and read, and yet they differ. */
  ghost predicate QuietlyDiffers(w: World, c: string, r: string, home: Home) {
    && r in w.joiners && c in w.log && c in w.pending
    && var x := w.joiners[r];
    && x.container == c && x.attached && x.answer.Installed?
    && x.seen == |w.log[c]| && w.pending[c] == map[]
    && Visible(x.values) != Snapshot(w, home, c)
  }

  /** One container and one joiner. */
  function Pair(c: string, r: string, owner: Values, pending: Values, log: seq<Values>, x: Joiner): World {
    World(owner, map[c := pending], map[c := log], map[r := x])
  }

  ghost predicate Goes(w: World, s: Step, v: World, home: Home) {
    Enabled(w, s) && Execute(w, s, home) == v
  }

  lemma PairBegins(c: string, r: string, home: Home)
    ensures Possible({c}, [], home) && After({c}, [], home) == Initial({c})
    ensures Goes(Initial({c}), Join(r, c), Pair(c, r, map[], map[], [], Joiner(c, map[], false, 0, 0, Awaited)), home)
  {
    var v := Execute(Initial({c}), Join(r, c), home);
    assert v.pending == map[c := map[]] && v.log == map[c := []];
  }

  /** The only property there is gets a value, another than before. */
  lemma PairUpdates(c: string, r: string, owner: Values, pending: Values, log: seq<Values>, x: Joiner,
                    s: Slot, value: string, home: Home)
    requires home(s.eid) == c && owner.Keys <= {s} && pending.Keys <= {s} && (s in owner ==> owner[s] != value)
    ensures var v := map[s := value];
      Goes(Pair(c, r, owner, pending, log, x), Update(s.eid, s.key, value), Pair(c, r, v, v, log, x), home)
  {
    var w, v := Pair(c, r, owner, pending, log, x), map[s := value];
    assert s == Slot(s.eid, s.key);
    assert owner[s := value] == v && pending[s := value] == v;
    assert w.pending[c := v] == map[c := v];
  }

  /** The joiner attaches, hears a packet or installs its snapshot, or is sent it. */
  lemma PairMoves(c: string, r: string, owner: Values, pending: Values, log: seq<Values>, x: Joiner,
                  s: Step, y: Joiner, home: Home)
    requires s == Attach(r, |log|) || s == Deliver(r) || s == Install(r) || s == SendAnswer(r)
    requires x.container == c && Enabled(Pair(c, r, owner, pending, log, x), s)
    requires y == if s.Attach? then Attached(x, |log|)
                  else if s.Deliver? then x.(values := x.values + log[x.seen], seen := x.seen + 1)
                  else if s.SendAnswer? then x.(answer := Sent(x.answer.snapshot, x.answer.begun, x.answer.at))
                  else x.(values := x.values + x.answer.snapshot,
                          answer := Installed(x.answer.snapshot, x.answer.begun, x.answer.at, x.seen))
    ensures Goes(Pair(c, r, owner, pending, log, x), s, Pair(c, r, owner, pending, log, y), home)
  {
    assert map[r := x][r := y] == map[r := y];
  }

  lemma PairDrains(c: string, r: string, owner: Values, pending: Values, x: Joiner, home: Home)
    requires pending != map[]
    ensures Goes(Pair(c, r, owner, pending, [], x), Drain(c), Pair(c, r, owner, map[], [pending], x), home)
  {
    assert [] + [pending] == [pending];
  }

  lemma PairIsAnswered(c: string, r: string, owner: Values, pending: Values, x: Joiner, todo: set<string>, home: Home)
    requires x.answer == Awaited && x.container == c
    requires todo == EntitiesOf(Visible(Of(owner, home, c)))
    ensures Goes(Pair(c, r, owner, pending, [], x), BeginAnswer(r),
                 Pair(c, r, owner, pending, [], x.(answer := Listing(map[], 0, map[], todo))), home)
  {
    assert map[r := x][r := x.(answer := Listing(map[], 0, map[], todo))] ==
           map[r := x.(answer := Listing(map[], 0, map[], todo))];
  }

  lemma PairLooks(c: string, r: string, s: Slot, v: Values, x: Joiner, home: Home)
    requires home(s.eid) == c && s.key != "" && v.Keys == {s} && x.container == c
    requires x.answer == Listing(map[], 0, map[], {s.eid})
    ensures Goes(Pair(c, r, v, v, [], x), LookAt(r, s.eid),
                 Pair(c, r, v, v, [], x.(answer := Listing(v, 0, map[s.eid := 0], {s.eid}))), home)
  {
    assert OfEntity(v, s.eid) == v && Erase(v, s.eid) == v && map[] + v == v;
    var b := LookedAt(Pair(c, r, v, v, [], x), x.answer, c, s.eid, home);
    assert b.at == map[s.eid := 0];
    assert b == Listing(v, 0, map[s.eid := 0], {s.eid});
    assert map[r := x][r := x.(answer := b)] == map[r := x.(answer := b)];
  }

  lemma PairDiffers(c: string, r: string, s: Slot, v: Values, packet: Values, x: Joiner, home: Home)
    requires home(s.eid) == c && s.key != "" && v.Keys == {s} && x.values.Keys <= {s} && x.values != v
    requires x.container == c && x.attached && x.answer.Installed? && x.seen == 1
    ensures QuietlyDiffers(Pair(c, r, v, map[], [packet], x), c, r, home)
  {
    assert Of(v, home, c) == v && Visible(v) == v && Visible(x.values) == x.values;
  }

  /** A joiner with its reader attached has been sent a snapshot, its one value still pending. */
  lemma SnapshotUnderWay(c: string, r: string, s: Slot, v: Values, home: Home) returns (steps: seq<Step>)
    requires s.key != "" && home(s.eid) == c && v.Keys == {s}
    ensures Possible({c}, steps, home)
    ensures After({c}, steps, home) ==
            Pair(c, r, v, v, [], Joiner(c, map[], true, 0, 0, Sent(v, 0, map[s.eid := 0])))
  {
    var x := Joiner(c, map[], false, 0, 0, Awaited);
    var y := x.(attached := true);
    var w;
    assert v == map[s := v[s]];
    PairBegins(c, r, home);
    PairMoves(c, r, map[], map[], [], x, Attach(r, 0), y, home);
    PairUpdates(c, r, map[], map[], [], y, s, v[s], home);
    OneEntity(v, s, c, home);
    PairIsAnswered(c, r, v, v, y, {s.eid}, home);
    var z := y.(answer := Listing(map[], 0, map[], {s.eid}));
    PairLooks(c, r, s, v, z, home);
    var looked := z.(answer := Listing(v, 0, map[s.eid := 0], {s.eid}));
    PairMoves(c, r, v, v, [], looked, SendAnswer(r), y.(answer := Sent(v, 0, map[s.eid := 0])), home);
    hide Possible, After, Execute, Enabled, Initial, Pair;
    steps, w := Next({c}, [], Initial({c}), Join(r, c), home);
    steps, w := Next({c}, steps, w, Attach(r, 0), home);
    steps, w := Next({c}, steps, w, Update(s.eid, s.key, v[s]), home);
    steps, w := Next({c}, steps, w, BeginAnswer(r), home);
    steps, w := Next({c}, steps, w, LookAt(r, s.eid), home);
    steps, w := Next({c}, steps, w, SendAnswer(r), home);
  }

  lemma OneEntity(v: Values, s: Slot, c: string, home: Home)
    requires v.Keys == {s} && s.key != "" && home(s.eid) == c
    ensures EntitiesOf(Visible(Of(v, home, c))) == {s.eid}
  {
    assert s in Visible(Of(v, home, c));
  }

  /** For example: the snapshot is taken, the value changes and reaches the joiner in the next packet,
      and only then is the snapshot installed. */
  lemma LateSnapshotDiverges(c: string, r: string, s: Slot, first: string, second: string, home: Home)
    returns (steps: seq<Step>)
    requires s.key != "" && first != second && home(s.eid) == c
    ensures Possible({c}, steps, home) && QuietlyDiffers(After({c}, steps, home), c, r, home)
  {
    var v1, v2 := map[s := first], map[s := second];
    var sent := Joiner(c, map[], true, 0, 0, Sent(v1, 0, map[s.eid := 0]));
    var heard := sent.(values := v2, seen := 1);
    var end := heard.(values := v1, answer := Installed(v1, 0, map[s.eid := 0], 1));
    var w;
    steps := SnapshotUnderWay(c, r, s, v1, home);
    assert sent.values + v2 == v2 && v2 + v1 == v1 && v1[s] != v2[s];
    PairUpdates(c, r, v1, v1, [], sent, s, second, home);
    PairDrains(c, r, v2, v2, sent, home);
    PairMoves(c, r, v2, map[], [v2], sent, Deliver(r), heard, home);
    PairMoves(c, r, v2, map[], [v2], heard, Install(r), end, home);
    PairDiffers(c, r, s, v2, v2, end, home);
    hide Possible, After, Execute, Enabled, Initial, Pair, QuietlyDiffers;
    steps, w := Next({c}, steps, After({c}, steps, home), Update(s.eid, s.key, second), home);
    steps, w := Next({c}, steps, w, Drain(c), home);
    steps, w := Next({c}, steps, w, Deliver(r), home);
    steps, w := Next({c}, steps, w, Install(r), home);
  }

  /** A joiner with no reader yet has been sent an empty snapshot. */
  lemma EmptySnapshotSent(c: string, r: string, home: Home) returns (steps: seq<Step>)
    ensures Possible({c}, steps, home)
    ensures After({c}, steps, home) ==
            Pair(c, r, map[], map[], [], Joiner(c, map[], false, 0, 0, Sent(map[], 0, map[])))
  {
    var x := Joiner(c, map[], false, 0, 0, Awaited);
    var z := x.(answer := Listing(map[], 0, map[], {}));
    var w;
    PairBegins(c, r, home);
    PairIsAnswered(c, r, map[], map[], x, {}, home);
    PairMoves(c, r, map[], map[], [], z, SendAnswer(r), x.(answer := Sent(map[], 0, map[])), home);
    hide Possible, After, Execute, Enabled, Initial, Pair;
    steps, w := Next({c}, [], Initial({c}), Join(r, c), home);
    steps, w := Next({c}, steps, w, BeginAnswer(r), home);
    steps, w := Next({c}, steps, w, SendAnswer(r), home);
  }

  /** Or: the snapshot is taken before the reader has attached, and a first value is sent in between. */
  lemma LateReaderMissesValue(c: string, r: string, s: Slot, value: string, home: Home)
    returns (steps: seq<Step>)
    requires s.key != "" && home(s.eid) == c
    ensures Possible({c}, steps, home) && QuietlyDiffers(After({c}, steps, home), c, r, home)
  {
    var v, y := map[s := value], Joiner(c, map[], false, 0, 0, Sent(map[], 0, map[]));
    var late := y.(attached := true, from := 1, seen := 1);
    var end := late.(answer := Installed(map[], 0, map[], 1));
    var w;
    steps := EmptySnapshotSent(c, r, home);
    PairUpdates(c, r, map[], map[], [], y, s, value, home);
    PairDrains(c, r, v, v, y, home);
    PairMoves(c, r, v, map[], [v], y, Attach(r, 1), late, home);
    assert late.values + late.values == map[];
    PairMoves(c, r, v, map[], [v], late, Install(r), end, home);
    PairDiffers(c, r, s, v, v, end, home);
    hide Possible, After, Execute, Enabled, Initial, QuietlyDiffers, Pair;
    steps, w := Next({c}, steps, After({c}, steps, home), Update(s.eid, s.key, value), home);
    steps, w := Next({c}, steps, w, Drain(c), home);
    steps, w := Next({c}, steps, w, Attach(r, 1), home);
    steps, w := Next({c}, steps, w, Install(r), home);
  }

  lemma PairPeeks(c: string, r: string, s: Slot, v: Values, log: seq<Values>, x: Joiner, home: Home)
    requires s.key == "" && v.Keys == {s}
    ensures Goes(Pair(c, r, v, map[], log, x), Peek(s.eid), Pair(c, r, map[], map[], log, x), home)
  {
    assert s == Slot(s.eid, "") && Erase(v, s.eid) == map[];
  }

  /** For example: a value under the empty key reaches a joiner, and looking at the entity then takes it from
      the owner alone.  Nothing is pending or in flight. */
  lemma EmptyKeyVanishes(c: string, r: string, eid: string, value: string, home: Home) returns (steps: seq<Step>)
    requires home(eid) == c
    ensures var v := map[Slot(eid, "") := value];
      && Possible({c}, steps, home)
      && After({c}, steps, home) == Pair(c, r, map[], map[], [v], Joiner(c, v, true, 0, 1, Awaited))
  {
    var s, x := Slot(eid, ""), Joiner(c, map[], false, 0, 0, Awaited);
    var v, y := map[s := value], x.(attached := true);
    var end := y.(values := v, seen := 1);
    var w;
    PairBegins(c, r, home);
    PairMoves(c, r, map[], map[], [], x, Attach(r, 0), y, home);
    PairUpdates(c, r, map[], map[], [], y, s, value, home);
    PairDrains(c, r, v, v, y, home);
    PairPeeks(c, r, s, v, [v], end, home);
    assert map[] + v == v;
    PairMoves(c, r, v, map[], [v], y, Deliver(r), end, home);
    hide Possible, After, Execute, Enabled, Initial, Pair;
    steps, w := Next({c}, [], Initial({c}), Join(r, c), home);
    steps, w := Next({c}, steps, w, Attach(r, 0), home);
    steps, w := Next({c}, steps, w, Update(eid, "", value), home);
    steps, w := Next({c}, steps, w, Drain(c), home);
    steps, w := Next({c}, steps, w, Deliver(r), home);
    steps, w := Next({c}, steps, w, Peek(eid), home);
  }

  // ---------- one drained batch in any order ----------

  /** No two packets give one slot different values (as when they mention different entities). */
  ghost predicate Compatible(packets: seq<Values>) {
    forall i, j, s :: 0 <= i < j < |packets| && s in packets[i] && s in packets[j] ==> packets[i][s] == packets[j][s]
  }

  lemma {:induction false} OverlayValue(base: Values, packets: seq<Values>, s: Slot)
    requires Compatible(packets)
    ensures forall i :: 0 <= i < |packets| && s in packets[i] ==>
      s in OverlayAll(base, packets) && OverlayAll(base, packets)[s] == packets[i][s]
    ensures (forall i :: 0 <= i < |packets| ==> s !in packets[i]) ==>
      (s in OverlayAll(base, packets) <==> s in base) && (s in base ==> OverlayAll(base, packets)[s] == base[s])
    decreases |packets|
  {
    if packets != [] {
      OverlayValue(base + packets[0], packets[1..], s);
      forall i | 0 <= i < |packets| && s in packets[i]
        ensures s in OverlayAll(base, packets) && OverlayAll(base, packets)[s] == packets[i][s]
      {
        if i > 0 {
          assert s in packets[1..][i - 1];
        } else if j :| 0 < j < |packets| && s in packets[j] {
          assert s in packets[1..][j - 1];
        }
      }
    }
  }

  /** Sending the packets of one batch in parallel is harmless, whatever the replica holds, if and only
      if they are compatible. */
  lemma BatchOrderIsIrrelevantIff(packets: seq<Values>)
    ensures Compatible(packets) <==>
      forall base: Values, p: seq<Values>, q: seq<Values> ::
        multiset(p) == multiset(packets) && multiset(q) == multiset(packets) ==>
          OverlayAll(base, p) == OverlayAll(base, q)
  {
    if Compatible(packets) {
      forall base: Values, p: seq<Values>, q: seq<Values>
        | multiset(p) == multiset(packets) && multiset(q) == multiset(packets)
        ensures OverlayAll(base, p) == OverlayAll(base, q)
      {
        CompatibleOrdersAgree(base, packets, p, q);
      }
    } else {
      var i, j, s :| 0 <= i < j < |packets| && s in packets[i] && s in packets[j] && packets[i][s] != packets[j][s];
      var p, q := DisagreeingOrders(packets, i, j, s);
      assert OverlayAll(map[], p) != OverlayAll(map[], q);
    }
  }

  /** Two orders that end with the two conflicting packets, one way round and the other. */
  lemma DisagreeingOrders(packets: seq<Values>, i: nat, j: nat, s: Slot) returns (p: seq<Values>, q: seq<Values>)
    requires i < j < |packets| && s in packets[i] && s in packets[j] && packets[i][s] != packets[j][s]
    ensures multiset(p) == multiset(packets) && multiset(q) == multiset(packets)
    ensures OverlayAll(map[], p) != OverlayAll(map[], q)
  {
    var rest := packets[..i] + packets[i + 1..j] + packets[j + 1..];
    p, q := rest + [packets[i], packets[j]], rest + [packets[j], packets[i]];
    assert packets == packets[..i] + [packets[i]] + packets[i + 1..j] + [packets[j]] + packets[j + 1..];
    LastWins(map[], rest, packets[i], packets[j]);
    LastWins(map[], rest, packets[j], packets[i]);
    assert OverlayAll(map[], p)[s] != OverlayAll(map[], q)[s];
  }

  lemma LastWins(base: Values, rest: seq<Values>, a: Values, b: Values)
    ensures OverlayAll(base, rest + [a, b]) == OverlayAll(base, rest) + a + b
  {
    assert rest + [a, b] == (rest + [a]) + [b];
    OverlaySnoc(base, rest + [a], b);
    OverlaySnoc(base, rest, a);
  }

  lemma CompatibleOrdersAgree(base: Values, packets: seq<Values>, p: seq<Values>, q: seq<Values>)
    requires Compatible(packets) && multiset(p) == multiset(packets) && multiset(q) == multiset(packets)
    ensures OverlayAll(base, p) == OverlayAll(base, q)
  {
    ReorderKeepsCompatible(packets, p);
    ReorderKeepsCompatible(packets, q);
    forall s ensures s in OverlayAll(base, p) <==> s in OverlayAll(base, q)
      ensures s in OverlayAll(base, p) ==> OverlayAll(base, p)[s] == OverlayAll(base, q)[s]
    {
      OverlayValue(base, p, s);
      OverlayValue(base, q, s);
      SamePackets(p, q, s);
      SamePackets(q, p, s);
    }
  }

  lemma SamePackets(p: seq<Values>, q: seq<Values>, s: Slot)
    requires multiset(p) == multiset(q)
    ensures forall i :: 0 <= i < |p| && s in p[i] ==> exists j :: 0 <= j < |q| && s in q[j] && q[j] == p[i]
  {
    forall i | 0 <= i < |p| && s in p[i] ensures exists j :: 0 <= j < |q| && s in q[j] && q[j] == p[i] {
      assert p[i] in multiset(q);
      var j :| 0 <= j < |q| && q[j] == p[i];
    }
  }

  lemma ReorderKeepsCompatible(packets: seq<Values>, p: seq<Values>)
    requires Compatible(packets) && multiset(p) == multiset(packets)
    ensures Compatible(p)
  {
    forall i, j, s | 0 <= i < j < |p| && s in p[i] && s in p[j] ensures p[i][s] == p[j][s] {
      assert p[i] in multiset(packets) && p[j] in multiset(packets);
      var a :| 0 <= a < |packets| && packets[a] == p[i];
      var b :| 0 <= b < |packets| && packets[b] == p[j];
      assert a != b ==> packets[a][s] == packets[b][s];
    }
  }
}
