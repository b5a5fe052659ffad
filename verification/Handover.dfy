/** Properties across a transfer: one entity goes from a source container to a target container while its
    properties go on changing.

    Until the source's server has let go, changes go to the source's stream; quarantine does not stop them.
    Then the target's server takes over: the same server, or another one that did not know the entity.  A
    subscriber of the target alone knows what the take order carries and what the target's stream says.  A
    subscriber of both hears two streams, with no order between them. */
module Handover {
  import opened Options
  import opened Maps
  import opened Replication

  /** A subscriber of the target: `place` is how far it had read when the take order reached its engine. */
  datatype Target = Target(values: Values, seen: nat, place: Option<nat>)

  /** A subscriber of both: what the target has told it so far, and for which of those slots the source has
      spoken since. */
  datatype Both = Both(values: Values, seenSource: nat, seen: nat, told: Values, stale: set<Slot>)

  /** `owner` is what the source's server has, from `first` on; `order` what the take order carries and `late`
      what was changed at the source after that; `target` what the target's server has once it has taken over.
      Tables and streams hold the entity's share. */
  datatype World = World(
    same: bool,
    first: Values,
    owner: Values,
    started: bool,
    released: bool,
    adopted: bool,
    order: Values,
    late: Values,
    target: Values,
    sourcePending: Values,
    sourceLog: seq<Values>,
    pending: Values,
    log: seq<Values>,
    targets: map<string, Target>,
    boths: map<string, Both>)

  datatype Step =
    | WriteSource(slot: Slot, value: string)
    | WriteTarget(slot: Slot, value: string)
    | Start
    | Switch    // one server for both takes its own order
    | Release   // the source's server lets go
    | Adopt     // another server creates the entity from the order
    | SendSource
    | Send
    | Hear(peer: string)
    | Take(peer: string)
    | HearSource(peer: string)
    | HearTarget(peer: string)

  predicate Enabled(w: World, s: Step) {
    match s
    case WriteSource(_, _) => !w.released
    case WriteTarget(_, _) => w.adopted
    case Start => !w.started
    case Switch => w.same && w.started && !w.adopted
    case Release => !w.same && w.started && !w.released
    case Adopt => !w.same && w.started && !w.adopted
    case SendSource => w.sourcePending != map[]
    case Send => w.pending != map[]
    case Hear(r) => r in w.targets && w.targets[r].seen < |w.log|
    case Take(r) => r in w.targets && w.targets[r].place.None? && w.started
    case HearSource(r) => r in w.boths && w.boths[r].seenSource < |w.sourceLog|
    case HearTarget(r) => r in w.boths && w.boths[r].seen < |w.log|
  }

  function DoWriteSource(w: World, s: Slot, value: string): World {
    if s in w.owner && w.owner[s] == value then w
    else w.(owner := w.owner[s := value], sourcePending := w.sourcePending[s := value],
            late := if w.started then w.late[s := value] else w.late)
  }

  function DoWriteTarget(w: World, s: Slot, value: string): World {
    if s in w.target && w.target[s] == value then w
    else w.(target := w.target[s := value], pending := w.pending[s := value])
  }

  function Execute(w: World, s: Step): World
    requires Enabled(w, s)
  {
    match s
    case WriteSource(slot, value) => DoWriteSource(w, slot, value)
    case WriteTarget(slot, value) => DoWriteTarget(w, slot, value)
    case Start => w.(started := true, owner := Visible(w.owner), order := Visible(w.owner))
    case Switch => w.(released := true, adopted := true, target := w.owner)
    case Release => w.(released := true)
    case Adopt => w.(adopted := true, target := w.order)
    case SendSource => w.(sourcePending := map[], sourceLog := w.sourceLog + [w.sourcePending])
    case Send => w.(pending := map[], log := w.log + [w.pending])
    case Hear(r) =>
      var x := w.targets[r];
      w.(targets := w.targets[r := x.(values := x.values + w.log[x.seen], seen := x.seen + 1)])
    case Take(r) =>
      var x := w.targets[r];
      w.(targets := w.targets[r := x.(values := x.values + w.order, place := Some(x.seen))])
    case HearSource(r) => w.(boths := w.boths[r := SourceHeard(w.boths[r], w.sourceLog[w.boths[r].seenSource])])
    case HearTarget(r) => w.(boths := w.boths[r := TargetHeard(w.boths[r], w.log[w.boths[r].seen])])
  }

  function SourceHeard(x: Both, packet: Values): Both {
    x.(values := x.values + packet, seenSource := x.seenSource + 1, stale := x.stale + packet.Keys * x.told.Keys)
  }

  function TargetHeard(x: Both, packet: Values): Both {
    x.(values := x.values + packet, seen := x.seen + 1, told := x.told + packet, stale := x.stale - packet.Keys)
  }

  /** The subscribers of both agree with the source's server; no other subscriber of the target has heard of
      the entity. */
  ghost function Initial(same: bool, owner: Values, targets: set<string>, boths: set<string>): World {
    World.World(same, owner, owner, false, false, false, map[], map[], map[], map[], [], map[], [],
                Constant(targets, Target(map[], 0, None)),
                Constant(boths, Both(owner, 0, 0, map[], {})))
  }

  ghost predicate Possible(start: World, steps: seq<Step>)
    decreases |steps|, 0
  {
    steps == [] || (Possible(start, steps[..|steps| - 1]) &&
                    Enabled(After(start, steps[..|steps| - 1]), steps[|steps| - 1]))
  }

  ghost function After(start: World, steps: seq<Step>): World
    requires Possible(start, steps)
    decreases |steps|, 1
  {
    if steps == [] then start
    else Execute(After(start, steps[..|steps| - 1]), steps[|steps| - 1])
  }

  // ---------- the invariant ----------

  /** Packets of the target, or of the source, heard up to place k. */
  function Heard(w: World, k: nat): Values
    requires k <= |w.log|
  {
    OverlayAll(map[], w.log[..k])
  }

  function HeardSourceTo(w: World, k: nat): Values
    requires k <= |w.sourceLog|
  {
    OverlayAll(map[], w.sourceLog[..k])
  }

  /** What the target's stream and table still say after place k. */
  function Rest(w: World, k: nat): Values
    requires k <= |w.log|
  {
    OverlayAll(map[], w.log[k..]) + w.pending
  }

  /** The late changes the target's server has. */
  function Kept(w: World): Values {
    if w.same then w.late else map[]
  }

  ghost predicate TargetInv(w: World, x: Target) {
    && x.seen <= |w.log|
    && match x.place
       case None => x.values == Heard(w, x.seen)
       case Some(k) => k <= x.seen && x.values == OverlayAll(Heard(w, k) + w.order, w.log[k..x.seen])
  }

  /** It shows the target's word where the target has spoken last, else the source's. */
  ghost predicate BothInv(w: World, x: Both) {
    && x.seenSource <= |w.sourceLog| && x.seen <= |w.log| && x.told == Heard(w, x.seen)
    && x.stale <= x.told.Keys * HeardSourceTo(w, x.seenSource).Keys
    && forall s :: SameAt(x.values,
                          if s in x.told && s !in x.stale then x.told else w.first + HeardSourceTo(w, x.seenSource), s)
  }

  ghost predicate SourceInv(w: World) {
    && Visible((w.first + HeardSourceTo(w, |w.sourceLog|)) + w.sourcePending) == Visible(w.owner)
    && (w.started ==> Visible(w.owner) == Visible(w.order + w.late))
    && (!w.started ==> w.order == map[] && w.late == map[] && !w.released && !w.adopted)
    && (w.same ==> (w.released <==> w.adopted))
  }

  ghost predicate OwnerInv(w: World) {
    && (!w.adopted ==> w.pending == map[] && w.log == [])
    && (w.adopted ==> Visible(w.target) == Visible((w.order + Kept(w)) + Rest(w, 0)))
  }

  ghost predicate Inv(w: World) {
    && SourceInv(w) && OwnerInv(w)
    && (!w.started ==> forall r :: r in w.targets ==> w.targets[r].place.None?)
    && (forall r :: r in w.targets ==> TargetInv(w, w.targets[r]))
    && (forall r :: r in w.boths ==> BothInv(w, w.boths[r]))
  }

  // ---------- every step keeps it ----------

  lemma WriteLast(a: Values, b: Values, s: Slot, value: string)
    ensures a + b[s := value] == (a + b)[s := value]
  {
  }

  lemma OneSlotVisibly(a: Values, b: Values, s: Slot, value: string)
    requires Visible(a) == Visible(b)
    ensures Visible(a[s := value]) == Visible(b[s := value])
  {
    assert Visible(a[s := value]) == if s.key == "" then Visible(a) else Visible(a)[s := value];
    assert Visible(b[s := value]) == if s.key == "" then Visible(b) else Visible(b)[s := value];
  }

  lemma WriteSourceKeepsInv(w: World, s: Slot, value: string)
    requires Inv(w) && !w.released
    ensures Inv(DoWriteSource(w, s, value))
  {
    var v, sent := DoWriteSource(w, s, value), w.first + HeardSourceTo(w, |w.sourceLog|);
    if v != w {
      WriteLast(sent, w.sourcePending, s, value);
      OneSlotVisibly(sent + w.sourcePending, w.owner, s, value);
      if w.started {
        WriteLast(w.order, w.late, s, value);
        OneSlotVisibly(w.owner, w.order + w.late, s, value);
      }
      hide Visible, OverlayAll;
      assert w.adopted ==> Kept(v) == Kept(w) && Rest(v, 0) == Rest(w, 0);
      PeersOnly(w, v);
    }
  }

  lemma WriteTargetKeepsInv(w: World, s: Slot, value: string)
    requires Inv(w) && w.adopted
    ensures Inv(DoWriteTarget(w, s, value))
  {
    var v := DoWriteTarget(w, s, value);
    if v != w {
      var before, sent := (w.order + Kept(w)) + Rest(w, 0), OverlayAll(map[], w.log[0..]);
      WriteLast(sent, w.pending, s, value);
      assert Rest(v, 0) == Rest(w, 0)[s := value];
      hide Visible, OverlayAll, Rest;
      WriteLast(w.order + Kept(w), Rest(w, 0), s, value);
      OneSlotVisibly(w.target, before, s, value);
      PeersOnly(w, v);
    }
  }

  /** The peers' part looks at logs, order and first values only. */
  lemma PeersOnly(w: World, v: World)
    requires Inv(w) && v.targets == w.targets && v.boths == w.boths && v.order == w.order && v.first == w.first
    requires w.log <= v.log && w.sourceLog <= v.sourceLog
    ensures forall r :: r in v.targets ==> TargetInv(v, v.targets[r])
    ensures forall r :: r in v.boths ==> BothInv(v, v.boths[r])
  {
    hide SourceInv, OwnerInv, BothInv;
    forall r | r in v.targets ensures TargetInv(v, v.targets[r]) {
      var x := v.targets[r];
      var k := if x.place.Some? then x.place.value else x.seen;
      assert TargetInv(w, x);
      assert v.log[..k] == w.log[..k] && v.log[k..x.seen] == w.log[k..x.seen];
    }
    forall r | r in v.boths ensures BothInv(v, v.boths[r]) {
      BothOnly(w, v, v.boths[r]);
    }
  }

  lemma SendKeepsInv(w: World)
    requires Inv(w) && Enabled(w, Send)
    ensures Inv(Execute(w, Send))
  {
    var v := Execute(w, Send);
    SendKeepsRest(w, v);
    SourceOnly(w, v);
    hide Visible, Rest, SourceInv, TargetInv, BothInv;
    PeersOnly(w, v);
  }

  lemma SendKeepsRest(w: World, v: World)
    requires v.log == w.log + [w.pending] && v.pending == map[]
    ensures Rest(v, 0) == Rest(w, 0)
  {
    assert w.log[0..] == w.log && v.log[0..] == v.log;
    OverlaySnoc(map[], w.log, w.pending);
  }

  lemma SendSourceKeepsInv(w: World)
    requires Inv(w) && Enabled(w, SendSource)
    ensures Inv(Execute(w, SendSource))
  {
    var v := Execute(w, SendSource);
    SendSourceKeepsSent(w, v);
    OwnerOnly(w, v);
    hide Visible, Rest, HeardSourceTo, OwnerInv, TargetInv, BothInv;
    PeersOnly(w, v);
  }

  lemma SendSourceKeepsSent(w: World, v: World)
    requires v.first == w.first && v.sourceLog == w.sourceLog + [w.sourcePending] && v.sourcePending == map[]
    ensures (v.first + HeardSourceTo(v, |v.sourceLog|)) + v.sourcePending ==
            (w.first + HeardSourceTo(w, |w.sourceLog|)) + w.sourcePending
  {
    var n := |w.sourceLog|;
    assert w.sourceLog[..n] == w.sourceLog && v.sourceLog[..n + 1] == v.sourceLog;
    OverlaySnoc(map[], w.sourceLog, w.sourcePending);
    MergeAssoc(w.first, HeardSourceTo(w, n), w.sourcePending);
  }

  /** SourceInv and OwnerInv look at their own side only. */
  lemma SourceOnly(w: World, v: World)
    requires SourceInv(w) && v == w.(log := v.log, pending := v.pending)
    ensures SourceInv(v)
  {
    assert HeardSourceTo(v, |v.sourceLog|) == HeardSourceTo(w, |w.sourceLog|);
    hide HeardSourceTo, Visible;
  }

  lemma OwnerOnly(w: World, v: World)
    requires OwnerInv(w) && v == w.(sourceLog := v.sourceLog, sourcePending := v.sourcePending)
    ensures OwnerInv(v)
  {
    assert Rest(v, 0) == Rest(w, 0);
    hide Rest, Visible;
  }

  lemma HearKeepsTarget(w: World, x: Target)
    requires TargetInv(w, x) && x.seen < |w.log|
    ensures TargetInv(w, x.(values := x.values + w.log[x.seen], seen := x.seen + 1))
  {
    match x.place
    case None =>
      assert w.log[..x.seen + 1] == w.log[..x.seen] + [w.log[x.seen]];
      OverlaySnoc(map[], w.log[..x.seen], w.log[x.seen]);
    case Some(k) =>
      assert w.log[k..x.seen + 1] == w.log[k..x.seen] + [w.log[x.seen]];
      OverlaySnoc(Heard(w, k) + w.order, w.log[k..x.seen], w.log[x.seen]);
  }

  lemma HearSourceKeepsBoth(w: World, x: Both)
    requires BothInv(w, x) && x.seenSource < |w.sourceLog|
    ensures BothInv(w, SourceHeard(x, w.sourceLog[x.seenSource]))
  {
    HearSourceGrows(w, x.seenSource);
    hide OverlayAll, HeardSourceTo, Heard;
  }

  lemma HearSourceGrows(w: World, k: nat)
    requires k < |w.sourceLog|
    ensures HeardSourceTo(w, k + 1) == HeardSourceTo(w, k) + w.sourceLog[k]
  {
    assert w.sourceLog[..k + 1] == w.sourceLog[..k] + [w.sourceLog[k]];
    OverlaySnoc(map[], w.sourceLog[..k], w.sourceLog[k]);
  }

  lemma HearTargetKeepsBoth(w: World, x: Both)
    requires BothInv(w, x) && x.seen < |w.log|
    ensures BothInv(w, TargetHeard(x, w.log[x.seen]))
  {
    var k, packet := x.seen, w.log[x.seen];
    assert w.log[..k + 1] == w.log[..k] + [packet];
    OverlaySnoc(map[], w.log[..k], packet);
    assert Heard(w, k + 1) == Heard(w, k) + packet;
    hide OverlayAll, HeardSourceTo, Heard;
  }

  lemma StartKeepsInv(w: World)
    requires Inv(w) && Enabled(w, Start)
    ensures Inv(Execute(w, Start))
  {
    var v := Execute(w, Start);
    assert Visible(Visible(w.owner)) == Visible(w.owner) && v.order + v.late == v.order;
    forall r | r in v.targets ensures TargetInv(v, v.targets[r]) {
      assert TargetInv(w, w.targets[r]);
    }
    forall r | r in v.boths ensures BothInv(v, v.boths[r]) {
      assert BothInv(w, w.boths[r]);
    }
  }

  /** Whoever takes over has what the order carries, with the late changes if it is the same server. */
  lemma AdoptKeepsInv(w: World, s: Step)
    requires Inv(w) && Enabled(w, s) && (s.Switch? || s.Adopt?)
    ensures Inv(Execute(w, s))
  {
    var v := Execute(w, s);
    NothingSaid(v);
    hide Rest, TargetInv, BothInv;
    assert (v.order + Kept(v)) + map[] == v.order + Kept(v) && (s.Adopt? ==> v.order + Kept(v) == v.order);
    hide Visible;
    PeersOnly(w, v);
  }

  lemma NothingSaid(w: World)
    requires w.log == [] && w.pending == map[]
    ensures Rest(w, 0) == map[]
  {
  }

  lemma StepKeepsInv(w: World, s: Step)
    requires Inv(w) && Enabled(w, s)
    ensures Inv(Execute(w, s))
  {
    match s
    case WriteSource(slot, value) => WriteSourceKeepsInv(w, slot, value);
    case WriteTarget(slot, value) => WriteTargetKeepsInv(w, slot, value);
    case Start => StartKeepsInv(w);
    case Switch => AdoptKeepsInv(w, s);
    case Adopt => AdoptKeepsInv(w, s);
    case Release =>
      hide Visible, Rest, HeardSourceTo;
      PeersOnly(w, Execute(w, s));
    case SendSource => SendSourceKeepsInv(w);
    case Send => SendKeepsInv(w);
    case Hear(r) => PeerKeepsInv(w, s);
    case Take(r) => PeerKeepsInv(w, s);
    case HearSource(r) => PeerKeepsInv(w, s);
    case HearTarget(r) => PeerKeepsInv(w, s);
  }

  lemma PeerKeepsInv(w: World, s: Step)
    requires Inv(w) && Enabled(w, s) && (s.Hear? || s.Take? || s.HearSource? || s.HearTarget?)
    ensures Inv(Execute(w, s))
  {
    var v := Execute(w, s);
    assert SourceInv(v) && OwnerInv(v);
    hide SourceInv, OwnerInv, TargetInv, BothInv;
    forall r | r in v.targets ensures TargetInv(v, v.targets[r]) {
      PeerKeepsTarget(w, s, r);
    }
    forall r | r in v.boths ensures BothInv(v, v.boths[r]) {
      PeerKeepsBoth(w, s, r);
    }
  }

  lemma PeerKeepsTarget(w: World, s: Step, r: string)
    requires r in w.targets && TargetInv(w, w.targets[r])
    requires Enabled(w, s) && (s.Hear? || s.Take? || s.HearSource? || s.HearTarget?)
    ensures TargetInv(Execute(w, s), Execute(w, s).targets[r])
  {
    if s.Hear? && s.peer == r {
      HearKeepsTarget(w, w.targets[r]);
    } else if s.Take? && s.peer == r {
      assert w.log[w.targets[r].seen..w.targets[r].seen] == [];
    }
  }

  lemma PeerKeepsBoth(w: World, s: Step, r: string)
    requires r in w.boths && BothInv(w, w.boths[r])
    requires Enabled(w, s) && (s.Hear? || s.Take? || s.HearSource? || s.HearTarget?)
    ensures BothInv(Execute(w, s), Execute(w, s).boths[r])
  {
    var v := Execute(w, s);
    var y := v.boths[r];
    if s.HearSource? && s.peer == r {
      HearSourceKeepsBoth(w, w.boths[r]);
    } else if s.HearTarget? && s.peer == r {
      HearTargetKeepsBoth(w, w.boths[r]);
    }
    assert BothInv(w, y) && v.log == w.log && v.sourceLog == w.sourceLog && v.first == w.first;
    hide Execute;
    BothOnly(w, v, y);
  }

  lemma BothOnly(w: World, v: World, x: Both)
    requires BothInv(w, x) && w.log <= v.log && w.sourceLog <= v.sourceLog && v.first == w.first
    ensures BothInv(v, x)
  {
    assert v.log[..x.seen] == w.log[..x.seen] && v.sourceLog[..x.seenSource] == w.sourceLog[..x.seenSource];
    assert Heard(v, x.seen) == Heard(w, x.seen) && HeardSourceTo(v, x.seenSource) == HeardSourceTo(w, x.seenSource);
    hide Heard, HeardSourceTo;
  }

  lemma {:induction false} RunKeepsInv(same: bool, owner: Values, targets: set<string>, boths: set<string>,
                                       steps: seq<Step>)
    requires Possible(Initial(same, owner, targets, boths), steps)
    ensures Inv(After(Initial(same, owner, targets, boths), steps))
  {
    if steps != [] {
      RunKeepsInv(same, owner, targets, boths, steps[..|steps| - 1]);
      hide Inv;
      StepKeepsInv(After(Initial(same, owner, targets, boths), steps[..|steps| - 1]), steps[|steps| - 1]);
    } else {
      var w := Initial(same, owner, targets, boths);
      assert (owner + map[]) + map[] == owner && w.log[..0] == [] && w.sourceLog[..0] == [];
    }
  }

  // ---------- subscribers of the target alone ----------

  /** For every slot the target's stream does not write after place k: packets heard before that do not
      contradict the order, and a late change the target's server has is in the order already. */
  ghost predicate NothingLost(w: World, k: nat)
    requires k <= |w.log|
  {
    Agreeing(w.order, Kept(w), Heard(w, k), Rest(w, k))
  }

  ghost predicate Agreeing(order: Values, late: Values, heard: Values, rest: Values) {
    forall s: Slot :: s !in rest && s.key != "" ==>
      && (s in heard && s in order ==> heard[s] == order[s])
      && (s in late && s !in heard ==> s in order && order[s] == late[s])
  }

  lemma AgreeingIff(order: Values, late: Values, heard: Values, rest: Values)
    ensures Visible((heard + order) + rest) == Visible((order + (late + heard)) + rest) <==>
            Agreeing(order, late, heard, rest)
  {
    var z := late + heard;
    SnapshotOverPackets(order, heard, z, rest);
    hide Visible;
    var goal := forall s :: s in z && s !in rest && s.key != "" ==> s in heard + order && (heard + order)[s] == z[s];
    if goal {
      forall s: Slot | s !in rest && s.key != ""
        ensures s in heard && s in order ==> heard[s] == order[s]
        ensures s in late && s !in heard ==> s in order && order[s] == late[s]
      {
        assert s in heard || s in late ==> s in z;
      }
    }
  }

  lemma ShowsOwnerIff(w: World, x: Target)
    requires OwnerInv(w) && w.adopted && TargetInv(w, x) && x.place.Some?
    ensures Visible(x.values + Rest(w, x.seen)) == Visible(w.target) <==> NothingLost(w, x.place.value)
  {
    var k := x.place.value;
    var y, rest := Heard(w, k), Rest(w, k);
    Ahead(w, y + w.order, k, x.seen);
    Behind(w, k);
    hide Heard, Rest, Visible, Agreeing, Kept;
    Inside(w.order, Kept(w), y, rest);
    AgreeingIff(w.order, Kept(w), y, rest);
  }

  lemma Inside(a: Values, b: Values, c: Values, d: Values)
    ensures (a + b) + (c + d) == (a + (b + c)) + d
  {
  }

  lemma Ahead(w: World, base: Values, k: nat, n: nat)
    requires k <= n <= |w.log|
    ensures OverlayAll(base, w.log[k..n]) + Rest(w, n) == base + Rest(w, k)
  {
    var first, later := w.log[k..n], w.log[n..];
    assert w.log[k..] == first + later;
    OverlayConcat(map[], first, later);
    OverlayIsMerge(OverlayAll(map[], first), later);
    OverlayIsMerge(base, first);
    Regroup(base, OverlayAll(map[], first), OverlayAll(map[], later), w.pending);
  }

  lemma Behind(w: World, k: nat)
    requires k <= |w.log|
    ensures Heard(w, k) + Rest(w, k) == Rest(w, 0)
  {
    assert w.log[0..k] == w.log[..k];
    Ahead(w, map[], 0, k);
    assert map[] + Rest(w, 0) == Rest(w, 0);
  }

  /** After every run: a subscriber of the target alone, having heard all there is, shows the entity as the
      target's server does if and only if nothing was lost; and nothing was, if that server has no late change
      and the order came before the first packet. */
  lemma TransferKeepsPropertiesIff(same: bool, owner: Values, targets: set<string>, boths: set<string>,
                                   steps: seq<Step>, r: string)
    requires Possible(Initial(same, owner, targets, boths), steps)
    requires var w := After(Initial(same, owner, targets, boths), steps);
      && w.adopted && r in w.targets && w.targets[r].place.Some?
      && w.targets[r].seen == |w.log| && w.pending == map[]
    ensures var w := After(Initial(same, owner, targets, boths), steps); var x := w.targets[r];
      && x.place.value <= |w.log|
      && (Visible(x.values) == Visible(w.target) <==> NothingLost(w, x.place.value))
      && (Kept(w) == map[] && x.place.value == 0 ==> Visible(x.values) == Visible(w.target))
  {
    RunKeepsInv(same, owner, targets, boths, steps);
    var w := After(Initial(same, owner, targets, boths), steps);
    var x := w.targets[r];
    assert TargetInv(w, x);
    hide Inv, Possible, After, Visible;
    ShowsOwnerIff(w, x);
    assert w.log[x.seen..] == [] && x.values + Rest(w, x.seen) == x.values;
    assert w.log[..0] == [];
  }

  // ---------- subscribers of both ----------

  /** For every slot: if the source spoke last though the target had spoken, both said the same; and a late
      change that the target's server has not got and no packet of its overwrites is in the order already. */
  ghost predicate NothingMixed(w: World, x: Both) {
    forall s: Slot :: s.key != "" ==>
      && (s in x.stale ==> s in HeardSourceTo(w, |w.sourceLog|) && s in x.told
                           && HeardSourceTo(w, |w.sourceLog|)[s] == x.told[s])
      && (!w.same && s in w.late && s !in x.told ==> s in w.order && w.order[s] == w.late[s])
  }

  lemma MixedAtIff(w: World, x: Both, s: Slot)
    requires Inv(w) && BothInv(w, x) && w.adopted && s.key != ""
    requires w.sourcePending == w.pending == map[] && x.seenSource == |w.sourceLog| && x.seen == |w.log|
    ensures SameAt(x.values, w.target, s) <==>
            (s in x.stale ==> s in HeardSourceTo(w, |w.sourceLog|) && s in x.told
                              && HeardSourceTo(w, |w.sourceLog|)[s] == x.told[s]) &&
            (!w.same && s in w.late && s !in x.told ==> s in w.order && w.order[s] == w.late[s])
  {
    var sent := HeardSourceTo(w, |w.sourceLog|);
    assert w.log[..|w.log|] == w.log == w.log[0..] && Rest(w, 0) == x.told;
    VisiblyAt((w.first + sent) + w.sourcePending, w.owner, s);
    VisiblyAt(w.owner, w.order + w.late, s);
    VisiblyAt(w.target, (w.order + Kept(w)) + x.told, s);
    hide Inv, Rest, Heard, HeardSourceTo, Visible;
    BlendAtIff(x.values, w.first, sent, x.told, x.stale, w.order, w.late, Kept(w), w.target, s);
  }

  /** The same on values: shown is a blend of source and target, and the source says order and late. */
  lemma BlendAtIff(shown: Values, first: Values, sent: Values, told: Values, stale: set<Slot>,
                   order: Values, late: Values, kept: Values, target: Values, s: Slot)
    requires stale <= told.Keys * sent.Keys && (kept == late || kept == map[])
    requires SameAt(shown, if s in told && s !in stale then told else first + sent, s)
    requires SameAt(first + sent, order + late, s) && SameAt(target, (order + kept) + told, s)
    ensures SameAt(shown, target, s) <==>
            (s in stale ==> sent[s] == told[s]) &&
            (kept == map[] && s in late && s !in told ==> s in order && order[s] == late[s])
  {
  }

  lemma VisiblyAt(a: Values, b: Values, s: Slot)
    requires Visible(a) == Visible(b) && s.key != ""
    ensures SameAt(a, b, s)
  {
    assert (s in Visible(a) <==> s in a) && (s in Visible(b) <==> s in b);
    assert s in a ==> Visible(a)[s] == a[s];
  }

  lemma SameVisiblyIff(a: Values, b: Values)
    ensures Visible(a) == Visible(b) <==> forall s: Slot :: s.key != "" ==> SameAt(a, b, s)
  {
    assert forall s: Slot :: s.key != "" ==> (s in Visible(a) <==> s in a) && (s in Visible(b) <==> s in b);
    if Visible(a) == Visible(b) {
      forall s: Slot | s.key != "" ensures SameAt(a, b, s) {
        VisiblyAt(a, b, s);
      }
    }
  }

  /** After every run, in every interleaving of the two streams: a subscriber of both, having heard all there
      is, shows the entity as the target's server does if and only if nothing was mixed up. */
  lemma TwoStreamsAgreeIff(same: bool, owner: Values, targets: set<string>, boths: set<string>,
                           steps: seq<Step>, r: string)
    requires Possible(Initial(same, owner, targets, boths), steps)
    requires var w := After(Initial(same, owner, targets, boths), steps);
      && w.adopted && r in w.boths && w.sourcePending == w.pending == map[]
      && w.boths[r].seenSource == |w.sourceLog| && w.boths[r].seen == |w.log|
    ensures var w := After(Initial(same, owner, targets, boths), steps);
      Visible(w.boths[r].values) == Visible(w.target) <==> NothingMixed(w, w.boths[r])
  {
    RunKeepsInv(same, owner, targets, boths, steps);
    var w := After(Initial(same, owner, targets, boths), steps);
    var x := w.boths[r];
    assert BothInv(w, x);
    SameVisiblyIff(x.values, w.target);
    hide Possible, After, Visible;
    forall s: Slot | s.key != ""
      ensures SameAt(x.values, w.target, s) <==>
              (s in x.stale ==> s in HeardSourceTo(w, |w.sourceLog|) && s in x.told
                                && HeardSourceTo(w, |w.sourceLog|)[s] == x.told[s]) &&
              (!w.same && s in w.late && s !in x.told ==> s in w.order && w.order[s] == w.late[s])
    {
      MixedAtIff(w, x, s);
    }
    hide Inv, BothInv, HeardSourceTo, SameAt;
  }

  // ---------- how it goes wrong ----------

  /** A value changed between the start and the taking over never reaches the target's subscribers; another
      server does not get it either. */
  lemma LateChangeIsLost(same: bool, s: Slot, early: string, late: string, r: string) returns (steps: seq<Step>)
    requires s.key != "" && early != late
    ensures Possible(Initial(same, map[s := early], {r}, {}), steps)
    ensures var w := After(Initial(same, map[s := early], {r}, {}), steps);
      && w.released && w.adopted && w.pending == map[] && r in w.targets && w.targets[r].seen == |w.log|
      && w.targets[r].place.Some? && w.targets[r].values == map[s := early]
      && w.owner == map[s := late] && w.target == map[s := if same then late else early]
  {
    var start, w := Initial(same, map[s := early], {r}, {}), Initial(same, map[s := early], {r}, {});
    steps := [];
    steps, w := Next(start, steps, w, Start);
    assert w.owner == w.order == map[s := early];
    steps, w := Next(start, steps, w, WriteSource(s, late));
    assert w.owner == map[s := late];
    if same {
      steps, w := Next(start, steps, w, Switch);
    } else {
      steps, w := Next(start, steps, w, Release);
      steps, w := Next(start, steps, w, Adopt);
    }
    hide Possible, After;
    steps, w := Next(start, steps, w, Take(r));
    assert w.targets[r].values == map[s := early];
  }

  /** A value changed at the source and then at the target: a subscriber of both that hears the target first
      is left with the older value. */
  lemma SourceSpeaksLast(s: Slot, older: string, newer: string, r: string) returns (steps: seq<Step>)
    requires s.key != "" && older != newer
    ensures Possible(Initial(true, map[], {}, {r}), steps)
    ensures var w := After(Initial(true, map[], {}, {r}), steps);
      && w.adopted && w.sourcePending == w.pending == map[] && w.target == map[s := newer] && r in w.boths
      && w.boths[r].seenSource == |w.sourceLog| && w.boths[r].seen == |w.log|
      && w.boths[r].values == map[s := older]
  {
    var w;
    steps, w := BothSpoke(s, older, newer, r);
    var start := Initial(true, map[], {}, {r});
    hide Possible, After, Initial, Visible, TargetHeard, SourceHeard;
    TargetIsHeard(w, s, newer, r);
    steps, w := Next(start, steps, w, HearTarget(r));
    SourceIsHeard(w, s, older, r);
    steps, w := Next(start, steps, w, HearSource(r));
  }

  lemma TargetIsHeard(w: World, s: Slot, value: string, r: string)
    requires Enabled(w, HearTarget(r)) && w.boths[r].values == map[] && w.log[w.boths[r].seen] == map[s := value]
    ensures var v := Execute(w, HearTarget(r));
      && v == w.(boths := v.boths) && r in v.boths && v.boths[r].values == map[s := value]
      && v.boths[r].seen == w.boths[r].seen + 1 && v.boths[r].seenSource == w.boths[r].seenSource
  {
    assert map[] + map[s := value] == map[s := value];
  }

  lemma SourceIsHeard(w: World, s: Slot, value: string, r: string)
    requires Enabled(w, HearSource(r)) && w.boths[r].values.Keys <= {s}
    requires w.sourceLog[w.boths[r].seenSource] == map[s := value]
    ensures var v := Execute(w, HearSource(r));
      && v == w.(boths := v.boths) && r in v.boths && v.boths[r].values == map[s := value]
      && v.boths[r].seenSource == w.boths[r].seenSource + 1 && v.boths[r].seen == w.boths[r].seen
  {
    assert w.boths[r].values + map[s := value] == map[s := value];
  }

  lemma BothSpoke(s: Slot, older: string, newer: string, r: string) returns (steps: seq<Step>, w: World)
    requires s.key != "" && older != newer
    ensures Possible(Initial(true, map[], {}, {r}), steps) && w == After(Initial(true, map[], {}, {r}), steps)
    ensures w.adopted && w.sourcePending == w.pending == map[] && w.target == map[s := newer]
    ensures w.sourceLog == [map[s := older]] && w.log == [map[s := newer]]
    ensures w.boths == map[r := Both(map[], 0, 0, map[], {})]
  {
    var start := Initial(true, map[], {}, {r});
    steps, w := SourceSpoke(s, older, r);
    hide Possible, After, Initial, Visible, SourceHeard, TargetHeard;
    steps, w := Next(start, steps, w, Switch);
    assert w.adopted && w.target == map[s := older] && w.pending == map[] && w.log == [];
    steps, w := TargetSpeaks(start, steps, w, s, newer);
  }

  lemma TargetSpeaks(start: World, before: seq<Step>, u: World, s: Slot, value: string)
    returns (steps: seq<Step>, w: World)
    requires Possible(start, before) && u == After(start, before) && u.adopted && u.pending == map[] && u.log == []
    requires u.target.Keys == {s} && u.target[s] != value
    ensures Possible(start, steps) && w == After(start, steps)
    ensures w == u.(target := map[s := value], log := [map[s := value]])
  {
    hide Possible, After;
    steps, w := Next(start, before, u, WriteTarget(s, value));
    assert u.target[s := value] == map[s := value] && w.pending == map[s := value] && s in w.pending;
    steps, w := Next(start, steps, w, Send);
    assert w.log == [] + [map[s := value]];
  }

  lemma SourceSpoke(s: Slot, value: string, r: string) returns (steps: seq<Step>, w: World)
    requires s.key != ""
    ensures Possible(Initial(true, map[], {}, {r}), steps) && w == After(Initial(true, map[], {}, {r}), steps)
    ensures w.same && w.started && !w.adopted && w.owner == map[s := value] && w.sourceLog == [map[s := value]]
    ensures w.sourcePending == w.pending == w.target == map[] && w.log == []
    ensures w.boths == map[r := Both(map[], 0, 0, map[], {})]
  {
    var start := Initial(true, map[], {}, {r});
    w, steps := start, [];
    steps, w := Next(start, steps, w, WriteSource(s, value));
    assert w.boths == map[r := Both(map[], 0, 0, map[], {})];
    assert w.owner == map[s := value] && w.sourcePending == map[s := value];
    hide Possible, After, Initial;
    steps, w := Next(start, steps, w, SendSource);
    assert w.sourceLog == [] + [map[s := value]];
    steps, w := Next(start, steps, w, Start);
    assert Visible(map[s := value]) == map[s := value];
  }

  lemma Next(start: World, steps: seq<Step>, w: World, s: Step) returns (more: seq<Step>, v: World)
    requires Possible(start, steps) && After(start, steps) == w && Enabled(w, s)
    ensures more == steps + [s] && Possible(start, more) && v == After(start, more) == Execute(w, s)
  {
    more, v := steps + [s], Execute(w, s);
    assert more[..|steps|] == steps;
  }
}
