/** "Changed since last poll": two timestamps per property against one dirty bit. */
module GhostPoll {
  import opened Options

  /** The readings a clock will give, in order. */
  type Readings = nat -> int

  ghost predicate StrictlyIncreasing(clock: Readings) {
    forall i: nat, j: nat :: i < j ==> clock(i) < clock(j)
  }

  datatype PropertyInfo = PropertyInfo(value: string, lastUpdate: int, lastSync: int)

  /** The properties of one entity and how many clock readings have been taken. */
  datatype Timed = Timed(properties: map<string, PropertyInfo>, taken: nat)

  datatype Op = Set(key: string, value: string) | Poll(key: string)

  function Changes(t: Timed, key: string, value: string): bool {
    key !in t.properties || t.properties[key].value != value
  }

  /** A new property takes two readings for its initial timestamps before the one for this update. */
  function DoSet(t: Timed, key: string, value: string, clock: Readings): Timed {
    if !Changes(t, key, value) then t
    else if key in t.properties then
      var p := t.properties[key];
      Timed(t.properties[key := PropertyInfo(value, clock(t.taken), p.lastSync)], t.taken + 1)
    else
      Timed(t.properties[key := PropertyInfo(value, clock(t.taken + 2), clock(t.taken + 1))], t.taken + 3)
  }

  function Get(t: Timed, key: string): Option<string> {
    if key in t.properties && t.properties[key].lastUpdate > t.properties[key].lastSync
    then Some(t.properties[key].value) else None
  }

  function DoPoll(t: Timed, key: string, clock: Readings): Timed {
    if Get(t, key).None? then t
    else Timed(t.properties[key := t.properties[key].(lastSync := clock(t.taken))], t.taken + 1)
  }

  function Step(t: Timed, op: Op, clock: Readings): (Timed, Option<string>) {
    match op
    case Set(key, value) => (DoSet(t, key, value, clock), None)
    case Poll(key) => (DoPoll(t, key, clock), Get(t, key))
  }

  // ---------- the dirty-bit machine ----------

  datatype Bit = Bit(value: string, dirty: bool)

  function BitStep(b: map<string, Bit>, op: Op): (map<string, Bit>, Option<string>) {
    match op
    case Set(key, value) =>
      (if key in b && b[key].value == value then b else b[key := Bit(value, true)], None)
    case Poll(key) =>
      if key in b && b[key].dirty then (b[key := Bit(b[key].value, false)], Some(b[key].value)) else (b, None)
  }

  function Outputs(t: Timed, ops: seq<Op>, clock: Readings): seq<Option<string>>
    decreases |ops|
  {
    if ops == [] then []
    else [Step(t, ops[0], clock).1] + Outputs(Step(t, ops[0], clock).0, ops[1..], clock)
  }

  function BitOutputs(b: map<string, Bit>, ops: seq<Op>): seq<Option<string>>
    decreases |ops|
  {
    if ops == [] then [] else [BitStep(b, ops[0]).1] + BitOutputs(BitStep(b, ops[0]).0, ops[1..])
  }

  /** Same keys and values; dirty means updated after the last sync; no timestamp is in the future. */
  ghost predicate Matches(t: Timed, b: map<string, Bit>, clock: Readings) {
    && (forall k :: k in b <==> k in t.properties)
    && (forall k :: k in b ==> b[k].value == t.properties[k].value)
    && (forall k :: k in b ==> (b[k].dirty <==> t.properties[k].lastUpdate > t.properties[k].lastSync))
    && (forall k :: k in b ==> t.properties[k].lastUpdate < clock(t.taken) && t.properties[k].lastSync < clock(t.taken))
  }

  lemma StepMatches(t: Timed, b: map<string, Bit>, op: Op, clock: Readings)
    requires StrictlyIncreasing(clock) && Matches(t, b, clock)
    ensures Step(t, op, clock).1 == BitStep(b, op).1
    ensures Matches(Step(t, op, clock).0, BitStep(b, op).0, clock)
  {
    assert clock(t.taken) < clock(t.taken + 1) < clock(t.taken + 2) < clock(t.taken + 3);
  }

  /** Under a strictly increasing clock, every sequence of sets and polls answers as one dirty bit
      per property would: a poll yields the latest value if and only if a set changed it since the
      last poll that yielded one. */
  lemma {:induction false} PollIsDirtyFlag(t: Timed, b: map<string, Bit>, ops: seq<Op>, clock: Readings)
    requires StrictlyIncreasing(clock) && Matches(t, b, clock)
    ensures Outputs(t, ops, clock) == BitOutputs(b, ops)
    decreases |ops|
  {
    if ops != [] {
      StepMatches(t, b, ops[0], clock);
      PollIsDirtyFlag(Step(t, ops[0], clock).0, BitStep(b, ops[0]).0, ops[1..], clock);
    }
  }

  /** Nothing is set at the start, whatever the clock shows. */
  lemma PollIsDirtyFlagFromStart(ops: seq<Op>, clock: Readings)
    requires StrictlyIncreasing(clock)
    ensures Outputs(Timed(map[], 0), ops, clock) == BitOutputs(map[], ops)
  {
    PollIsDirtyFlag(Timed(map[], 0), map[], ops, clock);
  }

  /** Without that hypothesis on the clock: right after a set that changes an existing property, a
      poll yields its value if and only if the clock has passed the property's last sync. */
  lemma PollSeesChangeIff(t: Timed, key: string, value: string, clock: Readings)
    requires key in t.properties && Changes(t, key, value)
    ensures Get(DoSet(t, key, value, clock), key) ==
            if clock(t.taken) > t.properties[key].lastSync then Some(value) else None
  {
  }

  /** And right after a set that creates one, if and only if the clock moved between the reading that
      initialised its last sync and the next. */
  lemma FirstPollSeesValueIff(key: string, value: string, clock: Readings)
    ensures Outputs(Timed(map[], 0), [Set(key, value), Poll(key)], clock) ==
            [None, if clock(2) > clock(1) then Some(value) else None]
    ensures BitOutputs(map[], [Set(key, value), Poll(key)]) == [None, Some(value)]
  {
    var ops := [Set(key, value), Poll(key)];
    assert ops[1..] == [Poll(key)] && [Poll(key)][1..] == [];
    var t, b := DoSet(Timed(map[], 0), key, value, clock), map[key := Bit(value, true)];
    assert Outputs(t, [Poll(key)], clock) == [Get(t, key)] + Outputs(DoPoll(t, key, clock), [], clock);
    assert BitOutputs(b, [Poll(key)]) == [Some(value)] + BitOutputs(map[key := Bit(value, false)], []);
  }

  // ---------- exactly which clocks will do ----------

  /** The readings from the first update on never go back, and move wherever an update or a sync is
      compared with an older sync or update. */
  ghost predicate GoodClock(clock: Readings) {
    clock(1) < clock(2) <= clock(3) && forall i: nat, j: nat :: 3 <= i < j ==> clock(i) < clock(j)
  }

  /** As `Matches`, for a clock that is only good: the first set takes the first three readings. */
  ghost predicate GoodMatches(t: Timed, b: map<string, Bit>, clock: Readings) {
    && (forall k :: k in b <==> k in t.properties)
    && (forall k :: k in b ==> b[k].value == t.properties[k].value)
    && (forall k :: k in b ==> (b[k].dirty <==> t.properties[k].lastUpdate > t.properties[k].lastSync))
    && (forall k :: k in b ==>
          t.properties[k].lastUpdate <= clock(t.taken) && t.properties[k].lastSync < clock(t.taken))
    && (t.taken >= 3 || (t.taken == 0 && b == map[]))
  }

  lemma GoodStepMatches(t: Timed, b: map<string, Bit>, op: Op, clock: Readings)
    requires GoodClock(clock) && GoodMatches(t, b, clock)
    ensures Step(t, op, clock).1 == BitStep(b, op).1
    ensures GoodMatches(Step(t, op, clock).0, BitStep(b, op).0, clock)
  {
    if t.taken >= 3 {
      assert clock(t.taken) < clock(t.taken + 1) < clock(t.taken + 2) < clock(t.taken + 3);
    }
  }

  lemma {:induction false} GoodClockIsEnough(t: Timed, b: map<string, Bit>, ops: seq<Op>, clock: Readings)
    requires GoodClock(clock) && GoodMatches(t, b, clock)
    ensures Outputs(t, ops, clock) == BitOutputs(b, ops)
    decreases |ops|
  {
    if ops != [] {
      GoodStepMatches(t, b, ops[0], clock);
      GoodClockIsEnough(Step(t, ops[0], clock).0, BitStep(b, ops[0]).0, ops[1..], clock);
    }
  }

  /** One property set to a, b, a, b, ...: m changes after the first set. */
  function Toggled(m: nat): string {
    if m % 2 == 0 then "a" else "b"
  }

  function Toggles(key: string, m: nat, rest: seq<Op>): seq<Op> {
    if m == 0 then rest else [Set(key, Toggled(m))] + Toggles(key, m - 1, rest)
  }

  /** One property only: its value, its timestamps, and the bit that is set after a change. */
  function Alone(key: string, value: string, update: int, sync: int, taken: nat): Timed {
    Timed(map[key := PropertyInfo(value, update, sync)], taken)
  }

  function Dirty(key: string, value: string): map<string, Bit> {
    map[key := Bit(value, true)]
  }

  ghost predicate AgreeOn(t: Timed, b: map<string, Bit>, ops: seq<Op>, clock: Readings) {
    Outputs(t, ops, clock) == BitOutputs(b, ops)
  }

  /** If the machines agree on m changes followed by rest, they agree on rest from where the changes lead. */
  lemma {:induction false} ToggleThen(key: string, m: nat, taken: nat, update: int, sync: int,
                                      clock: Readings, rest: seq<Op>)
    requires taken > 0
    requires AgreeOn(Alone(key, Toggled(m + 1), update, sync, taken), Dirty(key, Toggled(m + 1)),
                     Toggles(key, m, rest), clock)
    ensures var u := if m == 0 then update else clock(taken + m - 1);
      AgreeOn(Alone(key, Toggled(1), u, sync, taken + m), Dirty(key, Toggled(1)), rest, clock)
  {
    if m > 0 {
      hide AgreeOn, Toggles, Toggled, Step, BitStep, Alone, Dirty;
      var ops := Toggles(key, m, rest);
      TogglesBegin(key, m, rest);
      ToggleOnce(key, m, taken, update, sync, clock);
      SameTail(Alone(key, Toggled(m + 1), update, sync, taken), Dirty(key, Toggled(m + 1)), ops, clock);
      ToggleThen(key, m - 1, taken + 1, clock(taken), sync, clock, rest);
    }
  }

  lemma TogglesBegin(key: string, m: nat, rest: seq<Op>)
    requires m > 0
    ensures var ops := Toggles(key, m, rest);
      ops != [] && ops[0] == Set(key, Toggled(m)) && ops[1..] == Toggles(key, m - 1, rest)
  {
  }

  lemma ToggleOnce(key: string, m: nat, taken: nat, update: int, sync: int, clock: Readings)
    ensures Step(Alone(key, Toggled(m + 1), update, sync, taken), Set(key, Toggled(m)), clock).0 ==
            Alone(key, Toggled(m), clock(taken), sync, taken + 1)
    ensures BitStep(Dirty(key, Toggled(m + 1)), Set(key, Toggled(m))).0 == Dirty(key, Toggled(m))
  {
  }

  /** Same answers to all operations means the same answer to the first and the same answers after it. */
  lemma SameTail(t: Timed, b: map<string, Bit>, ops: seq<Op>, clock: Readings)
    requires ops != [] && AgreeOn(t, b, ops, clock)
    ensures Step(t, ops[0], clock).1 == BitStep(b, ops[0]).1
    ensures AgreeOn(Step(t, ops[0], clock).0, BitStep(b, ops[0]).0, ops[1..], clock)
  {
    var x, y := Outputs(t, ops, clock), BitOutputs(b, ops);
    assert x[0] == y[0] && x[1..] == y[1..];
  }

  ghost predicate AlwaysAgree(clock: Readings) {
    forall ops :: AgreeOn(Timed(map[], 0), map[], ops, clock)
  }

  lemma FirstSet(key: string, value: string, clock: Readings)
    ensures Step(Timed(map[], 0), Set(key, value), clock).0 == Alone(key, value, clock(2), clock(1), 3)
    ensures BitStep(map[], Set(key, value)).0 == Dirty(key, value)
  {
  }

  /** Where m changes of a new property lead. */
  lemma AfterToggles(key: string, m: nat, clock: Readings, rest: seq<Op>)
    requires AlwaysAgree(clock)
    ensures AgreeOn(Alone(key, Toggled(1), clock(m + 2), clock(1), m + 3), Dirty(key, Toggled(1)), rest, clock)
  {
    var ops := Toggles(key, m + 1, rest);
    TogglesBegin(key, m + 1, rest);
    FirstSet(key, Toggled(m + 1), clock);
    assert AgreeOn(Timed(map[], 0), map[], ops, clock);
    hide AlwaysAgree, AgreeOn, Toggles, Toggled, Step, BitStep, Alone, Dirty;
    SameTail(Timed(map[], 0), map[], ops, clock);
    ToggleThen(key, m, 3, clock(2), clock(1), clock, rest);
  }

  /** A poll and a second poll; or a poll, a change and a poll. */
  lemma PollsCompare(key: string, m: nat, clock: Readings)
    requires AlwaysAgree(clock)
    ensures clock(m + 2) > clock(1) && clock(m + 2) <= clock(m + 3) && clock(m + 3) < clock(m + 4)
  {
    var t, b := Alone(key, Toggled(1), clock(m + 2), clock(1), m + 3), Dirty(key, Toggled(1));
    var two, three := [Poll(key), Poll(key)], [Poll(key), Set(key, Toggled(2)), Poll(key)];
    AfterToggles(key, m, clock, two);
    SameTail(t, b, two, clock);
    var u, c := Step(t, Poll(key), clock).0, BitStep(b, Poll(key)).0;
    assert two[1..] == [Poll(key)] && three[1..] == [Set(key, Toggled(2)), Poll(key)];
    SameTail(u, c, two[1..], clock);
    AfterToggles(key, m, clock, three);
    SameTail(t, b, three, clock);
    SameTail(u, c, three[1..], clock);
    assert three[1..][1..] == [Poll(key)];
    SameTail(DoSet(u, key, Toggled(2), clock), BitStep(c, Set(key, Toggled(2))).0, [Poll(key)], clock);
  }

  lemma {:induction false} RisesFromThree(clock: Readings, i: nat, j: nat)
    requires 3 <= i < j && AlwaysAgree(clock)
    ensures clock(i) < clock(j)
    decreases j
  {
    PollsCompare("", j - 4, clock);
    if i < j - 1 {
      RisesFromThree(clock, i, j - 1);
    }
  }

  /** The timestamps answer every sequence of sets and polls as dirty bits would if and only if the clock
      is good: strictly increasing will do, never going back will not. */
  lemma AgreesWithDirtyBitIff(clock: Readings)
    ensures AlwaysAgree(clock) <==> GoodClock(clock)
  {
    if GoodClock(clock) {
      forall ops ensures AgreeOn(Timed(map[], 0), map[], ops, clock) {
        GoodClockIsEnough(Timed(map[], 0), map[], ops, clock);
      }
    }
    if AlwaysAgree(clock) {
      PollsCompare("", 0, clock);
      forall i: nat, j: nat | 3 <= i < j ensures clock(i) < clock(j) {
        RisesFromThree(clock, i, j);
      }
    }
  }

  // ---------- as the code updates it ----------

  class Clock {
    const readings: Readings
    var taken: nat

    constructor (readings: Readings)
      ensures this.readings == readings && taken == 0
    {
      this.readings, taken := readings, 0;
    }

    method Now() returns (now: int)
      modifies this
      ensures now == readings(old(taken)) && taken == old(taken) + 1
    {
      now := readings(taken);
      taken := taken + 1;
    }
  }

  class Properties {
    const clock: Clock
    var properties: map<string, PropertyInfo>

    function View(): Timed
      reads this, clock
    {
      Timed(properties, clock.taken)
    }

    constructor (clock: Clock)
      ensures this.clock == clock && properties == map[]
    {
      this.clock, properties := clock, map[];
    }

    method SetValue(key: string, value: string) returns (changed: bool)
      modifies this, clock
      ensures changed == Changes(old(View()), key, value)
      ensures View() == DoSet(old(View()), key, value, clock.readings)
    {
      changed := key !in properties || properties[key].value != value;
      if changed {
        if key !in properties {
          var update := clock.Now();
          var sync := clock.Now();
          properties := properties[key := PropertyInfo("", update, sync)];
        }
        properties := properties[key := properties[key].(value := value)];
        var now := clock.Now();
        properties := properties[key := properties[key].(lastUpdate := now)];
      }
    }

    method GetUnsynced(key: string) returns (value: Option<string>)
      ensures value == Get(View(), key)
    {
      if key !in properties {
        return None;
      }
      value := if properties[key].lastUpdate > properties[key].lastSync then Some(properties[key].value) else None;
    }

    method AcknowledgeSync(key: string)
      modifies this, clock
      ensures key !in old(properties) ==> View() == old(View())
      ensures key in old(properties) ==>
        View() == Timed(old(properties)[key := old(properties[key]).(lastSync := clock.readings(old(clock.taken)))],
                        old(clock.taken) + 1)
    {
      if key in properties {
        var now := clock.Now();
        properties := properties[key := properties[key].(lastSync := now)];
      }
    }

    method PollUpdate(key: string) returns (value: Option<string>)
      modifies this, clock
      ensures value == Get(old(View()), key)
      ensures View() == DoPoll(old(View()), key, clock.readings)
    {
      value := GetUnsynced(key);
      if value.Some? {
        AcknowledgeSync(key);
      }
    }
  }
}
