/** The caller's side of a remote call: the table of promises and the retry loop. */
module RpcCaller {

  type Id = string

  /** A decoded response; a null one stands for a remote error. */
  datatype Reply = Null | Json(value: string)

  // ---------- promise table ----------

  datatype Completion = Completed(reply: Reply) | Broken

  /** One completion: which promise, under which id it was stored, and with what. */
  datatype Done = Done(promise: nat, id: Id, completion: Completion)

  /** Promises are numbered in the order they are installed. */
  datatype Table = Table(promises: map<Id, nat>, done: seq<Done>, next: nat)

  const EMPTY := Table(map[], [], 0)

  datatype TableOp = Install(id: Id) | Solve(id: Id, reply: Reply) | Forget(id: Id)

  function Complete(t: Table, id: Id, c: Completion): Table {
    if id in t.promises then Table(t.promises - {id}, t.done + [Done(t.promises[id], id, c)], t.next) else t
  }

  function Apply(t: Table, op: TableOp): Table {
    match op
    case Install(id) => Table(t.promises[id := t.next], t.done, t.next + 1)
    case Solve(id, reply) => Complete(t, id, Completed(reply))
    case Forget(id) => Complete(t, id, Broken)
  }

  function ApplyAll(ops: seq<TableOp>): Table {
    if ops == [] then EMPTY else Apply(ApplyAll(ops[..|ops| - 1]), ops[|ops| - 1])
  }

  /** Stored promises are distinct and uncompleted, and no promise was completed twice. */
  ghost predicate Sound(t: Table) {
    && (forall a, b :: a in t.promises && b in t.promises && t.promises[a] == t.promises[b] ==> a == b)
    && (forall a :: a in t.promises ==> t.promises[a] < t.next)
    && (forall i :: 0 <= i < |t.done| ==> t.done[i].promise < t.next)
    && (forall a, i :: a in t.promises && 0 <= i < |t.done| ==> t.done[i].promise != t.promises[a])
    && (forall i, j :: 0 <= i < j < |t.done| ==> t.done[i].promise != t.done[j].promise)
  }

  lemma ApplyKeepsSound(t: Table, op: TableOp)
    requires Sound(t)
    ensures Sound(Apply(t, op))
    ensures t.done <= Apply(t, op).done && |Apply(t, op).done| <= |t.done| + 1
    ensures forall a :: a != op.id ==>
      (a in Apply(t, op).promises <==> a in t.promises) &&
      (a in t.promises ==> Apply(t, op).promises[a] == t.promises[a])
  {
    if !op.Install? && op.id in t.promises {
      CompleteKeepsSound(t, op.id, if op.Solve? then Completed(op.reply) else Broken);
    }
  }

  lemma CompleteKeepsSound(t: Table, id: Id, c: Completion)
    requires Sound(t) && id in t.promises
    ensures Sound(Complete(t, id, c))
  {
    var done := Complete(t, id, c).done;
    assert forall i :: 0 <= i < |done| ==> done[i] == if i < |t.done| then t.done[i] else Done(t.promises[id], id, c);
  }

  function Installs(ops: seq<TableOp>): nat {
    if ops == [] then 0 else Installs(ops[..|ops| - 1]) + if ops[|ops| - 1].Install? then 1 else 0
  }

  /** Reference reading of a run, one id at a time: the promise waiting under id is the one of the
      latest install of id, unless a reply or a forget for id came after it. */
  function Waiting(ops: seq<TableOp>, id: Id): (p: int)
    ensures -1 <= p
  {
    if ops == [] then -1
    else
      var rest, op := ops[..|ops| - 1], ops[|ops| - 1];
      if op.id != id then Waiting(rest, id) else if op.Install? then Installs(rest) else -1
  }

  lemma {:induction false} RunIsSound(ops: seq<TableOp>)
    ensures Sound(ApplyAll(ops))
  {
    if ops != [] {
      RunIsSound(ops[..|ops| - 1]);
      ApplyKeepsSound(ApplyAll(ops[..|ops| - 1]), ops[|ops| - 1]);
    }
  }

  lemma {:induction false} StoredIsWaiting(ops: seq<TableOp>, id: Id)
    ensures ApplyAll(ops).next == Installs(ops)
    ensures id in ApplyAll(ops).promises <==> Waiting(ops, id) >= 0
    ensures id in ApplyAll(ops).promises ==> ApplyAll(ops).promises[id] == Waiting(ops, id)
  {
    if ops != [] {
      StoredIsWaiting(ops[..|ops| - 1], id);
    }
  }

  /** Over every run of installs, replies, duplicates and forgets: no promise is completed twice, and
      a reply or forget completes exactly the promise waiting under its own id, if there is one. */
  lemma EveryRunIsSound(ops: seq<TableOp>, op: TableOp)
    ensures var done := ApplyAll(ops + [op]).done;
      forall i, j :: 0 <= i < j < |done| ==> done[i].promise != done[j].promise
    ensures ApplyAll(ops + [op]).done == ApplyAll(ops).done +
      if op.Install? || Waiting(ops, op.id) < 0 then []
      else [Done(Waiting(ops, op.id), op.id, if op.Solve? then Completed(op.reply) else Broken)]
    ensures forall id :: id != op.id ==> Waiting(ops + [op], id) == Waiting(ops, id)
  {
    RunIsSound(ops + [op]);
    StoredIsWaiting(ops, op.id);
    assert (ops + [op])[..|ops|] == ops;
  }

  ghost function Outcomes(done: seq<Done>): map<nat, Completion> {
    if done == [] then map[]
    else Outcomes(done[..|done| - 1])[done[|done| - 1].promise := done[|done| - 1].completion]
  }

  lemma {:induction false} NotYetCompleted(done: seq<Done>, promise: nat)
    ensures promise in Outcomes(done) <==> exists i :: 0 <= i < |done| && done[i].promise == promise
  {
    if done != [] {
      NotYetCompleted(done[..|done| - 1], promise);
    }
  }

  /** The table as the caller stub updates it; `outcomes` is what each promise was completed with. */
  class CallerStub {
    var promises: map<Id, nat>
    var outcomes: map<nat, Completion>
    var next: nat
    ghost var done: seq<Done>

    ghost function View(): Table
      reads this
    {
      Table(promises, done, next)
    }

    ghost predicate Valid()
      reads this
    {
      && Sound(View())
      && outcomes == Outcomes(done)
    }

    constructor ()
      ensures Valid() && View() == EMPTY
    {
      promises, outcomes, next, done := map[], map[], 0, [];
    }

    /** Stores a fresh promise under the id, abandoning any older one stored there. */
    method InstallPromise(id: Id) returns (promise: nat)
      requires Valid()
      modifies this
      ensures Valid() && View() == Apply(old(View()), Install(id))
      ensures promises == old(promises)[id := promise] && outcomes == old(outcomes)
      ensures promise !in outcomes && forall a :: a in old(promises) ==> old(promises)[a] != promise
    {
      ApplyKeepsSound(View(), Install(id));
      NotYetCompleted(done, next);
      promise := next;
      promises, next := promises[id := next], next + 1;
    }

    method SolvePromise(id: Id, reply: Reply)
      requires Valid()
      modifies this
      ensures Valid() && View() == Apply(old(View()), Solve(id, reply))
      ensures promises == old(promises) - {id}
      ensures outcomes == if id in old(promises) then old(outcomes)[old(promises)[id] := Completed(reply)]
                          else old(outcomes)
    {
      ApplyKeepsSound(View(), Solve(id, reply));
      if id in promises {
        NotYetCompleted(done, promises[id]);
        SetOutcome(promises[id], Completed(reply), id);
        promises := promises - {id};
      }
    }

    method ForgetPromise(id: Id)
      requires Valid()
      modifies this
      ensures Valid() && View() == Apply(old(View()), Forget(id))
      ensures promises == old(promises) - {id}
      ensures outcomes == if id in old(promises) then old(outcomes)[old(promises)[id] := Broken] else old(outcomes)
    {
      ApplyKeepsSound(View(), Forget(id));
      if id in promises {
        NotYetCompleted(done, promises[id]);
        SetOutcome(promises[id], Broken, id);
        promises := promises - {id};
      }
    }

    /** Completing a promise a second time would throw: hence the precondition. */
    method SetOutcome(promise: nat, c: Completion, ghost id: Id)
      requires promise !in outcomes && outcomes == Outcomes(done)
      modifies this`outcomes, this`done
      ensures outcomes == Outcomes(done) == old(outcomes)[promise := c]
      ensures done == old(done) + [Done(promise, id, c)]
    {
      outcomes := outcomes[promise := c];
      done := done + [Done(promise, id, c)];
      assert done[..|done| - 1] == old(done);
    }
  }

  // ---------- retries ----------

  datatype Attempt = SendFailed | TimedOut | NullAnswer | Undecodable | Answer(value: string)

  datatype Result = Value(value: string) | Nothing | CallbackThrew | LogicError

  function Tries(retry: int): (n: nat)
    ensures n >= 1 && n == (if retry > 0 then retry else 0) + 1
  {
    if retry <= 0 then 1 else retry + 1
  }

  /** The first k attempts all failed. */
  ghost predicate AllFail(outcome: nat -> Attempt, from: nat, k: nat) {
    forall i: nat :: from <= i < from + k ==> !outcome(i).Answer?
  }

  /** A blocking call.  `attempts` records the id each attempt was sent with. */
  class CallObject {
    const calledOnMultiplePeers: bool
    const callbackThrows: bool
    var retry: int
    var attempts: seq<Id>
    var callbacks: nat

    constructor (retry: int, calledOnMultiplePeers: bool, callbackThrows: bool)
      ensures this.retry == retry && attempts == [] && callbacks == 0
      ensures this.calledOnMultiplePeers == calledOnMultiplePeers && this.callbackThrows == callbackThrows
    {
      this.retry, attempts, callbacks := retry, [], 0;
      this.calledOnMultiplePeers, this.callbackThrows := calledOnMultiplePeers, callbackThrows;
    }

    /** What a call has done, given how its attempts (numbered from `from`) turn out. */
    ghost predicate Finished(outcome: nat -> Attempt, uuid: Id, from: nat, retry: int, r: Result)
      reads this
    {
      var made := |attempts| - from;
      && 0 <= made <= Tries(retry)
      && (forall i :: from <= i < |attempts| ==> attempts[i] == uuid)
      && (calledOnMultiplePeers <==> r == LogicError)
      && (calledOnMultiplePeers <==> made == 0)
      && (!calledOnMultiplePeers ==>
            && AllFail(outcome, from, made - 1)
            && (r.Value? ==> outcome(from + made - 1) == Answer(r.value))
            && (!r.Value? ==> made == Tries(retry) && AllFail(outcome, from, made))
            && (!r.Value? ==> r == if callbackThrows then CallbackThrew else Nothing))
    }

    /** At most Tries(retry) attempts, all with the same id; the first answer is returned; without
        one the callback runs, once, after the last attempt. */
    method Call(uuid: Id, outcome: nat -> Attempt) returns (r: Result)
      modifies this
      ensures old(attempts) <= attempts
      ensures Finished(outcome, uuid, |old(attempts)|, old(retry), r)
      ensures callbacks == old(callbacks) + if r == Nothing || r == CallbackThrew then 1 else 0
      decreases Tries(retry), 1
    {
      if calledOnMultiplePeers {
        return LogicError;
      }
      var o := outcome(|attempts|);
      attempts := attempts + [uuid];
      if o.Answer? {
        return Value(o.value);
      }
      r := HandleFailure(uuid, outcome);
    }

    method HandleFailure(uuid: Id, outcome: nat -> Attempt) returns (r: Result)
      requires !calledOnMultiplePeers
      modifies this
      ensures old(attempts) <= attempts
      ensures old(retry) > 0 ==> Finished(outcome, uuid, |old(attempts)|, old(retry) - 1, r)
      ensures old(retry) <= 0 ==> attempts == old(attempts) && r == if callbackThrows then CallbackThrew else Nothing
      ensures callbacks == old(callbacks) + if r == Nothing || r == CallbackThrew then 1 else 0
      decreases Tries(retry), 0
    {
      if retry > 0 {
        retry := retry - 1;
        r := Call(uuid, outcome);
      } else {
        callbacks := callbacks + 1;
        r := if callbackThrows then CallbackThrew else Nothing;
      }
    }
  }
}
