/** Quarantine and validity at one peer, whatever happens to it. */
module Quarantine {
  import opened Options
  import opened Peer

  /** Everything that touches a peer's entities. */
  datatype Event =
    | TransferCalled(id: Eid, to: Cid, ignoreNoMove: bool)
    | TakeArrived(id: Eid, to: Cid)
    | DropFired(id: Eid, move: Move)
    | DeleteOrdered(id: Eid)
    | DeleteArrived(id: Eid)                      // a delete order from the network
    | ContainerRemoved(c: Cid, queue: seq<Task>)  // queue: the engine queue it leaves
    | TaskRan
    | Performed(task: Task)                       // a registration or removal asked for directly

  ghost function Apply(s: State, ev: Event): State {
    match ev
    case TransferCalled(e, to, ignore) => Transfer(s, e, to, ignore).0
    case TakeArrived(e, to) => Take(s, e, to)
    case DropFired(e, m) => Drop(s, e, m)
    case DeleteOrdered(e) => DeleteOrder(s, e).0
    case DeleteArrived(e) => DeleteArrives(s, e)
    case ContainerRemoved(c, queue) => s.(entities := MarkAll(s.entities, OwnedBy(s, c)), engine := queue)
    case TaskRan => if s.engine == [] then s else RunTask(s)
    case Performed(t) => Perform(s, t)
  }

  /** The state before event k of a run. */
  ghost function Before(s: State, run: seq<Event>, k: nat): State
    requires k <= |run|
  {
    if k == 0 then s else Apply(Before(s, run, k - 1), run[k - 1])
  }

  /** Event k transfers e, with an effect. */
  ghost predicate Transfers(s: State, run: seq<Event>, k: nat, e: Eid) {
    k < |run| && run[k].TransferCalled? && run[k].id == e &&
    Transferable(Before(s, run, k), e, run[k].to, run[k].ignoreNoMove)
  }

  ghost predicate Takes(run: seq<Event>, k: nat, e: Eid) {
    k < |run| && run[k].TakeArrived? && run[k].id == e
  }

  /** e stays registered from the state before event i to the state before event j. */
  ghost predicate SameRegistration(s: State, run: seq<Event>, i: nat, j: nat, e: Eid) {
    i <= j <= |run| && forall k: nat :: i <= k <= j ==> e in Before(s, run, k).entities
  }

  /** Of all events only a take lifts an entity's quarantine, and none makes it valid again. */
  lemma EventKeepsFlags(s: State, ev: Event, e: Eid)
    requires e in s.entities && e in Apply(s, ev).entities
    ensures s.entities[e].quarantine && !(ev.TakeArrived? && ev.id == e) ==> Apply(s, ev).entities[e].quarantine
    ensures !s.entities[e].isValid ==> !Apply(s, ev).entities[e].isValid
  {
  }

  lemma {:induction false} QuarantineLasts(s: State, run: seq<Event>, i: nat, j: nat, e: Eid)
    requires SameRegistration(s, run, i, j, e) && Before(s, run, i).entities[e].quarantine
    requires forall k :: i <= k < j ==> !Takes(run, k, e)
    ensures Before(s, run, j).entities[e].quarantine
  {
    if i < j {
      assert SameRegistration(s, run, i, j - 1, e) && !Takes(run, j - 1, e);
      QuarantineLasts(s, run, i, j - 1, e);
      assert e in Before(s, run, j).entities;
      hide Apply;
      EventKeepsFlags(Before(s, run, j - 1), run[j - 1], e);
    }
  }

  /** On one registration of an entity, whatever else happens, a take order comes between any two
      effective transfers. */
  lemma TakeBetweenTransfers(s: State, run: seq<Event>, i: nat, j: nat, e: Eid) returns (k: nat)
    requires i < j && Transfers(s, run, i, e) && Transfers(s, run, j, e) && SameRegistration(s, run, i, j, e)
    ensures i < k < j && Takes(run, k, e)
  {
    assert Before(s, run, i + 1) == Apply(Before(s, run, i), run[i]);
    assert SameRegistration(s, run, i + 1, j, e);
    if forall k :: i + 1 <= k < j ==> !Takes(run, k, e) {
      QuarantineLasts(s, run, i + 1, j, e);
      assert false;
    }
    k :| i + 1 <= k < j && Takes(run, k, e);
  }

  /** Once invalid (by a drop, a delete order or a container removal), a registration stays invalid, and
      no transfer of it has an effect again. */
  lemma {:induction false} InvalidStaysInvalid(s: State, run: seq<Event>, i: nat, j: nat, e: Eid)
    requires SameRegistration(s, run, i, j, e) && !Before(s, run, i).entities[e].isValid
    ensures !Before(s, run, j).entities[e].isValid && !Transfers(s, run, j, e)
  {
    if i < j {
      assert SameRegistration(s, run, i, j - 1, e);
      InvalidStaysInvalid(s, run, i, j - 1, e);
      assert e in Before(s, run, j).entities;
      hide Apply;
      EventKeepsFlags(Before(s, run, j - 1), run[j - 1], e);
    }
  }

  /** Those three events do make it invalid: a drop exactly when its target is unknown here. */
  lemma WhatInvalidates(s: State, e: Eid, m: Move, c: Cid, queue: seq<Task>)
    requires e in s.entities && s.entities[e].isValid
    ensures Apply(s, DropFired(e, m)).entities[e].isValid <==> m.to in s.containers
    ensures !Apply(s, DeleteOrdered(e)).entities[e].isValid
    ensures Apply(s, ContainerRemoved(c, queue)).entities[e].isValid <==> s.entities[e].owner != c
  {
  }
}
