/** Subscribing to containers: a component's set of subscriptions against the container registry. */
module Subscription {
  import opened Options
  import opened Peer
  import opened Removal
  import Quarantine

  /** One peer's registries and what each of its components is subscribed to. */
  datatype World = World(peer: State, subs: map<string, set<Cid>>)

  datatype Step =
    | Subscribe(component: string, id: Cid, freshId: Cid, locallyOwned: bool)
    | Unsubscribe(component: string, id: Cid, queue: seq<Task>)  // queue: the engine queue it leaves
    | Happens(event: Quarantine.Event)  // anything else that touches the peer's entities

  function Subscriptions(w: World, component: string): set<Cid> {
    if component in w.subs then w.subs[component] else {}
  }

  ghost predicate Enabled(w: World, s: Step) {
    match s
    case Subscribe(_, _, freshId, _) => freshId !in w.peer.containers && freshId != ""
    case Unsubscribe(_, id, queue) =>
      w.peer.engine <= queue && DeletesExactly(queue[|w.peer.engine|..], OwnedBy(w.peer, id))
    case Happens(event) => !event.ContainerRemoved?
  }

  function DoSubscribe(w: World, component: string, id: Cid, freshId: Cid, locallyOwned: bool): (World, Option<Cid>) {
    var mine := Subscriptions(w, component);
    if id in mine then (w, None)
    else if id in w.peer.containers then (w.(subs := w.subs[component := mine + {id}]), Some(id))
    else
      var c := if id == "" then freshId else id;
      var cell := Container(w.peer.server && locallyOwned, {}, 2);
      (World(w.peer.(containers := w.peer.containers[c := cell]), w.subs[component := mine + {c}]), Some(c))
  }

  ghost function DoUnsubscribe(w: World, component: string, id: Cid, queue: seq<Task>): World {
    var mine := Subscriptions(w, component);
    if id !in mine then w
    else
      var s := w.peer;
      var peer := if id !in s.containers then s
        else s.(containers := s.containers - {id}, entities := MarkAll(s.entities, OwnedBy(s, id)), engine := queue);
      World(peer, w.subs[component := mine - {id}])
  }

  ghost function Execute(w: World, s: Step): World
    requires Enabled(w, s)
  {
    match s
    case Subscribe(component, id, freshId, locallyOwned) => DoSubscribe(w, component, id, freshId, locallyOwned).0
    case Unsubscribe(component, id, queue) => DoUnsubscribe(w, component, id, queue)
    case Happens(event) => w.(peer := Quarantine.Apply(w.peer, event))
  }

  ghost predicate Possible(server: bool, steps: seq<Step>)
    decreases |steps|, 0
  {
    steps == [] || (Possible(server, steps[..|steps| - 1]) &&
                    Enabled(After(server, steps[..|steps| - 1]), steps[|steps| - 1]))
  }

  ghost function After(server: bool, steps: seq<Step>): World
    requires Possible(server, steps)
    decreases |steps|, 1
  {
    if steps == [] then World(State(server, map[], map[], [], {}), map[])
    else Execute(After(server, steps[..|steps| - 1]), steps[|steps| - 1])
  }

  ghost predicate OneComponent(component: string, steps: seq<Step>) {
    forall s :: s in steps ==> s.Happens? || s.component == component
  }

  /** Reference reading of a run: a container is owned here if the peer is a server and the latest subscribe
      that created the container asked for it. */
  ghost predicate OwnedSince(server: bool, steps: seq<Step>, c: Cid)
    requires Possible(server, steps)
    decreases |steps|
  {
    steps != [] &&
    var before, s := steps[..|steps| - 1], steps[|steps| - 1];
    if s.Subscribe? && c == (if s.id == "" then s.freshId else s.id) && c !in After(server, before).peer.containers
    then server && s.locallyOwned
    else OwnedSince(server, before, c)
  }

  /** While one component does all subscribing on a peer, whatever transfers, takes, drops, registrations,
      deletions and engine tasks come between: in every reachable state it is subscribed to exactly the
      registered containers, and each of them has reference count two and is owned here exactly if the subscribe
      that created it said so. */
  lemma {:induction false} OneComponentMatchesRegistry(server: bool, component: string, steps: seq<Step>)
    requires Possible(server, steps) && OneComponent(component, steps)
    ensures var w := After(server, steps);
      && Subscriptions(w, component) == w.peer.containers.Keys
      && w.peer.server == server && "" !in w.peer.containers
      && (forall c :: c in w.peer.containers ==> w.peer.containers[c].refCount == 2)
      && (forall c :: c in w.peer.containers ==> (w.peer.containers[c].locallyOwned <==> OwnedSince(server, steps, c)))
  {
    if steps != [] {
      OneComponentMatchesRegistry(server, component, steps[..|steps| - 1]);
      var w, s := After(server, steps[..|steps| - 1]), steps[|steps| - 1];
      assert s in steps;
      if s.Happens? {
        EventKeepsContainers(w.peer, s.event);
      }
    }
  }

  lemma EventKeepsContainers(s: State, event: Quarantine.Event)
    requires !event.ContainerRemoved?
    ensures var v := Quarantine.Apply(s, event);
      v.server == s.server && v.containers.Keys == s.containers.Keys && forall c :: c in s.containers ==>
        v.containers[c].refCount == s.containers[c].refCount &&
        v.containers[c].locallyOwned == s.containers[c].locallyOwned
  {
  }

  lemma UnsubscribeIsRemoval(w: World, component: string, id: Cid, queue: seq<Task>)
    requires Enabled(w, Unsubscribe(component, id, queue))
    requires id in Subscriptions(w, component) && id in w.peer.containers
    ensures var v := DoUnsubscribe(w, component, id, queue);
      id !in v.peer.containers && Removed(w.peer, id, v.peer)
  {
  }

  /** An effective unsubscribe, once the engine has drained, leaves no entity of the container behind if no
      creation in it was queued; in general if and only if each entity's last queued creation is for another
      container or is undone by a later deletion; and when nothing else is queued for such entities, if and only
      if the container already has them. */
  lemma UnsubscribeRemovesEntities(w: World, component: string, id: Cid, queue: seq<Task>)
    requires Enabled(w, Unsubscribe(component, id, queue))
    requires id in Subscriptions(w, component) && id in w.peer.containers
    ensures var v := DoUnsubscribe(w, component, id, queue); var engine := w.peer.engine;
      && id !in v.peer.containers
      && ((forall e :: Instantiate(e, id) !in engine) ==> OwnedBy(Drain(v.peer), id) == {})
      && (OwnedBy(Drain(v.peer), id) == {} <==>
            forall e :: Instantiate(e, id) in engine ==> !CreatedAgain(w.peer, id, e))
      && ((forall e :: Instantiate(e, id) in engine ==> |TasksOf(engine, e)| <= 1) ==>
            (OwnedBy(Drain(v.peer), id) == {} <==>
             forall e :: Instantiate(e, id) in engine ==> e in OwnedBy(w.peer, id)))
  {
    hide DoUnsubscribe, Drain, OwnedBy, CreatedAgain;
    var v := DoUnsubscribe(w, component, id, queue);
    UnsubscribeIsRemoval(w, component, id, queue);
    NoneLeftIff(w.peer, id, v.peer);
    if forall e :: Instantiate(e, id) in w.peer.engine ==> |TasksOf(w.peer.engine, e)| <= 1 {
      NoneLeftIffCreatedOnce(w.peer, id, v.peer);
    }
  }

  /** For example: a take order for an unknown entity arrives, and the peer unsubscribes before its engine has
      run.  The entity is then created in a container that is no longer registered. */
  lemma QueuedCreationOutlivesContainer(c: Cid, freshId: Cid, e: Eid)
    requires c != "" && freshId != ""
    ensures var steps := [Subscribe("a", c, freshId, false), Happens(Quarantine.TakeArrived(e, c)),
                          Unsubscribe("a", c, [Instantiate(e, c)])];
      && Possible(false, steps)
      && c !in After(false, steps).peer.containers && e in OwnedBy(Drain(After(false, steps).peer), c)
  {
    var take := Quarantine.TakeArrived(e, c);
    var s1, s2, s3 := Subscribe("a", c, freshId, false), Happens(take), Unsubscribe("a", c, [Instantiate(e, c)]);
    assert [s1][..0] == [] && [s1, s2][..1] == [s1] && [s1, s2, s3][..2] == [s1, s2];
    var w0 := World(State(false, map[], map[], [], {}), map[]);
    var w1 := DoSubscribe(w0, "a", c, freshId, false).0;
    var w2 := w1.(peer := Quarantine.Apply(w1.peer, take));
    assert Possible(false, []) && After(false, []) == w0;
    assert Possible(false, [s1]) && After(false, [s1]) == w1;
    assert Possible(false, [s1, s2]) && After(false, [s1, s2]) == w2;
    assert w2.peer.engine == [Instantiate(e, c)] && OwnedBy(w2.peer, c) == {};
    assert Enabled(w2, s3);
    CreatesOutside(DoUnsubscribe(w2, "a", c, [Instantiate(e, c)]).peer, e, c);
  }

  lemma CreatesOutside(s: State, e: Eid, c: Cid)
    requires s.engine == [Instantiate(e, c)]
    ensures Drain(s).containers == s.containers && e in OwnedBy(Drain(s), c)
  {
    assert s.engine[1..] == [] && Drain(RunTask(s)) == RunTask(s);
  }

  /** With only deletions queued, as by earlier unsubscribes, it takes no other valid entity away. */
  lemma UnsubscribeAmongDeletions(w: World, component: string, id: Cid, queue: seq<Task>)
    requires Enabled(w, Unsubscribe(component, id, queue)) && OnlyDeletes(w.peer.engine)
    requires id in Subscriptions(w, component) && id in w.peer.containers
    ensures var d := Drain(DoUnsubscribe(w, component, id, queue).peer);
      && d.entities == w.peer.entities - OwnedBy(w.peer, id) - Doomed(w.peer)
      && d.ghosts == w.peer.ghosts - OwnedBy(w.peer, id) - Doomed(w.peer)
    ensures DrainThrows(DoUnsubscribe(w, component, id, queue).peer) <==>
            exists e :: Delete(e) in w.peer.engine && e in w.peer.entities
                        && w.peer.entities[e].isValid && w.peer.entities[e].owner != id
  {
    hide DoUnsubscribe, Drain, OwnedBy, Doomed;
    UnsubscribeIsRemoval(w, component, id, queue);
    RemovalAmongDeletions(w.peer, id, DoUnsubscribe(w, component, id, queue).peer);
  }

  /** What the documentation promises when several components share the registry: a container stays
      registered while any component is subscribed to it. */
  ghost predicate SubscribedIsRegistered(w: World) {
    forall x, c :: x in w.subs && c in w.subs[x] ==> c in w.peer.containers
  }

  lemma SubscribeKeepsPromise(w: World, s: Step)
    requires SubscribedIsRegistered(w) && Enabled(w, s) && s.Subscribe?
    ensures SubscribedIsRegistered(Execute(w, s))
  {
  }

  /** The count is decremented but never looked at: an effective unsubscribe keeps the promise if and
      only if no other component is subscribed to the container. */
  lemma UnsubscribeKeepsPromiseIff(w: World, component: string, id: Cid, queue: seq<Task>)
    requires SubscribedIsRegistered(w) && id in Subscriptions(w, component)
    ensures SubscribedIsRegistered(DoUnsubscribe(w, component, id, queue)) <==>
            forall x :: x in w.subs && x != component ==> id !in w.subs[x]
  {
    var v := DoUnsubscribe(w, component, id, queue);
    if x :| x in w.subs && x != component && id in w.subs[x] {
      assert x in v.subs && id in v.subs[x] && id !in v.peer.containers;
    }
  }

  /** Two components subscribe to the same container and one leaves: the other loses it as well. */
  lemma SharedContainerIsLost(c: Cid, freshId: Cid)
    requires c != "" && freshId != "" && freshId != c
    ensures var steps := [Subscribe("a", c, freshId, false), Subscribe("b", c, freshId, false),
                          Unsubscribe("a", c, [])];
      Possible(true, steps) && !SubscribedIsRegistered(After(true, steps))
  {
    var s1, s2, s3 := Subscribe("a", c, freshId, false), Subscribe("b", c, freshId, false), Unsubscribe("a", c, []);
    assert [s1][..0] == [] && [s1, s2][..1] == [s1] && [s1, s2, s3][..2] == [s1, s2];
    var w0 := World(State(true, map[], map[], [], {}), map[]);
    var w1 := DoSubscribe(w0, "a", c, freshId, false).0;
    var w2 := DoSubscribe(w1, "b", c, freshId, false).0;
    assert Possible(true, []) && After(true, []) == w0;
    assert Possible(true, [s1]) && After(true, [s1]) == w1;
    assert Possible(true, [s1, s2]) && After(true, [s1, s2]) == w2;
    assert OwnedBy(w2.peer, c) == {};
    var w3 := DoUnsubscribe(w2, "a", c, []);
    assert "b" in w3.subs && c in w3.subs["b"] && c !in w3.peer.containers;
  }

  // ---------- as the code updates it ----------

  class SubscriptionComponent {
    const registry: PeerRegistries
    var subscriptions: set<Cid>

    constructor (registry: PeerRegistries)
      ensures this.registry == registry && subscriptions == {}
    {
      this.registry, subscriptions := registry, {};
    }

    /** This component's view of the world, under the name x. */
    ghost function View(x: string): World
      reads this, registry
    {
      World(registry.View(), map[x := subscriptions])
    }

    method SubscribeTo(id: Cid, freshId: Cid, locallyOwned: bool, ghost x: string) returns (r: Option<Cid>)
      requires freshId !in registry.containers && freshId != ""
      modifies this, registry`containers
      ensures (View(x), r) == DoSubscribe(old(View(x)), x, id, freshId, locallyOwned)
      ensures id in old(subscriptions) ==> r == None && View(x) == old(View(x))
      ensures id !in old(subscriptions) ==>
        && r.Some? && (id != "" || id in old(registry.containers) ==> r.value == id)
        && subscriptions == old(subscriptions) + {r.value}
        && (id in old(registry.containers) ==> registry.containers == old(registry.containers))
        && (id !in old(registry.containers) ==>
              r.value !in old(registry.containers) &&
              registry.containers == old(registry.containers)
                                     [r.value := Container(registry.server && locallyOwned, {}, 2)])
    {
      if id in subscriptions {
        return None;
      }
      var c, created := registry.CreateContainerIfNotExists(id, freshId);
      subscriptions := subscriptions + {c};
      if created {
        var cell := registry.containers[c];
        cell := cell.(refCount := cell.refCount + 1, locallyOwned := registry.server && locallyOwned);
        registry.containers := registry.containers[c := cell];
      }
      r := Some(c);
      ghost var cell := Container(registry.server && locallyOwned, {}, 2);
      assert registry.containers == if created then old(registry.containers)[c := cell] else old(registry.containers);
      assert View(x).subs == old(View(x)).subs[x := subscriptions];
    }

    method UnsubscribeFrom(id: Cid, ghost x: string)
      modifies this, registry`containers, registry`entities, registry`engine
      ensures View(x) == DoUnsubscribe(old(View(x)), x, id, registry.engine)
      ensures id in old(subscriptions) && id in old(registry.containers) ==>
        Enabled(old(View(x)), Unsubscribe(x, id, registry.engine))
    {
      if id !in subscriptions {
        return;
      }
      hide MarkAll, DeletesExactly, OwnedBy;
      subscriptions := subscriptions - {id};
      ghost var before := registry.View();
      DecRefCount(id);
      SameOwned(before, registry.View(), id);
      registry.UpdateRefCount(id);
      if id in before.containers {
        assert registry.containers == before.containers - {id};
      }
      assert View(x).subs == old(View(x)).subs[x := subscriptions];
    }

    method DecRefCount(id: Cid)
      modifies registry`containers
      ensures id !in old(registry.containers) ==> registry.containers == old(registry.containers)
      ensures id in old(registry.containers) ==> var cell := old(registry.containers[id]);
        registry.containers == old(registry.containers)[id := cell.(refCount := cell.refCount - 1)]
    {
      if id in registry.containers {
        var cell := registry.containers[id];
        registry.containers := registry.containers[id := cell.(refCount := cell.refCount - 1)];
      }
    }
  }

  lemma SameOwned(s: State, t: State, c: Cid)
    requires t.entities == s.entities
    ensures OwnedBy(t, c) == OwnedBy(s, c)
  {
  }
}
