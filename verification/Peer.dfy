/** One peer's registries: the entities it holds, the containers it subscribes to, the tasks it has
    queued for its engine and the entities it keeps ghost properties for. */
module Peer {
  import opened Options
  import opened Maps

  type Eid = string
  type Cid = string

  datatype Entity = Entity(owner: Cid, quarantine: bool, isValid: bool)

  /** A registered container's cell.  `owned` is its index of entities, kept on servers only. */
  datatype Container = Container(locallyOwned: bool, owned: set<Eid>, refCount: int)

  datatype Task =
    | Instantiate(id: Eid, container: Cid)  // create the entity, then overlay its ghost properties
    | Delete(id: Eid)                       // unregister an entity
    | Invalidate(id: Eid)                   // a delete order from the network

  datatype State = State(
    server: bool,
    entities: map<Eid, Entity>,
    containers: map<Cid, Container>,
    engine: seq<Task>,
    ghosts: set<Eid>)

  /** An entity's move between containers, as carried by take and drop orders. */
  datatype Move = Move(from: Cid, to: Cid)

  // ---------- what each operation does ----------

  predicate Transferable(s: State, e: Eid, to: Cid, ignoreNoMove: bool) {
    e in s.entities && !s.entities[e].quarantine && s.entities[e].isValid &&
    (s.entities[e].owner == to ==> ignoreNoMove)
  }

  /** An effective transfer quarantines the entity; only a server then sends the two orders. */
  function Transfer(s: State, e: Eid, to: Cid, ignoreNoMove: bool): (State, Option<Move>) {
    if !Transferable(s, e, to, ignoreNoMove) then (s, None)
    else (s.(entities := s.entities[e := s.entities[e].(quarantine := true)]),
          if s.server then Some(Move(s.entities[e].owner, to)) else None)
  }

  function Index(s: State, c: Cid, e: Eid): map<Cid, Container> {
    if s.server && c in s.containers
    then s.containers[c := s.containers[c].(owned := s.containers[c].owned + {e})] else s.containers
  }

  function Unindex(s: State, c: Cid, e: Eid): map<Cid, Container> {
    if s.server && c in s.containers
    then s.containers[c := s.containers[c].(owned := s.containers[c].owned - {e})] else s.containers
  }

  function Take(s: State, e: Eid, to: Cid): State {
    var held := e in s.entities;
    s.(entities := if held then s.entities[e := s.entities[e].(owner := to, quarantine := false)] else s.entities,
       engine := if held then s.engine else s.engine + [Instantiate(e, to)],
       containers := Index(s, to, e))
  }

  /** A drop order firing: without the target container here, the entity goes. */
  function Drop(s: State, e: Eid, m: Move): State {
    if e !in s.entities then s
    else
      var stays := m.to in s.containers;
      s.(entities := if stays then s.entities
                     else s.entities[e := s.entities[e].(quarantine := true, isValid := false)],
         engine := if stays then s.engine else s.engine + [Delete(e)],
         containers := if m.from != m.to then Unindex(s, m.from, e) else s.containers)
  }

  /** Unregistering a valid entity throws. */
  predicate Throws(s: State, t: Task) {
    t.Delete? && t.id in s.entities && s.entities[t.id].isValid
  }

  function Perform(s: State, t: Task): State {
    match t
    case Instantiate(id, c) =>
      s.(entities := if id in s.entities then s.entities[id := s.entities[id].(owner := c)]
                     else s.entities[id := Entity(c, false, true)],
         ghosts := s.ghosts + {id})
    case Delete(id) =>
      if id !in s.entities || Throws(s, t) then s
      else s.(entities := s.entities - {id}, ghosts := s.ghosts - {id})
    case Invalidate(id) =>
      if id in s.entities then s.(entities := s.entities[id := s.entities[id].(isValid := false)]) else s
  }

  function RunTask(s: State): State
    requires s.engine != []
  {
    Perform(s, s.engine[0]).(engine := s.engine[1..])
  }

  /** A server asks for an entity to be deleted everywhere; yields the container to announce it on. */
  function DeleteOrder(s: State, e: Eid): (State, Option<Cid>) {
    if e !in s.entities || !s.entities[e].isValid then (s, None)
    else
      var c := s.entities[e].owner;
      (s.(entities := s.entities[e := s.entities[e].(quarantine := true, isValid := false)]),
       if c in s.containers && s.containers[c].locallyOwned then Some(c) else None)
  }

  /** The order announced on the container's topic reaches a subscriber. */
  function DeleteArrives(s: State, e: Eid): State {
    s.(engine := s.engine + [Invalidate(e)])
  }

  /** Tasks about one entity, in queue order. */
  function TasksOf(engine: seq<Task>, e: Eid): seq<Task> {
    if engine == [] then []
    else (if engine[0].id == e then [engine[0]] else []) + TasksOf(engine[1..], e)
  }

  lemma {:induction false} TasksOfAppend(engine: seq<Task>, t: Task, e: Eid)
    ensures TasksOf(engine + [t], e) == TasksOf(engine, e) + if t.id == e then [t] else []
  {
    var all := engine + [t];
    if engine == [] {
      assert all == [t] && all[1..] == [];
    } else {
      var rest := engine[1..];
      var first, last := if engine[0].id == e then [engine[0]] else [], if t.id == e then [t] else [];
      assert all[0] == engine[0] && all[1..] == rest + [t];
      TasksOfAppend(rest, t, e);
      assert first + (TasksOf(rest, e) + last) == (first + TasksOf(rest, e)) + last;
    }
  }

  function OwnedBy(s: State, c: Cid): set<Eid> {
    set e | e in s.entities && s.entities[e].owner == c
  }

  function Mark(x: Entity): Entity {
    x.(quarantine := true, isValid := false)
  }

  ghost function MarkAll(entities: map<Eid, Entity>, gone: set<Eid>): (marked: map<Eid, Entity>)
    ensures marked.Keys == entities.Keys
    ensures forall e :: e in entities ==> marked[e] == if e in gone then Mark(entities[e]) else entities[e]
  {
    entities + Tabulate(entities.Keys * gone, e => if e in entities then Mark(entities[e]) else Entity("", true, false))
  }

  // ---------- as the code updates them ----------

  class PeerRegistries {
    const server: bool
    var entities: map<Eid, Entity>
    var containers: map<Cid, Container>
    var engine: seq<Task>
    var ghosts: set<Eid>

    function View(): State
      reads this
    {
      State(server, entities, containers, engine, ghosts)
    }

    constructor (server: bool)
      ensures View() == State(server, map[], map[], [], {})
    {
      this.server := server;
      entities, containers, engine, ghosts := map[], map[], [], {};
    }

    /** Refused, without a trace, for an unknown, quarantined or invalid entity and for one that is there
        already, unless told to ignore that; else the entity is quarantined, and a server sends the move. */
    method TransferAuthority(e: Eid, to: Cid, ignoreNoMove: bool) returns (order: Option<Move>)
      modifies this`entities
      ensures (View(), order) == Transfer(old(View()), e, to, ignoreNoMove)
      ensures e !in old(entities) ==> entities == old(entities) && order == None
      ensures e in old(entities) ==> var x := old(entities[e]);
        if x.quarantine || !x.isValid || (x.owner == to && !ignoreNoMove) then
          entities == old(entities) && order == None
        else
          entities == old(entities)[e := Entity(x.owner, true, true)] &&
          order == if server then Some(Move(x.owner, to)) else None
    {
      if e !in entities {
        return None;
      }
      var x := entities[e];
      if x.quarantine || !x.isValid || (x.owner == to && !ignoreNoMove) {
        return None;
      }
      entities := entities[e := x.(quarantine := true)];
      order := if server then Some(Move(x.owner, to)) else None;
    }

    method ExecTakeOrder(e: Eid, to: Cid)
      modifies this
      ensures View() == Take(old(View()), e, to)
    {
      if e in entities {
        entities := entities[e := entities[e].(owner := to, quarantine := false)];
      }
      if e !in entities {
        engine := engine + [Instantiate(e, to)];
      }
      if server && to in containers {
        containers := containers[to := containers[to].(owned := containers[to].owned + {e})];
      }
    }

    method FireDropOrder(e: Eid, m: Move)
      modifies this
      ensures View() == Drop(old(View()), e, m)
    {
      if e !in entities {
        return;
      }
      if m.to !in containers {
        entities := entities[e := entities[e].(isValid := false, quarantine := true)];
      }
      if server && m.from != m.to && m.from in containers {
        containers := containers[m.from := containers[m.from].(owned := containers[m.from].owned - {e})];
      }
      if m.to !in containers {
        engine := engine + [Delete(e)];
      }
    }

    /** What the engine does with the next task; an exception leaves the registries as they are. */
    method RunEngineTask() returns (threw: bool)
      requires engine != []
      modifies this
      ensures View() == RunTask(old(View()))
      ensures threw <==> Throws(old(View()), old(engine)[0])
    {
      var t := engine[0];
      engine := engine[1..];
      threw := false;
      match t
      case Instantiate(id, c) =>
        if id in entities {
          entities := entities[id := entities[id].(owner := c)];
        } else {
          entities := entities[id := Entity(c, false, true)];
        }
        ghosts := ghosts + {id};
      case Delete(id) =>
        if id in entities {
          if entities[id].isValid {
            threw := true;
          } else {
            entities := entities - {id};
            ghosts := ghosts - {id};
          }
        }
      case Invalidate(id) =>
        if id in entities {
          entities := entities[id := entities[id].(isValid := false)];
        }
    }

    /** A valid entity is marked; its deletion is announced exactly if its container is owned here. */
    method SendEntityDeleteOrder(e: Eid) returns (announce: Option<Cid>)
      modifies this`entities
      ensures (View(), announce) == DeleteOrder(old(View()), e)
      ensures e !in old(entities) || !old(entities[e]).isValid ==> entities == old(entities) && announce == None
      ensures e in old(entities) && old(entities[e]).isValid ==> var c := old(entities[e]).owner;
        && entities == old(entities)[e := Entity(c, true, false)]
        && announce == if c in containers && containers[c].locallyOwned then Some(c) else None
    {
      if e !in entities || !entities[e].isValid {
        return None;
      }
      var c := entities[e].owner;
      entities := entities[e := entities[e].(quarantine := true, isValid := false)];
      announce := if c in containers && containers[c].locallyOwned then Some(c) else None;
    }

    method ExecDeleteOrder(e: Eid)
      modifies this`engine
      ensures View() == DeleteArrives(old(View()), e)
    {
      engine := engine + [Invalidate(e)];
    }

    /** Marks every entity of the container and queues its deletion.  The queueing loop runs again, over
        all entities found so far, for every entity visited: the same deletion is queued many times. */
    method DeleteEntitiesInContainer(c: Cid)
      modifies this`entities, this`engine
      ensures entities == MarkAll(old(entities), OwnedBy(old(View()), c))
      ensures old(engine) <= engine
      ensures DeletesExactly(engine[|old(engine)|..], OwnedBy(old(View()), c))
    {
      ghost var was := entities;
      ghost var queued: seq<Task> := [];
      var visit := entities.Keys;
      var toDelete: set<Eid> := {};
      SweepEnds(was, c);
      hide Sweep;
      while visit != {}
        invariant visit <= was.Keys
        invariant Sweep(was, visit, c, toDelete, entities, queued)
        invariant engine == old(engine) + queued
        decreases |visit|
      {
        var e :| e in visit;
        SweepStep(was, visit, c, toDelete, entities, queued, e);
        toDelete := MarkIfOwned(e, c, toDelete);
        ghost var added := QueueDeletions(toDelete);
        queued, visit := queued + added, visit - {e};
      }
      assert engine[|old(engine)|..] == queued;
    }

    method MarkIfOwned(e: Eid, c: Cid, toDelete: set<Eid>) returns (grown: set<Eid>)
      requires e in entities
      modifies this`entities
      ensures grown == if old(entities)[e].owner == c then toDelete + {e} else toDelete
      ensures entities == if old(entities)[e].owner == c
                          then old(entities)[e := old(entities)[e].(quarantine := true, isValid := false)]
                          else old(entities)
    {
      grown := toDelete;
      if entities[e].owner == c {
        entities := entities[e := entities[e].(isValid := false, quarantine := true)];
        grown := toDelete + {e};
      }
    }

    method CreateContainerIfNotExists(id: Cid, freshId: Cid) returns (final: Cid, created: bool)
      requires freshId !in containers && freshId != ""
      modifies this`containers
      ensures final == (if id in old(containers) || id != "" then id else freshId)
      ensures created <==> id !in old(containers)
      ensures containers == if created then old(containers)[final := Container(false, {}, 1)] else old(containers)
    {
      if id in containers {
        return id, false;
      }
      final := if id == "" then freshId else id;
      created := true;
      containers := containers[final := Container(false, {}, 1)];
    }

    /** The container is removed whatever its count: no one else ever holds the cell's pointer. */
    method UpdateRefCount(c: Cid)
      modifies this`entities, this`engine, this`containers
      ensures c !in old(containers) ==> View() == old(View())
      ensures c in old(containers) ==>
        && containers == old(containers) - {c}
        && entities == MarkAll(old(entities), OwnedBy(old(View()), c))
        && old(engine) <= engine && DeletesExactly(engine[|old(engine)|..], OwnedBy(old(View()), c))
    {
      if c in containers {
        DeleteEntitiesInContainer(c);
        containers := containers - {c};
      }
    }

    method QueueDeletions(ids: set<Eid>) returns (ghost added: seq<Task>)
      modifies this`engine
      ensures engine == old(engine) + added && DeletesExactly(added, ids)
    {
      var todo := ids;
      added := [];
      while todo != {}
        invariant todo <= ids && engine == old(engine) + added
        invariant DeletesExactly(added, ids - todo)
        decreases |todo|
      {
        var id :| id in todo;
        engine := engine + [Delete(id)];
        added := added + [Delete(id)];
        todo := todo - {id};
      }
    }
  }

  /** How far the sweep has come when the entities in `visit` are left. */
  ghost predicate Sweep(was: map<Eid, Entity>, visit: set<Eid>, c: Cid,
                        found: set<Eid>, entities: map<Eid, Entity>, queued: seq<Task>) {
    && found == (set e | e in was && e !in visit && was[e].owner == c)
    && entities == MarkAll(was, found)
    && DeletesExactly(queued, found)
  }

  lemma SweepEnds(was: map<Eid, Entity>, c: Cid)
    ensures Sweep(was, was.Keys, c, {}, was, [])
    ensures forall found, entities, queued :: Sweep(was, {}, c, found, entities, queued) ==>
      var gone := set e | e in was && was[e].owner == c;
      entities == MarkAll(was, gone) && DeletesExactly(queued, gone)
  {
    forall found, entities, queued | Sweep(was, {}, c, found, entities, queued)
      ensures found == set e | e in was && was[e].owner == c
    {
    }
  }

  lemma SweepStep(was: map<Eid, Entity>, visit: set<Eid>, c: Cid,
                  found: set<Eid>, entities: map<Eid, Entity>, queued: seq<Task>, e: Eid)
    requires Sweep(was, visit, c, found, entities, queued) && e in visit && e in was
    ensures e in entities
    ensures forall added ::
      if entities[e].owner == c
      then DeletesExactly(added, found + {e}) ==>
             Sweep(was, visit - {e}, c, found + {e},
                   entities[e := entities[e].(quarantine := true, isValid := false)], queued + added)
      else DeletesExactly(added, found) ==> Sweep(was, visit - {e}, c, found, entities, queued + added)
  {
    MarkOne(was, found, e);
  }

  lemma MarkOne(entities: map<Eid, Entity>, gone: set<Eid>, e: Eid)
    requires e in entities
    ensures e in MarkAll(entities, gone) && MarkAll(entities, gone)[e].owner == entities[e].owner
    ensures MarkAll(entities, gone + {e}) ==
            MarkAll(entities, gone)[e := MarkAll(entities, gone)[e].(quarantine := true, isValid := false)]
  {
  }

  /** Only deletions, at least one for each of ids and none for others. */
  ghost predicate DeletesExactly(tasks: seq<Task>, ids: set<Eid>) {
    && (forall t :: t in tasks ==> t.Delete? && t.id in ids)
    && (forall e :: e in ids ==> Delete(e) in tasks)
  }
}
