/** The ghost system as the code keeps it: nested tables updated entry by entry, tied to the flat
    maps of `Replication`.  The per-property timestamps are in `GhostPoll`. */
module GhostSystem {
  import opened Options
  import opened Maps
  import opened Replication

  /** entity -> key -> value, as in the property table, a pending table or a packet. */
  type Table = map<string, map<string, string>>

  function Slots(t: Table): set<Slot> {
    set e, k | e in t && k in t[e] :: Slot(e, k)
  }

  ghost function Flat(t: Table): (v: Values)
    ensures forall e, k :: Slot(e, k) in v <==> e in t && k in t[e]
    ensures forall e, k :: e in t && k in t[e] ==> v[Slot(e, k)] == t[e][k]
  {
    Tabulate(Slots(t), (s: Slot) => if s.eid in t && s.key in t[s.eid] then t[s.eid][s.key] else "")
  }

  function Entry(t: Table, e: string): map<string, string> {
    if e in t then t[e] else map[]
  }

  lemma SameSlots(v: Values, w: Values)
    requires forall e, k :: Slot(e, k) in v <==> Slot(e, k) in w
    requires forall e, k :: Slot(e, k) in v && Slot(e, k) in w ==> v[Slot(e, k)] == w[Slot(e, k)]
    ensures v == w
  {
    forall s: Slot ensures s in v <==> s in w {
      assert s == Slot(s.eid, s.key);
    }
    forall s: Slot | s in v ensures v[s] == w[s] {
      assert s == Slot(s.eid, s.key);
    }
  }

  /** Writing one value writes one slot; merging into one entity merges its slots. */
  lemma FlatWrite(t: Table, e: string, k: string, value: string)
    ensures Flat(t[e := Entry(t, e)[k := value]]) == Flat(t)[Slot(e, k) := value]
  {
    var u := t[e := Entry(t, e)[k := value]];
    assert forall d, l :: d in u && l in u[d] <==> (d == e && l == k) || (d in t && l in t[d]);
    SameSlots(Flat(u), Flat(t)[Slot(e, k) := value]);
  }

  lemma FlatMerge(t: Table, e: string, update: map<string, string>)
    ensures Flat(t[e := Entry(t, e) + update]) == Flat(t) + Flat(map[e := update])
  {
    SameSlots(Flat(t[e := Entry(t, e) + update]), Flat(t) + Flat(map[e := update]));
  }

  /** The entries a loop has dealt with when those under `todo` are left. */
  ghost function Without<V>(m: map<string, V>, todo: set<string>): map<string, V> {
    m - todo
  }

  lemma WithoutEnds<V>(m: map<string, V>)
    ensures Without(m, m.Keys) == map[] && Without(m, {}) == m
  {
  }

  lemma FlatStep(base: Values, packet: Table, todo: set<string>, e: string)
    requires e in todo && e in packet
    ensures (base + Flat(Without(packet, todo))) + Flat(map[e := packet[e]]) == base + Flat(Without(packet, todo - {e}))
  {
    var before, after, one := Without(packet, todo), Without(packet, todo - {e}), map[e := packet[e]];
    assert forall d :: d in after <==> d == e || d in before;
    assert forall d :: d in after ==> after[d] == packet[d];
    hide Without;
    SameSlots(Flat(after), Flat(before) + Flat(one));
    hide Flat;
    MergeAssoc(base, Flat(before), Flat(one));
  }

  /** `after` is `before` with one value queued in one container's pending table. */
  ghost predicate Queued(before: map<string, Table>, after: map<string, Table>, container: string, s: Slot,
                         value: string) {
    && after.Keys == before.Keys + {container}
    && Flat(after[container]) == Flat(Pending(before, container))[s := value]
    && forall c :: c in before && c != container ==> after[c] == before[c]
  }

  /** What changing a property does to the property table and the pending tables. */
  ghost predicate Updated(props: Table, after: Table, next: map<string, Table>, nextAfter: map<string, Table>,
                          s: Slot, value: string, container: string, locallyOwned: bool) {
    if container == "" || !locallyOwned || (s in Flat(props) && Flat(props)[s] == value)
    then Flat(after) == Flat(props) && nextAfter == next
    else Flat(after) == Flat(props)[s := value] && Queued(next, nextAfter, container, s, value)
  }

  lemma ChangeIsUpdated(props: Table, after: Table, next: map<string, Table>, nextAfter: map<string, Table>,
                        s: Slot, value: string, container: string)
    requires container != "" && Flat(after) == Flat(props)[s := value]
    requires if s in Flat(props) && Flat(props)[s] == value then nextAfter == next
             else Queued(next, nextAfter, container, s, value)
    ensures Updated(props, after, next, nextAfter, s, value, container, true)
  {
    hide Flat, Queued;
    if s in Flat(props) && Flat(props)[s] == value {
      assert Flat(after) == Flat(props);
    }
  }

  // ---------- the protocol's world, read off the tables ----------

  /** Every entity mentioned has something to say. */
  ghost predicate Tidy(t: Table) {
    forall e :: e in t ==> t[e] != map[]
  }

  lemma TidyIsEmptyIff(t: Table)
    requires Tidy(t)
    ensures Flat(t) == map[] <==> t == map[]
  {
    if e :| e in t {
      var k :| k in t[e];
      assert Slot(e, k) in Flat(t);
    } else {
      SameSlots(Flat(t), map[]);
    }
  }

  function Pending(next: map<string, Table>, c: string): Table {
    if c in next then next[c] else map[]
  }

  ghost function FlatAll(packets: seq<Table>): seq<Values> {
    seq(|packets|, i requires 0 <= i < |packets| => Flat(packets[i]))
  }

  function Stream(streams: map<string, seq<Table>>, c: string): seq<Table> {
    if c in streams then streams[c] else []
  }

  /** The owner's side: the containers owned here, with or without a writer stream yet. */
  ghost function WorldOf(props: Table, next: map<string, Table>, streams: map<string, seq<Table>>,
                   owned: set<string>): World {
    World(Flat(props),
          Tabulate(owned, c => Flat(Pending(next, c))),
          Tabulate(owned, c => FlatAll(Stream(streams, c))),
          map[])
  }

  lemma WorldParts(props: Table, next: map<string, Table>, streams: map<string, seq<Table>>, owned: set<string>)
    ensures var w := WorldOf(props, next, streams, owned);
      w.owner == Flat(props) && w.joiners == map[] && w.pending.Keys == w.log.Keys == owned
  {
    hide Flat, FlatAll;
  }

  lemma WorldAt(props: Table, next: map<string, Table>, streams: map<string, seq<Table>>, owned: set<string>, c: string)
    requires c in owned
    ensures var w := WorldOf(props, next, streams, owned);
      && c in w.pending && c in w.log
      && w.pending[c] == Flat(Pending(next, c)) && w.log[c] == FlatAll(Stream(streams, c))
  {
    hide Flat, FlatAll;
  }

  /** Changing a property is the protocol's `Update`. */
  lemma UpdateRefines(props: Table, after: Table, next: map<string, Table>, nextAfter: map<string, Table>,
                      streams: map<string, seq<Table>>, owned: set<string>, s: Slot, value: string, home: Home,
                      locallyOwned: bool)
    requires Updated(props, after, next, nextAfter, s, value, home(s.eid), locallyOwned)
    requires home(s.eid) in owned <==> home(s.eid) != "" && locallyOwned
    ensures WorldOf(after, nextAfter, streams, owned) ==
            DoUpdate(WorldOf(props, next, streams, owned), s.eid, s.key, value, home)
  {
    hide Flat, FlatAll, Pending, Queued, WorldOf;
    assert s == Slot(s.eid, s.key);
    var w, v := WorldOf(props, next, streams, owned), WorldOf(after, nextAfter, streams, owned);
    var u, h := DoUpdate(w, s.eid, s.key, value, home), home(s.eid);
    WorldParts(props, next, streams, owned);
    WorldParts(after, nextAfter, streams, owned);
    forall c | c in owned ensures v.pending[c] == u.pending[c] && v.log[c] == u.log[c] {
      WorldAt(props, next, streams, owned, c);
      WorldAt(after, nextAfter, streams, owned, c);
      if v.owner != w.owner {
        QueuedAt(next, nextAfter, h, s, value, c);
      }
    }
    SameWorlds(v, u);
  }

  lemma QueuedAt(next: map<string, Table>, nextAfter: map<string, Table>, h: string, s: Slot, value: string, c: string)
    requires Queued(next, nextAfter, h, s, value)
    ensures Flat(Pending(nextAfter, c)) == if c == h then Flat(Pending(next, c))[s := value] else Flat(Pending(next, c))
  {
    hide Flat;
    assert c != h ==> Pending(nextAfter, c) == Pending(next, c);
  }

  /** The pending tables of the containers cs are taken; those with a writer stream move to its end. */
  ghost function Uploaded(w: World, cs: set<string>, ready: set<string>): World
    requires w.pending.Keys == w.log.Keys
  {
    w.(pending := Tabulate(w.pending.Keys, c => if c in cs || c !in w.pending then map[] else w.pending[c]),
       log := Tabulate(w.log.Keys, c =>
                if c !in w.log then []
                else if c in cs && c in ready && w.pending[c] != map[] then w.log[c] + [w.pending[c]] else w.log[c]))
  }

  ghost function UploadOne(w: World, c: string, ready: set<string>): World
    requires c in w.pending && c in w.log
  {
    if c in ready then DoDrain(w, c) else DropPending(w, c)
  }

  ghost function Uploads(w: World, order: seq<string>, ready: set<string>): (v: World)
    requires w.pending.Keys == w.log.Keys && forall c :: c in order ==> c in w.log
    ensures v.pending.Keys == w.pending.Keys && v.log.Keys == w.log.Keys
  {
    if order == [] then w else UploadOne(Uploads(w, order[..|order| - 1], ready), order[|order| - 1], ready)
  }

  lemma SameWorlds(v: World, u: World)
    requires v.owner == u.owner && v.joiners == u.joiners
    requires v.pending.Keys == u.pending.Keys && v.log.Keys == u.log.Keys
    requires forall c :: c in v.pending ==> v.pending[c] == u.pending[c]
    requires forall c :: c in v.log ==> v.log[c] == u.log[c]
    ensures v == u
  {
  }

  function Listed(order: seq<string>): set<string> {
    set c | c in order
  }

  lemma ListedLast(order: seq<string>)
    requires order != []
    ensures Listed(order) == Listed(order[..|order| - 1]) + {order[|order| - 1]}
  {
    assert order == order[..|order| - 1] + [order[|order| - 1]];
  }

  /** One upload round is, container by container in whatever order, the protocol's `Drain` where there is a
      writer stream and the loss of the pending table where there is none. */
  lemma {:induction false} UploadedIsUploads(w: World, order: seq<string>, ready: set<string>)
    requires w.pending.Keys == w.log.Keys && forall c :: c in order ==> c in w.log
    ensures Uploads(w, order, ready) == Uploaded(w, Listed(order), ready)
  {
    if order == [] {
      SameWorlds(w, Uploaded(w, Listed(order), ready));
    } else {
      hide Uploaded, UploadOne, Listed;
      var n := |order| - 1;
      UploadedIsUploads(w, order[..n], ready);
      ListedLast(order);
      UploadOneMore(w, Listed(order[..n]), order[n], ready);
    }
  }

  lemma UploadOneMore(w: World, cs: set<string>, c: string, ready: set<string>)
    requires w.pending.Keys == w.log.Keys && c in w.log
    ensures var v := Uploaded(w, cs, ready);
      v.pending.Keys == v.log.Keys && c in v.log && UploadOne(v, c, ready) == Uploaded(w, cs + {c}, ready)
  {
    hide Uploaded;
    var v, u := Uploaded(w, cs, ready), Uploaded(w, cs + {c}, ready);
    UploadKeepsRest(w, cs, ready);
    UploadKeepsRest(w, cs + {c}, ready);
    var d := UploadOne(v, c, ready);
    forall x | x in w.log ensures d.pending[x] == u.pending[x] && d.log[x] == u.log[x] {
      UploadedAt(w, cs, ready, x);
      UploadedAt(w, cs + {c}, ready, x);
    }
    UploadOneKeepsRest(v, c, ready);
    SameWorlds(d, u);
  }

  lemma UploadOneKeepsRest(v: World, c: string, ready: set<string>)
    requires v.pending.Keys == v.log.Keys && c in v.log
    ensures var d := UploadOne(v, c, ready);
      d.owner == v.owner && d.joiners == v.joiners && d.pending.Keys == d.log.Keys == v.log.Keys
  {
  }

  lemma UploadKeepsRest(w: World, cs: set<string>, ready: set<string>)
    requires w.pending.Keys == w.log.Keys
    ensures var u := Uploaded(w, cs, ready);
      u.owner == w.owner && u.joiners == w.joiners && u.pending.Keys == u.log.Keys == w.log.Keys
  {
  }

  lemma UploadedAt(w: World, cs: set<string>, ready: set<string>, x: string)
    requires w.pending.Keys == w.log.Keys && x in w.log
    ensures var u := Uploaded(w, cs, ready);
      && u.pending.Keys == u.log.Keys == w.log.Keys
      && u.pending[x] == (if x in cs then map[] else w.pending[x])
      && u.log[x] == if x in cs && x in ready && w.pending[x] != map[] then w.log[x] + [w.pending[x]] else w.log[x]
  {
  }

  lemma FlatAllSnoc(packets: seq<Table>, t: Table)
    ensures FlatAll(packets + [t]) == FlatAll(packets) + [Flat(t)]
  {
    hide Flat;
  }

  /** What a fetch followed by writing the fetched tables does to one container's table and stream. */
  lemma UploadAt(pending: Table, stream: seq<Table>, after: seq<Table>)
    requires Tidy(pending) && after == stream + if pending != map[] then [pending] else []
    ensures FlatAll(after) == if Flat(pending) != map[] then FlatAll(stream) + [Flat(pending)] else FlatAll(stream)
  {
    TidyIsEmptyIff(pending);
    hide Flat, FlatAll;
    FlatAllSnoc(stream, pending);
    assert stream + [] == stream;
  }

  lemma UploadRefines(props: Table, next: map<string, Table>, nextAfter: map<string, Table>,
                      streams: map<string, seq<Table>>, streamsAfter: map<string, seq<Table>>, owned: set<string>)
    requires forall c :: c in next ==> Tidy(next[c])
    requires nextAfter.Keys == next.Keys && forall c :: c in next ==> nextAfter[c] == map[]
    requires streamsAfter.Keys == streams.Keys && forall c :: c in streams ==>
      streamsAfter[c] == streams[c] + if c in next && next[c] != map[] then [next[c]] else []
    ensures WorldOf(props, nextAfter, streamsAfter, owned) ==
            Uploaded(WorldOf(props, next, streams, owned), owned, streams.Keys)
  {
    var w, v := WorldOf(props, next, streams, owned), WorldOf(props, nextAfter, streamsAfter, owned);
    EmptyIsTidy();
    hide Flat, FlatAll, Tidy, WorldOf, Uploaded;
    WorldParts(props, next, streams, owned);
    WorldParts(props, nextAfter, streamsAfter, owned);
    var u := Uploaded(w, owned, streams.Keys);
    UploadKeepsRest(w, owned, streams.Keys);
    forall c | c in owned ensures v.pending[c] == u.pending[c] && v.log[c] == u.log[c] {
      if c in streams {
        UploadAt(Pending(next, c), streams[c], streamsAfter[c]);
      }
      WorldAt(props, next, streams, owned, c);
      WorldAt(props, nextAfter, streamsAfter, owned, c);
      UploadedAt(w, owned, streams.Keys, c);
    }
    SameWorlds(v, u);
  }

  lemma EmptyIsTidy()
    ensures Tidy(map[]) && Flat(map[]) == map[]
  {
    SameSlots(Flat(map[]), map[]);
  }

  class GhostSystem {
    var ettProps: Table
    /** container -> pending table */
    var nextUpdate: map<string, Table>
    /** packets written per container stream; a container not listed has no writer stream */
    var streams: map<string, seq<Table>>

    /** No pending table mentions an entity without a value for it. */
    ghost predicate Valid()
      reads this
    {
      forall c :: c in nextUpdate ==> Tidy(nextUpdate[c])
    }

    ghost function View(owned: set<string>): World
      reads this
    {
      WorldOf(ettProps, nextUpdate, streams, owned)
    }

    constructor ()
      ensures ettProps == map[] && nextUpdate == map[] && streams == map[] && Valid()
    {
      ettProps, nextUpdate, streams := map[], map[], map[];
    }

    /** Store a value; reports whether it was new or different. */
    method SetProperty(eid: string, key: string, value: string) returns (changed: bool)
      modifies this`ettProps
      ensures changed <==> !(Slot(eid, key) in Flat(old(ettProps)) && Flat(old(ettProps))[Slot(eid, key)] == value)
      ensures Flat(ettProps) == Flat(old(ettProps))[Slot(eid, key) := value]
    {
      var entry := Entry(ettProps, eid);
      changed := key !in entry || entry[key] != value;
      FlatWrite(ettProps, eid, key, value);
      ettProps := ettProps[eid := entry[key := value]];
    }

    /** An entity's property is changed by its owner.  `container` is the entity's container as the
        entity registry gives it, empty when unknown. */
    method UpdatePropertyState(eid: string, key: string, value: string, container: string, locallyOwned: bool)
      modifies this`ettProps, this`nextUpdate
      ensures Updated(old(ettProps), ettProps, old(nextUpdate), nextUpdate,
                      Slot(eid, key), value, container, locallyOwned)
      ensures old(Valid()) ==> Valid()
    {
      if container == "" || !locallyOwned {
        return;
      }
      hide Flat, Queued, Tidy, Slots, Entry, Updated;
      var changed := SetProperty(eid, key, value);
      if changed {
        QueueValue(container, eid, key, value);
      }
      ChangeIsUpdated(old(ettProps), ettProps, old(nextUpdate), nextUpdate, Slot(eid, key), value, container);
    }

    method QueueValue(container: string, eid: string, key: string, value: string)
      modifies this`nextUpdate
      ensures Queued(old(nextUpdate), nextUpdate, container, Slot(eid, key), value)
      ensures old(Valid()) ==> Valid()
    {
      var pending := Pending(nextUpdate, container);
      FlatWrite(pending, eid, key, value);
      nextUpdate := nextUpdate[container := pending[eid := Entry(pending, eid)[key := value]]];
    }

    /** An entity's properties are overlaid by an update for it. */
    method ApplyUpdateToEntity(eid: string, update: map<string, string>)
      modifies this`ettProps
      ensures Flat(ettProps) == Flat(old(ettProps)) + Flat(map[eid := update])
    {
      var entry := SetAll(Entry(ettProps, eid), update);
      FlatMerge(ettProps, eid, update);
      ettProps := ettProps[eid := entry];
    }

    /** The loop over one entity's items, run under the lock on its entry. */
    static method SetAll(props: map<string, string>, update: map<string, string>) returns (r: map<string, string>)
      ensures r == props + update
    {
      r := props;
      var todo := update.Keys;
      while todo != {}
        invariant todo <= update.Keys
        invariant r.Keys == props.Keys + (update.Keys - todo)
        invariant forall k :: k in r ==> r[k] == if k in update && k !in todo then update[k] else props[k]
        decreases |todo|
      {
        var key :| key in todo;
        r := r[key := update[key]];
        todo := todo - {key};
      }
    }

    /** A packet from the network is applied entity by entity. */
    method ApplyUpdate(packet: Table)
      modifies this`ettProps
      ensures Flat(ettProps) == Flat(old(ettProps)) + Flat(packet)
    {
      ghost var base := Flat(ettProps);
      var todo := packet.Keys;
      WithoutEnds(packet);
      hide Flat, Without;
      assert Flat(map[]) == map[] by {
        SameSlots(Flat(map[]), map[]);
      }
      while todo != {}
        invariant todo <= packet.Keys
        invariant Flat(ettProps) == base + Flat(Without(packet, todo))
        decreases |todo|
      {
        var eid :| eid in todo;
        FlatStep(base, packet, todo, eid);
        ApplyUpdateToEntity(eid, packet[eid]);
        todo := todo - {eid};
      }
    }

    /** Take every pending table, leaving an empty one behind. */
    method FetchNextUpdate() returns (update: map<string, Table>)
      modifies this`nextUpdate
      ensures update == old(nextUpdate)
      ensures nextUpdate.Keys == old(nextUpdate).Keys && forall c :: c in nextUpdate ==> nextUpdate[c] == map[]
    {
      update := map[];
      var todo := nextUpdate.Keys;
      while todo != {}
        invariant todo <= old(nextUpdate).Keys
        invariant update == old(nextUpdate) - todo
        invariant nextUpdate.Keys == old(nextUpdate).Keys
        invariant forall c :: c in nextUpdate ==> nextUpdate[c] == if c in todo then old(nextUpdate)[c] else map[]
        decreases |todo|
      {
        var c :| c in todo;
        update := update[c := nextUpdate[c]];
        nextUpdate := nextUpdate[c := map[]];
        todo := todo - {c};
      }
    }

    /** One round of the upload worker, whichever containers are owned here. */
    method UploadRound()
      requires Valid()
      modifies this`nextUpdate, this`streams
      ensures Valid()
      ensures forall owned :: View(owned) == Uploaded(old(View(owned)), owned, old(streams).Keys)
    {
      hide Flat, FlatAll, Uploaded;
      EmptyIsTidy();
      hide Tidy;
      var update := FetchNextUpdate();
      ProcessUpdate(update);
      forall owned ensures View(owned) == Uploaded(old(View(owned)), owned, old(streams).Keys) {
        UploadRefines(ettProps, old(nextUpdate), nextUpdate, old(streams), streams, owned);
      }
    }

    /** Write one packet per container with something to send; without a writer stream it is lost. */
    method ProcessUpdate(update: map<string, Table>)
      modifies this`streams
      ensures streams.Keys == old(streams).Keys
      ensures forall c :: c in streams ==>
        streams[c] == old(streams)[c] + if c in update && update[c] != map[] then [update[c]] else []
    {
      var todo := update.Keys;
      while todo != {}
        invariant todo <= update.Keys && streams.Keys == old(streams).Keys
        invariant forall c :: c in streams ==>
          streams[c] == old(streams)[c] + if c in update && c !in todo && update[c] != map[] then [update[c]] else []
        decreases |todo|
      {
        var c :| c in todo;
        todo := todo - {c};
        if update[c] != map[] {
          ReplicateData(c, update[c]);
        }
      }
    }

    method ReplicateData(container: string, entities: Table)
      modifies this`streams
      ensures streams == if container in old(streams)
                         then old(streams)[container := old(streams)[container] + [entities]] else old(streams)
    {
      if container in streams {
        streams := streams[container := streams[container] + [entities]];
      }
    }

    /** All properties of an entity under non-empty keys; the empty key is erased on the way. */
    method PeekProperties(eid: string) returns (props: Option<map<string, string>>)
      modifies this`ettProps
      ensures Flat(ettProps) == Erase(Flat(old(ettProps)), eid)
      ensures props == Peeked(old(ettProps), eid)
    {
      var entry := Entry(ettProps, eid) - {""};
      ghost var was := ettProps;
      ettProps := ettProps[eid := entry];
      SameSlots(Flat(ettProps), Erase(Flat(was), eid));
      props := if entry == map[] then None else Some(entry);
    }

    method TryRemoveEntity(eid: string)
      modifies this`ettProps
      ensures ettProps == old(ettProps) - {eid}
    {
      if eid in ettProps {
        ettProps := ettProps - {eid};
      }
    }
  }

  function Peeked(t: Table, eid: string): Option<map<string, string>> {
    var entry := Entry(t, eid) - {""};
    if entry == map[] then None else Some(entry)
  }

  // ---------- properties handed over with a take order ----------

  /** What a take order carries; an entity without properties is sent as the JSON string "{}", which
      the receiver reads as one item with an empty key. */
  function OrderGhost(t: Table, eid: string): map<string, string> {
    match Peeked(t, eid)
    case Some(props) => props
    case None => map["" := "{}"]
  }

  /** What a peer shows after applying the order: the sender's properties over its own. */
  lemma OrderOverlays(sender: Table, receiver: Table, eid: string)
    ensures Visibly(Entry(receiver, eid) + OrderGhost(sender, eid)) ==
            Visibly(Entry(receiver, eid)) + Visibly(Entry(sender, eid))
    ensures "" in OrderGhost(sender, eid) <==> Visibly(Entry(sender, eid)) == map[]
    ensures "" in OrderGhost(sender, eid) ==> (Entry(receiver, eid) + OrderGhost(sender, eid))[""] == "{}"
  {
    var entry := Visibly(Entry(sender, eid));
    if entry == map[] {
      assert map["" := "{}"] - {""} == map[];
    } else {
      assert entry - {""} == entry;
    }
  }

  function Visibly(props: map<string, string>): map<string, string> {
    props - {""}
  }

  /** So the round trip through peek, apply and peek makes the receiver show what the sender shows if and
      only if it showed no key before that the sender lacks (as when it did not know the entity). */
  lemma GhostSurvivesTransferIff(sender: Table, receiver: Table, eid: string)
    ensures Peeked(receiver[eid := Entry(receiver, eid) + OrderGhost(sender, eid)], eid) == Peeked(sender, eid) <==>
            forall k :: k in Entry(receiver, eid) && k != "" ==> k in Entry(sender, eid)
  {
    OrderOverlays(sender, receiver, eid);
    var mine, theirs := Visibly(Entry(receiver, eid)), Visibly(Entry(sender, eid));
    if k :| k in mine && k !in theirs {
      assert k in mine + theirs;
    } else {
      assert mine + theirs == theirs;
    }
  }
}
