/** Remote calls between any number of peers over a network that loses, repeats and reorders.

    A message once sent stays in `net`: it may be delivered never, once or many times, in any order.
    Every peer runs one duplicate filter over all it receives, requests and responses alike, and a
    response carries the id of its request. */
module RpcProtocol {
  import opened Options
  import opened Maps
  import opened LruSpec
  import opened RpcCaller

  type PeerId = string

  datatype Message =
    | Request(audience: set<PeerId>, id: Id, replyTo: Caller)
    | Response(receiver: PeerId, id: Id, reply: Reply)

  datatype Caller = NoReply | ReplyTo(peer: PeerId)

  /** What handling a request came to: no such scope, an error found before or in the handler, or
      the handler's own result. */
  datatype Act = NoScope | Failed | Returned(reply: Reply)

  /** What a peer did with an id its filter let through. */
  datatype Event = Handled(act: Act) | Answered(reply: Reply)

  /** `events[i]` is what came of the i-th accepted id. */
  datatype Peer = Peer(filter: Filter<Id>, events: seq<Event>, table: Table)

  /** `issued` remembers the request of every id drawn so far (ids are fresh uuids). */
  datatype World = World(peers: map<PeerId, Peer>, net: set<Message>, issued: map<Id, Message>)

  datatype Step =
    | Call(caller: PeerId, callee: PeerId, id: Id)
    | FireAndForget(audience: set<PeerId>, id: Id)
    | Receive(peer: PeerId, message: Message, act: Act)

  ghost function Initial(peers: set<PeerId>): World {
    World(Constant(peers, Peer(Filter([], []), [], EMPTY)), {}, map[])
  }

  /** A call draws a fresh id or, as a retry, repeats its own request. */
  predicate Enabled(w: World, s: Step) {
    match s
    case Call(p, q, u) =>
      p in w.peers && (u in w.issued ==> w.issued[u] == Request({q}, u, ReplyTo(p)))
    case FireAndForget(_, u) => u !in w.issued
    case Receive(p, m, _) =>
      p in w.peers && m in w.net && (if m.Request? then p in m.audience else p == m.receiver)
  }

  function Send(w: World, m: Message): World {
    w.(net := w.net + {m}, issued := w.issued[m.id := m])
  }

  function ReplyFor(act: Act): Reply {
    if act.Returned? then act.reply else Null
  }

  /** A repeated id is dropped; otherwise a response goes to the promise table, and a request is
      handled and answered if it asks for an answer and its scope is known. */
  function ReceiveAt(peer: Peer, m: Message, act: Act, cap: Capacity): (Peer, Option<Message>) {
    var filter := Offer(peer.filter, m.id, cap);
    if m.id in peer.filter.keys then (peer, None)
    else if m.Response? then
      (Peer(filter, peer.events + [Answered(m.reply)], Apply(peer.table, Solve(m.id, m.reply))), None)
    else
      (Peer(filter, peer.events + [Handled(act)], peer.table),
       if m.replyTo.ReplyTo? && !act.NoScope? then Some(Response(m.replyTo.peer, m.id, ReplyFor(act))) else None)
  }

  function Execute(w: World, s: Step, cap: Capacity): World
    requires Enabled(w, s)
  {
    match s
    case Call(p, q, u) =>
      var peer := w.peers[p];
      Send(w.(peers := w.peers[p := peer.(table := Apply(peer.table, Install(u)))]), Request({q}, u, ReplyTo(p)))
    case FireAndForget(audience, u) =>
      Send(w, Request(audience, u, NoReply))
    case Receive(p, m, act) =>
      var (peer, response) := ReceiveAt(w.peers[p], m, act, cap);
      w.(peers := w.peers[p := peer], net := if response.Some? then w.net + {response.value} else w.net)
  }

  ghost predicate Possible(peers: set<PeerId>, steps: seq<Step>, cap: Capacity)
    decreases |steps|, 0
  {
    steps == [] ||
    var n := |steps| - 1;
    Possible(peers, steps[..n], cap) && Enabled(After(peers, steps[..n], cap), steps[n])
  }

  ghost function After(peers: set<PeerId>, steps: seq<Step>, cap: Capacity): World
    requires Possible(peers, steps, cap)
    decreases |steps|, 1
  {
    if steps == [] then Initial(peers)
    else Execute(After(peers, steps[..|steps| - 1], cap), steps[|steps| - 1], cap)
  }

  // ---------- the invariant ----------

  /** At index i of q's history id u was handled with this act. */
  ghost predicate HandledAt(w: World, q: PeerId, i: nat, u: Id, act: Act) {
    q in w.peers && i < |w.peers[q].events| == |w.peers[q].filter.accepted| &&
    w.peers[q].filter.accepted[i] == u && w.peers[q].events[i] == Handled(act)
  }

  /** The reply came from handling id u, issued by p, at a peer the request was sent to. */
  ghost predicate Justified(w: World, p: PeerId, u: Id, reply: Reply) {
    && u in w.issued && w.issued[u].Request? && w.issued[u].replyTo == ReplyTo(p)
    && exists q, i, act :: q in w.issued[u].audience && HandledAt(w, q, i, u, act) && reply == ReplyFor(act)
  }

  ghost predicate PeerInv(w: World, p: PeerId, cap: Capacity)
    requires p in w.peers
  {
    var peer := w.peers[p];
    && Tracks(peer.filter, cap) && Spaced(peer.filter.accepted, cap)
    && |peer.events| == |peer.filter.accepted|
    && Sound(peer.table)
    && (forall d :: d in peer.table.done ==> d.completion.Completed? && d.id in w.issued)
    && (forall d :: d in peer.table.done ==> Justified(w, p, d.id, d.completion.reply))
    && (forall d :: d in peer.table.done ==> AnswerLogged(peer, d.id))
  }

  ghost predicate AnswerLogged(peer: Peer, u: Id) {
    exists i :: 0 <= i < |peer.events| && i < |peer.filter.accepted| &&
      peer.filter.accepted[i] == u && peer.events[i].Answered?
  }

  ghost predicate Inv(w: World, cap: Capacity) {
    && (forall p :: p in w.peers ==> PeerInv(w, p, cap))
    && (forall m :: m in w.net && m.Request? ==> m.id in w.issued && w.issued[m.id] == m)
    && (forall m :: m in w.net && m.Response? ==> Justified(w, m.receiver, m.id, m.reply))
  }

  /** Histories only grow. */
  ghost predicate Grows(w: World, v: World) {
    && (forall u :: u in w.issued ==> u in v.issued && v.issued[u] == w.issued[u])
    && (forall p :: p in w.peers ==> p in v.peers && PeerGrows(w.peers[p], v.peers[p]))
  }

  ghost predicate PeerGrows(a: Peer, b: Peer) {
    && a.events <= b.events && a.filter.accepted <= b.filter.accepted
    && |b.events| - |a.events| == |b.filter.accepted| - |a.filter.accepted|
  }

  lemma StillJustified(w: World, v: World, p: PeerId, u: Id, reply: Reply)
    requires Grows(w, v) && Justified(w, p, u, reply)
    ensures Justified(v, p, u, reply)
  {
    var q, i, act :| q in w.issued[u].audience && HandledAt(w, q, i, u, act) && reply == ReplyFor(act);
    assert HandledAt(v, q, i, u, act);
  }

  lemma StepGrows(w: World, s: Step, cap: Capacity)
    requires Enabled(w, s)
    ensures Grows(w, Execute(w, s, cap))
  {
    var v := Execute(w, s, cap);
    forall p | p in w.peers ensures p in v.peers && PeerGrows(w.peers[p], v.peers[p]) {
    }
  }

  lemma PeerUntouched(w: World, v: World, p: PeerId, cap: Capacity)
    requires Grows(w, v) && p in w.peers && PeerInv(w, p, cap) && v.peers[p] == w.peers[p]
    ensures PeerInv(v, p, cap)
  {
    forall d | d in w.peers[p].table.done ensures Justified(v, p, d.id, d.completion.reply) {
      StillJustified(w, v, p, d.id, d.completion.reply);
    }
  }

  lemma CallKeepsPeer(w: World, s: Step, cap: Capacity)
    requires Inv(w, cap) && Enabled(w, s) && s.Call?
    ensures PeerInv(Execute(w, s, cap), s.caller, cap)
  {
    hide Tracks, Spaced, Sound, Justified, AnswerLogged;
    var v, p := Execute(w, s, cap), s.caller;
    StepGrows(w, s, cap);
    ApplyKeepsSound(w.peers[p].table, Install(s.id));
    forall d | d in w.peers[p].table.done
      ensures Justified(v, p, d.id, d.completion.reply) && AnswerLogged(v.peers[p], d.id)
    {
      StillJustified(w, v, p, d.id, d.completion.reply);
      StillLogged(w.peers[p], v.peers[p], d.id);
    }
  }

  lemma ReceiveKeepsPeer(w: World, s: Step, cap: Capacity)
    requires Inv(w, cap) && Enabled(w, s) && s.Receive? && s.message.id !in w.peers[s.peer].filter.keys
    ensures PeerInv(Execute(w, s, cap), s.peer, cap)
  {
    hide Tracks, Spaced, Sound, Justified, AnswerLogged;
    var v, p, m := Execute(w, s, cap), s.peer, s.message;
    var before, after := w.peers[p], v.peers[p];
    StepGrows(w, s, cap);
    OfferKeepsTracking(before.filter, m.id, cap);
    if m.Response? {
      ApplyKeepsSound(before.table, Solve(m.id, m.reply));
      StillJustified(w, v, p, m.id, m.reply);
    }
    forall d | d in after.table.done
      ensures d.completion.Completed? && Justified(v, p, d.id, d.completion.reply)
      ensures AnswerLogged(after, d.id)
    {
      if d in before.table.done {
        StillJustified(w, v, p, d.id, d.completion.reply);
        assert AnswerLogged(before, d.id);
        StillLogged(before, after, d.id);
      } else {
        NewlyLogged(before, after, d.id);
      }
    }
  }

  lemma NewlyLogged(a: Peer, b: Peer, u: Id)
    requires |a.events| == |a.filter.accepted| < |b.events| == |b.filter.accepted|
    requires b.filter.accepted[|a.events|] == u && b.events[|a.events|].Answered?
    ensures AnswerLogged(b, u)
  {
  }

  lemma StillLogged(a: Peer, b: Peer, u: Id)
    requires AnswerLogged(a, u) && PeerGrows(a, b) && |a.events| == |a.filter.accepted|
    ensures AnswerLogged(b, u)
  {
    var i :| 0 <= i < |a.events| && a.filter.accepted[i] == u && a.events[i].Answered?;
    assert b.filter.accepted[i] == u && b.events[i].Answered?;
  }

  lemma StepKeepsNet(w: World, s: Step, cap: Capacity)
    requires Inv(w, cap) && Enabled(w, s)
    ensures var v := Execute(w, s, cap);
      forall m :: m in v.net ==>
        if m.Request? then m.id in v.issued && v.issued[m.id] == m else Justified(v, m.receiver, m.id, m.reply)
  {
    var v := Execute(w, s, cap);
    StepGrows(w, s, cap);
    forall m | m in v.net
      ensures if m.Request? then m.id in v.issued && v.issued[m.id] == m
              else Justified(v, m.receiver, m.id, m.reply)
    {
      if m in w.net && m.Response? {
        StillJustified(w, v, m.receiver, m.id, m.reply);
      } else if m.Response? {
        assert HandledAt(v, s.peer, |w.peers[s.peer].events|, m.id, s.act);
      }
    }
  }

  lemma StepKeepsInv(w: World, s: Step, cap: Capacity)
    requires Inv(w, cap) && Enabled(w, s)
    ensures Inv(Execute(w, s, cap), cap)
  {
    var v := Execute(w, s, cap);
    StepGrows(w, s, cap);
    StepKeepsNet(w, s, cap);
    forall p | p in v.peers ensures PeerInv(v, p, cap) {
      if v.peers[p] == w.peers[p] {
        PeerUntouched(w, v, p, cap);
      } else if s.Call? {
        CallKeepsPeer(w, s, cap);
      } else {
        ReceiveKeepsPeer(w, s, cap);
      }
    }
  }

  lemma {:induction false} RunKeepsInv(peers: set<PeerId>, steps: seq<Step>, cap: Capacity)
    requires Possible(peers, steps, cap)
    ensures Inv(After(peers, steps, cap), cap)
  {
    if steps != [] {
      RunKeepsInv(peers, steps[..|steps| - 1], cap);
      StepKeepsInv(After(peers, steps[..|steps| - 1], cap), steps[|steps| - 1], cap);
    }
  }

  // ---------- main results ----------

  /** A call addresses one callee. */
  lemma {:induction false} CallsHaveOneCallee(peers: set<PeerId>, steps: seq<Step>, cap: Capacity, u: Id)
    returns (q: PeerId)
    requires Possible(peers, steps, cap) && u in After(peers, steps, cap).issued
    ensures var m := After(peers, steps, cap).issued[u];
      m.Request? && m.id == u && (m.replyTo.ReplyTo? ==> m.audience == {q})
  {
    var s := steps[|steps| - 1];
    if u in After(peers, steps[..|steps| - 1], cap).issued {
      q := CallsHaveOneCallee(peers, steps[..|steps| - 1], cap, u);
    } else {
      q := if s.Call? then s.callee else "";
    }
  }

  /** Where id u was first let through, more than cap ids before the end or not. */
  ghost predicate FirstAt(accepted: seq<Id>, u: Id, i: nat) {
    i < |accepted| && accepted[i] == u && forall j :: 0 <= j < i ==> accepted[j] != u
  }

  lemma OnceInWindow(accepted: seq<Id>, u: Id, first: nat, cap: Capacity)
    requires Spaced(accepted, cap) && FirstAt(accepted, u, first) && |accepted| - 1 - first <= cap
    ensures forall j :: 0 <= j < |accepted| && accepted[j] == u ==> j == first
  {
  }

  /** Any value a call on u returns is what the handler at its callee q made of u; and if q has let
      at most cap ids through since it first let u through, then u is in q's history just once. */
  lemma ReturnedValueIsHandlersResult(peers: set<PeerId>, steps: seq<Step>, cap: Capacity,
                                      p: PeerId, d: Done, value: string)
    returns (q: PeerId, i: nat)
    requires Possible(peers, steps, cap) && p in After(peers, steps, cap).peers
    requires d in After(peers, steps, cap).peers[p].table.done && d.completion == Completed(Json(value))
    ensures var w := After(peers, steps, cap);
      && d.id in w.issued && w.issued[d.id] == Request({q}, d.id, ReplyTo(p))
      && HandledAt(w, q, i, d.id, Returned(Json(value)))
      && forall first: nat :: FirstAt(w.peers[q].filter.accepted, d.id, first)
                              && |w.peers[q].filter.accepted| - 1 - first <= cap ==>
           forall j :: 0 <= j < |w.peers[q].filter.accepted| && w.peers[q].filter.accepted[j] == d.id ==>
             j == i == first
  {
    var w := After(peers, steps, cap);
    RunKeepsInv(peers, steps, cap);
    assert PeerInv(w, p, cap) && Justified(w, p, d.id, Json(value));
    var act;
    q, i, act :| q in w.issued[d.id].audience && HandledAt(w, q, i, d.id, act) && Json(value) == ReplyFor(act);
    var callee := CallsHaveOneCallee(peers, steps, cap, d.id);
    assert PeerInv(w, q, cap);
    var accepted := w.peers[q].filter.accepted;
    hide PeerInv, Justified, Inv, Tracks;
    forall first: nat | FirstAt(accepted, d.id, first) && |accepted| - 1 - first <= cap
      ensures forall j :: 0 <= j < |accepted| && accepted[j] == d.id ==> j == i == first
    {
      OnceInWindow(accepted, d.id, first, cap);
    }
  }

  /** And a call can succeed: from any state in which neither peer's filter remembers the id, a fresh call of
      p to another peer q, handled and answered there, completes p's promise with the handler's result. */
  lemma CallCanSucceed(w: World, cap: Capacity, p: PeerId, q: PeerId, u: Id, reply: Reply)
    requires p in w.peers && q in w.peers && p != q && u !in w.issued
    requires u !in w.peers[p].filter.keys && u !in w.peers[q].filter.keys
    ensures var call := Call(p, q, u);
      && Enabled(w, call)
      && var w1 := Execute(w, call, cap); var handle := Receive(q, Request({q}, u, ReplyTo(p)), Returned(reply));
      && Enabled(w1, handle)
      && var w2 := Execute(w1, handle, cap); var answer := Receive(p, Response(p, u, reply), NoScope);
      && Enabled(w2, answer)
      && Execute(w2, answer, cap).peers[p].table.done ==
         w.peers[p].table.done + [Done(w.peers[p].table.next, u, Completed(reply))]
  {
  }

  lemma SpacedApart(accepted: seq<Id>, cap: Capacity, i: nat, j: nat)
    requires Spaced(accepted, cap) && i < |accepted| && j < |accepted| && i != j && accepted[i] == accepted[j]
    ensures i - j > cap || j - i > cap
  {
  }

  /** In every reachable state, a response that arrives completes a promise if and only if its id is not among
      the last cap ids let through and a promise waits under it; else the table stays as it is. */
  lemma ReplyCompletesIff(peers: set<PeerId>, steps: seq<Step>, cap: Capacity, p: PeerId, m: Message, act: Act)
    requires Possible(peers, steps, cap) && m.Response?
    requires Enabled(After(peers, steps, cap), Receive(p, m, act))
    ensures var w := After(peers, steps, cap);
      var before, after := w.peers[p], Execute(w, Receive(p, m, act), cap).peers[p];
      if m.id !in Window(before.filter.accepted, cap) && m.id in before.table.promises then
        after.table.done == before.table.done + [Done(before.table.promises[m.id], m.id, Completed(m.reply))]
        && after.table.promises == before.table.promises - {m.id}
      else after.table == before.table
  {
    RunKeepsInv(peers, steps, cap);
    var w := After(peers, steps, cap);
    assert PeerInv(w, p, cap);
    TracksMeansWindow(w.peers[p].filter, cap, m.id);
  }

  /** A peer that calls itself can only get an answer after its filter has forgotten the request:
      request and response were let through more than cap ids apart. */
  lemma OwnReplyIsDropped(peers: set<PeerId>, steps: seq<Step>, cap: Capacity, p: PeerId, d: Done)
    returns (i: nat, j: nat)
    requires Possible(peers, steps, cap) && p in After(peers, steps, cap).peers
    requires d in After(peers, steps, cap).peers[p].table.done
    requires d.id in After(peers, steps, cap).issued ==>
      After(peers, steps, cap).issued[d.id] == Request({p}, d.id, ReplyTo(p))
    ensures var a := After(peers, steps, cap).peers[p].filter.accepted;
      i < |a| && j < |a| && a[i] == a[j] == d.id && (i - j > cap || j - i > cap)
  {
    var w := After(peers, steps, cap);
    RunKeepsInv(peers, steps, cap);
    assert PeerInv(w, p, cap) && Justified(w, p, d.id, d.completion.reply);
    var q, act;
    q, i, act :| q in w.issued[d.id].audience && HandledAt(w, q, i, d.id, act) && d.completion.reply == ReplyFor(act);
    assert AnswerLogged(w.peers[p], d.id);
    j :| 0 <= j < |w.peers[p].events| && w.peers[p].filter.accepted[j] == d.id && w.peers[p].events[j].Answered?;
    assert w.peers[p].events[i].Handled? && i != j;
    hide *;
    SpacedApart(w.peers[p].filter.accepted, cap, i, j);
  }
}
