/** The callee's side as the code runs it: duplicate filter, responses, and calls of registered methods. */
module RpcCallee {
  import opened Options
  import opened LruSpec
  import opened LruSet
  import opened RpcCaller
  import opened RpcProtocol

  /** What a registered method makes of its arguments; ill-formed ones and exceptions raise. */
  datatype Outcome = Raises | Yields(reply: Reply)

  type Handler = string -> Outcome

  /** Registered methods by scope and name. */
  type Methods = map<string, map<string, Handler>>

  function ActOf(methods: Methods, isJson: string -> bool, scope: string, name: string, args: string): Act {
    if scope !in methods then NoScope
    else if name !in methods[scope] || !isJson(args) then Failed
    else match methods[scope][name](args)
      case Raises => Failed
      case Yields(reply) => Returned(reply)
  }

  /** What is answered when an answer is asked for. */
  lemma AnswerOf(methods: Methods, isJson: string -> bool, scope: string, name: string, args: string)
    ensures var act := ActOf(methods, isJson, scope, name, args);
      && (act.NoScope? <==> scope !in methods)
      && ReplyFor(act) == if scope in methods && name in methods[scope] && isJson(args)
                             && methods[scope][name](args).Yields?
                          then methods[scope][name](args).reply else Null
  {
  }

  lemma RanMeansNew(f: Filter<Id>, id: Id, cap: Capacity)
    ensures Offer(f, id, cap).accepted == if id in f.keys then f.accepted else f.accepted + [id]
    ensures id in f.keys ==> Offer(f, id, cap) == f
  {
  }

  class CalleeStub {
    const manager: UniqueTaskManager<Id>
    const caller: CallerStub
    const methods: Methods
    const isJson: string -> bool
    ghost var events: seq<Event>

    ghost predicate Valid()
      reads this, manager, caller
      reads manager.runningTasks, manager.runningTasks.cacheList, manager.runningTasks.cacheList.nodes
    {
      manager.Valid() && caller.Valid()
    }

    ghost function View(): Peer
      reads this, manager, caller, manager.runningTasks, manager.runningTasks.cacheList
    {
      Peer(manager.State(), events, caller.View())
    }

    constructor (manager: UniqueTaskManager<Id>, caller: CallerStub, methods: Methods, isJson: string -> bool)
      ensures this.manager == manager && this.caller == caller && this.methods == methods && this.isJson == isJson
      ensures events == []
    {
      this.manager, this.caller, this.methods, this.isJson, events := manager, caller, methods, isJson, [];
    }

    /** A message from the network, with the method name and arguments it carries.  It does to this peer
        what the protocol's `Receive` step says, and yields the response to send, if any. */
    method TryHandleRequest(scope: string, m: Message, name: string, args: string) returns (response: Option<Message>)
      requires Valid()
      modifies this, manager, caller
      modifies manager.runningTasks, manager.runningTasks.cacheList, manager.runningTasks.cacheList.nodes
      ensures Valid()
      ensures (View(), response) ==
              ReceiveAt(old(View()), m, ActOf(methods, isJson, scope, name, args), manager.runningTasks.capacity)
      ensures m.id in Window(old(manager.accepted), manager.runningTasks.capacity) ==>
        View() == old(View()) && response == None
      ensures m.id !in Window(old(manager.accepted), manager.runningTasks.capacity) ==>
        manager.accepted == old(manager.accepted) + [m.id]
      ensures m.id !in Window(old(manager.accepted), manager.runningTasks.capacity) && m.Request? ==>
        && caller.View() == old(caller.View())
        && (m.replyTo == NoReply || scope !in methods ==> response == None)
        && (m.replyTo.ReplyTo? && scope in methods ==> response == Some(Response(m.replyTo.peer, m.id,
              if name in methods[scope] && isJson(args) && methods[scope][name](args).Yields?
              then methods[scope][name](args).reply else Null)))
      ensures m.id !in Window(old(manager.accepted), manager.runningTasks.capacity) && m.Response? ==>
        && response == None && caller.promises == old(caller.promises) - {m.id}
        && caller.outcomes ==
           if m.id in old(caller.promises) then old(caller.outcomes)[old(caller.promises)[m.id] := Completed(m.reply)]
           else old(caller.outcomes)
    {
      AnswerOf(methods, isJson, scope, name, args);
      hide LruSet.Valid, Sound, Outcomes, Window, Offer, ActOf, ReplyFor;
      ghost var before := View();
      assert manager.State().keys == before.filter.keys;
      var ran := manager.Run(m.id);
      RanMeansNew(before.filter, m.id, manager.runningTasks.capacity);
      response := None;
      if ran {
        response := Dispatch(scope, m, name, args);
      }
    }

    /** What happens to a message whose id was let through. */
    method Dispatch(scope: string, m: Message, name: string, args: string) returns (response: Option<Message>)
      requires caller.Valid()
      modifies this`events, caller
      ensures caller.Valid()
      ensures caller.outcomes ==
        if m.Response? && m.id in old(caller.promises)
        then old(caller.outcomes)[old(caller.promises)[m.id] := Completed(m.reply)] else old(caller.outcomes)
      ensures var act := ActOf(methods, isJson, scope, name, args);
        if m.Response? then
          events == old(events) + [Answered(m.reply)] && response == None &&
          caller.View() == Apply(old(caller.View()), Solve(m.id, m.reply))
        else
          events == old(events) + [Handled(act)] && caller.View() == old(caller.View()) &&
          response == if m.replyTo.ReplyTo? && !act.NoScope?
                      then Some(Response(m.replyTo.peer, m.id, ReplyFor(act))) else None
    {
      response := None;
      match m {
        case Response(_, id, reply) =>
          caller.SolvePromise(id, reply);
          events := events + [Answered(reply)];
        case Request(_, id, replyTo) =>
          var act := HandleCall(scope, name, args);
          if replyTo.ReplyTo? && !act.NoScope? {
            response := Some(Response(replyTo.peer, id, ReplyFor(act)));
          }
          events := events + [Handled(act)];
      }
    }

    method HandleCall(scope: string, name: string, args: string) returns (act: Act)
      ensures act == ActOf(methods, isJson, scope, name, args)
    {
      if scope !in methods {
        return NoScope;
      }
      if name !in methods[scope] {
        return Failed;
      }
      if !isJson(args) {
        return Failed;
      }
      match methods[scope][name](args)
      case Raises => act := Failed;
      case Yields(reply) => act := Returned(reply);
    }
  }
}
