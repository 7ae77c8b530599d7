/** Answering a call: the reply tail of a dispatch, deferred replies, and the adaptor's stack
    of dispatch contexts. */
module HeldReply {
  import opened Options

  /** A message sent in answer to the call with this serial. */
  datatype Answer = Answer(serial: nat, isError: bool)

  /** sendMethodReply: a required reply is exactly one message, an error exactly when a value
      is there and it, or what the declaration makes of it, cannot be sent. */
  method SendMethodReply(serial: nat, required: bool, valid: bool, sendable: bool, declaredOuts: Option<nat>,
      coercedSendable: bool)
    returns (sent: seq<Answer>)
    ensures |sent| == if required then 1 else 0
    ensures required ==> sent[0].serial == serial
    ensures required ==> (sent[0].isError <==> valid && (!sendable || (declaredOuts.Some? && declaredOuts.value > 0 && !coercedSendable)))
  {
    sent := [];
    if !required {
      return;
    }
    if !valid {
      sent := sent + [Answer(serial, false)];
      return;
    }
    if !sendable {
      sent := sent + [Answer(serial, true)];
      return;
    }
    if declaredOuts == Some(0) {
      sent := sent + [Answer(serial, false)];
      return;
    }
    if declaredOuts.Some? {
      if !coercedSendable {
        sent := sent + [Answer(serial, true)];
        return;
      }
      sent := sent + [Answer(serial, false)];
      return;
    }
    sent := sent + [Answer(serial, false)];
  }

  // ------------------------------------------------------------------ deferred replies

  datatype Handle = Handle(serial: nat, required: bool, settled: bool, ttl: bool)

  function Settle(h: Handle): Handle {
    h.(settled := true, ttl := false)
  }

  /** The one message a settling handle owes, if its caller wants one. */
  function Owed(h: Handle, isError: bool): seq<Answer> {
    if h.settled || !h.required then [] else [Answer(h.serial, isError)]
  }

  /** The connection a reply goes out on. */
  class Wire {
    var sent: seq<Answer>

    constructor ()
      ensures sent == []
    {
      sent := [];
    }

    method Send(a: Answer)
      modifies this
      ensures sent == old(sent) + [a]
    {
      sent := sent + [a];
    }
  }

  class DeferredReply {
    const wire: Wire
    const serial: nat
    const required: bool
    var adaptorAlive: bool
    var settled: bool
    var ttl: bool

    ghost function Value(): Handle
      reads this
    {
      Handle(serial, required, settled, ttl)
    }

    constructor (wire: Wire, serial: nat, required: bool, ttl: bool)
      ensures this.wire == wire && adaptorAlive && Value() == Handle(serial, required, false, ttl)
    {
      this.wire, this.serial, this.required := wire, serial, required;
      adaptorAlive, settled, this.ttl := true, false, ttl;
    }

    method SettleNow()
      modifies this
      ensures adaptorAlive == old(adaptorAlive) && Value() == Settle(old(Value()))
    {
      settled := true;
      if ttl {
        ttl := false;
      }
    }

    /** What every settling path does once it knows the handle is open. */
    method SettleWith(isError: bool)
      requires !settled
      modifies this, wire
      ensures adaptorAlive == old(adaptorAlive) && Value() == Settle(old(Value()))
      ensures wire.sent == old(wire.sent) + if required then [Answer(serial, isError)] else []
    {
      if required {
        wire.Send(Answer(serial, isError));
      }
      assert old(wire.sent) + [] == old(wire.sent);
      SettleNow();
    }

    /** send: `tail` says whether the reply tail ends in an error. A handle without its
        adaptor answers with an error. */
    method Send(tail: bool)
      modifies this, wire
      ensures adaptorAlive == old(adaptorAlive) && Value() == if old(settled) then old(Value()) else Settle(old(Value()))
      ensures wire.sent == old(wire.sent) + if !old(settled) && required then [Answer(serial, !adaptorAlive || tail)] else []
    {
      if settled {
        assert old(wire.sent) + [] == old(wire.sent);
        return;
      }
      if !adaptorAlive {
        SettleWith(true);
        return;
      }
      SettleWith(tail);
    }

    method SendError()
      modifies this, wire
      ensures adaptorAlive == old(adaptorAlive) && Value() == if old(settled) then old(Value()) else Settle(old(Value()))
      ensures wire.sent == old(wire.sent) + if !old(settled) && required then [Answer(serial, true)] else []
    {
      if settled {
        assert old(wire.sent) + [] == old(wire.sent);
        return;
      }
      SettleWith(true);
    }

    /** The timer's entry point. */
    method Expire()
      modifies this, wire
      ensures adaptorAlive == old(adaptorAlive) && Value() == if old(settled) then old(Value()) else Settle(old(Value()))
      ensures wire.sent == old(wire.sent) + if !old(settled) && required then [Answer(serial, true)] else []
    {
      if settled {
        assert old(wire.sent) + [] == old(wire.sent);
        return;
      }
      SettleWith(true);
    }
  }

  // ------------------------------------------------------------------------ the adaptor

  /** PendingCall: the call being dispatched and, once it is deferred, its handle. */
  datatype Context = Context(serial: nat, required: bool, reply: Option<nat>)

  const NOCALL := Context(0, false, None)

  datatype Adaptor = Adaptor(current: Context, stack: seq<Context>, inDispatch: bool, handles: seq<Handle>,
      ttl: bool, attached: bool, alive: bool)

  /** DispatchScope's constructor and destructor. */
  function Push(a: Adaptor, serial: nat, required: bool): Adaptor {
    a.(stack := a.stack + [a.current], current := Context(serial, required, None), inDispatch := true)
  }

  function Pop(a: Adaptor, saved: bool): Adaptor
    requires a.stack != []
  {
    a.(current := a.stack[|a.stack| - 1], stack := a.stack[..|a.stack| - 1], inDispatch := saved)
  }

  /** holdReply: outside a dispatch nothing, twice in one dispatch the same handle. */
  function Hold(a: Adaptor): (Adaptor, Option<nat>) {
    if !a.inDispatch then (a, None)
    else if a.current.reply.Some? then (a, a.current.reply)
    else
      var i := |a.handles|;
      (a.(handles := a.handles + [Handle(a.current.serial, a.current.required, false, a.ttl)],
          current := a.current.(reply := Some(i))), Some(i))
  }

  function Closed(h: Handle): Handle {
    if h.settled then h else Settle(h)
  }

  /** The tail unregister and the destructor share: error out whatever is still open. */
  function ClosedAll(hs: seq<Handle>): (r: seq<Handle>)
    ensures |r| == |hs| && forall i :: 0 <= i < |hs| ==> r[i] == Closed(hs[i])
  {
    if hs == [] then [] else ClosedAll(hs[..|hs| - 1]) + [Closed(hs[|hs| - 1])]
  }

  function OwedAll(hs: seq<Handle>): seq<Answer> {
    if hs == [] then [] else OwedAll(hs[..|hs| - 1]) + Owed(hs[|hs| - 1], true)
  }

  /** The calls whose handles are open and want an answer. */
  function Waiting(hs: seq<Handle>): seq<nat> {
    if hs == [] then []
    else
      var last := hs[|hs| - 1];
      Waiting(hs[..|hs| - 1]) + if last.required && !last.settled then [last.serial] else []
  }

  /** Each of them is owed one error, and nobody else anything. */
  lemma {:induction false} OwedIsErrors(hs: seq<Handle>)
    ensures |OwedAll(hs)| == |Waiting(hs)|
    ensures forall i :: 0 <= i < |Waiting(hs)| ==> OwedAll(hs)[i] == Answer(Waiting(hs)[i], true)
  {
    if hs != [] {
      OwedIsErrors(hs[..|hs| - 1]);
    }
  }

  lemma NothingOwed(h: Handle)
    requires h.settled
    ensures Owed(h, true) == []
  {
  }

  lemma OwedStart(hs: seq<Handle>)
    ensures OwedAll(hs[..0]) == []
  {
  }

  lemma OwedStep(hs: seq<Handle>, k: nat)
    requires k < |hs|
    ensures OwedAll(hs[..k + 1]) == OwedAll(hs[..k]) + Owed(hs[k], true)
  {
    assert hs[..k + 1][..k] == hs[..k];
  }

  class ServedAdaptor {
    const wire: Wire
    var current: Context
    var stack: seq<Context>
    var inDispatch: bool
    var children: seq<DeferredReply>
    var ttl: bool
    var attached: bool

    ghost predicate Valid()
      reads this, children
    {
      && (forall i :: 0 <= i < |children| ==> children[i].wire == wire)
      && forall i, j :: 0 <= i < j < |children| ==> children[i] != children[j]
    }

    ghost function Handles(): (hs: seq<Handle>)
      reads this, children
    {
      seq(|children|, i requires 0 <= i < |children| reads this, children => children[i].Value())
    }

    ghost function Value(): Adaptor
      reads this, children
    {
      Adaptor(current, stack, inDispatch, Handles(), ttl, attached, true)
    }

    constructor (wire: Wire, ttl: bool)
      ensures this.wire == wire && Valid() && Value() == Adaptor(NOCALL, [], false, [], ttl, true, true)
    {
      this.wire, current, stack, inDispatch := wire, NOCALL, [], false;
      children, this.ttl, attached := [], ttl, true;
    }

    /** DispatchScope's constructor; the caller keeps the saved flag. */
    method EnterScope(serial: nat, required: bool) returns (saved: bool)
      requires Valid()
      modifies this
      ensures Valid() && saved == old(inDispatch) && Value() == Push(old(Value()), serial, required)
    {
      stack := stack + [current];
      current := Context(serial, required, None);
      saved := inDispatch;
      inDispatch := true;
    }

    /** DispatchScope's destructor. */
    method LeaveScope(saved: bool)
      requires Valid() && stack != []
      modifies this
      ensures Valid() && Value() == Pop(old(Value()), saved)
    {
      current := stack[|stack| - 1];
      stack := stack[..|stack| - 1];
      inDispatch := saved;
    }

    method HoldReply() returns (reply: Option<nat>)
      requires Valid()
      modifies this
      ensures Valid() && (Value(), reply) == Hold(old(Value()))
    {
      if !inDispatch {
        return None;
      }
      if current.reply.Some? {
        return current.reply;
      }
      var handle := new DeferredReply(wire, current.serial, current.required, ttl);
      reply := Some(|children|);
      children := children + [handle];
      current := current.(reply := reply);
      assert Handles() == old(Handles()) + [handle.Value()];
    }

    method Close(child: DeferredReply)
      requires child.wire == wire
      modifies child, wire
      ensures child.Value() == Closed(old(child.Value()))
      ensures wire.sent == old(wire.sent) + Owed(old(child.Value()), true)
    {
      if !child.settled {
        child.SendError();
      } else {
        NothingOwed(child.Value());
      }
    }

    /** findChildren and sendError on each that is open. */
    method SettleChildren()
      requires Valid()
      modifies set i | 0 <= i < |children| :: children[i]
      modifies wire
      ensures Valid() && Handles() == ClosedAll(old(Handles()))
      ensures wire.sent == old(wire.sent) + OwedAll(old(Handles()))
      ensures |wire.sent| == |old(wire.sent)| + |Waiting(old(Handles()))|
      ensures forall i :: 0 <= i < |Waiting(old(Handles()))| ==>
                wire.sent[|old(wire.sent)| + i] == Answer(Waiting(old(Handles()))[i], true)
    {
      hide Owed, OwedAll, Closed, ClosedAll;
      var k := 0;
      ghost var was := Handles();
      OwedStart(was);
      while k < |children|
        invariant 0 <= k <= |children| && Valid() && |was| == |children|
        invariant forall i :: 0 <= i < |children| ==> children[i].Value() == if i < k then Closed(was[i]) else was[i]
        invariant wire.sent == old(wire.sent) + OwedAll(was[..k])
      {
        OwedStep(was, k);
        assert children[k].Value() == was[k];
        Close(children[k]);
        k := k + 1;
      }
      assert was[..k] == was;
      assert Handles() == ClosedAll(was);
      OwedIsErrors(was);
    }

    method Unregister()
      requires Valid()
      modifies this, wire
      modifies set i | 0 <= i < |children| :: children[i]
      ensures Valid() && Value() == if old(attached) then old(Value()).(handles := ClosedAll(old(Handles())),
          attached := false) else old(Value())
      ensures wire.sent == old(wire.sent) + if old(attached) then OwedAll(old(Handles())) else []
    {
      if !attached {
        assert old(wire.sent) + [] == old(wire.sent);
        return;
      }
      hide ClosedAll, OwedAll;
      SettleChildren();
      assert Handles() == ClosedAll(old(Handles()));
      attached := false;
      assert Handles() == ClosedAll(old(Handles()));
    }
  }
}
