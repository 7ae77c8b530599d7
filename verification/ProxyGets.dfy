/** The proxy's read path: one Get in flight per wire name, answered to every reply object
    handed out for it, each of which settles and fires once. */
module ProxyGets {
  import opened Options

  /** What a wire reply says: a value, or an error in its place. */
  datatype Outcome = Value(v: nat) | Error(code: nat)

  /** A DBusPendingReply. `fired` counts emissions of finished. */
  datatype Reply = Reply(call: nat, outcome: Option<Outcome>, fired: nat)

  /** settle with direct delivery: one shot. */
  function Settle(r: Reply, o: Outcome): Reply {
    if r.outcome.Some? then r else r.(outcome := Some(o), fired := r.fired + 1)
  }

  datatype PendingGet = PendingGet(call: nat, owner: nat, waiters: seq<nat>)

  datatype Proxy = Proxy(
    pending: map<string, PendingGet>,
    replies: seq<Reply>, // every reply object ever handed out
    calls: nat)          // wire Gets ever sent, numbered from 0

  function GetProperty(p: Proxy, name: string): Proxy {
    var id := |p.replies|;
    if name in p.pending then
      var pg := p.pending[name];
      p.(pending := p.pending[name := pg.(waiters := pg.waiters + [id])], replies := p.replies + [Reply(pg.call, None, 0)])
    else
      p.(pending := p.pending[name := PendingGet(p.calls, id, [])], replies := p.replies + [Reply(p.calls, None, 0)],
          calls := p.calls + 1)
  }

  /** finishPendingGet up to the first delivery: the record goes before anybody is told. */
  function Take(p: Proxy, name: string): (Proxy, seq<nat>) {
    if name !in p.pending then (p, [])
    else (p.(pending := p.pending - {name}), [p.pending[name].owner] + p.pending[name].waiters)
  }

  class PendingReply {
    const call: nat
    var outcome: Option<Outcome>
    var fired: nat

    ghost function State(): Reply
      reads this
    {
      Reply(call, outcome, fired)
    }

    constructor (call: nat)
      ensures State() == Reply(call, None, 0)
    {
      this.call, outcome, fired := call, None, 0;
    }

    /** completeFromReply and the settle it ends in. */
    method CompleteFromReply(o: Outcome)
      modifies this
      ensures State() == Settle(old(State()), o)
    {
      if outcome.Some? {
        return;
      }
      outcome := Some(o);
      fired := fired + 1;
    }
  }

  class ProxyReads {
    var pendingGets: map<string, PendingGet>
    var replies: seq<PendingReply>
    var calls: nat
    var wire: seq<string> // the name of every Get sent

    ghost predicate Valid()
      reads this, replies
    {
      && |wire| == calls
      && forall i, j :: 0 <= i < j < |replies| ==> replies[i] != replies[j]
    }

    ghost function State(): Proxy
      reads this, replies
    {
      Proxy(pendingGets, seq(|replies|, i requires 0 <= i < |replies| reads this, replies => replies[i].State()), calls)
    }

    constructor ()
      ensures Valid() && State() == Proxy(map[], [], 0) && wire == []
    {
      pendingGets, replies, calls, wire := map[], [], 0, [];
    }

    /** getProperty on a proxy with a target: a Get goes out only if none is in flight. */
    method Get(name: string) returns (reply: PendingReply)
      requires Valid()
      modifies this
      ensures Valid() && fresh(reply) && replies == old(replies) + [reply]
      ensures State() == GetProperty(old(State()), name)
      ensures wire == if name in old(pendingGets) then old(wire) else old(wire) + [name]
    {
      var id := |replies|;
      if name in pendingGets {
        var pg := pendingGets[name];
        reply := new PendingReply(pg.call);
        pendingGets := pendingGets[name := pg.(waiters := pg.waiters + [id])];
      } else {
        reply := new PendingReply(calls);
        pendingGets := pendingGets[name := PendingGet(calls, id, [])];
        calls, wire := calls + 1, wire + [name];
      }
      replies := replies + [reply];
      assert State().replies == old(State()).replies + [reply.State()];
    }

    /** finishPendingGet with handlers that do not come back: everybody is answered from the one
        reply, nobody else is touched. */
    method FinishPendingGet(name: string, o: Outcome)
      requires Valid()
      requires name in pendingGets ==> forall id :: id in [pendingGets[name].owner] + pendingGets[name].waiters ==>
          id < |replies|
      modifies this`pendingGets
      modifies set i | 0 <= i < |replies| :: replies[i]
      ensures Valid() && pendingGets == old(pendingGets) - {name}
      ensures forall i :: 0 <= i < |replies| ==>
                            replies[i].State() == if i in Take(old(State()),
                                name).1 then Settle(old(replies[i].State()), o) else old(replies[i].State())
    {
      if name !in pendingGets {
        return;
      }
      var pg := pendingGets[name];
      pendingGets := pendingGets - {name};
      var due := [pg.owner] + pg.waiters;
      var k := 0;
      while k < |due|
        invariant 0 <= k <= |due| && pendingGets == old(pendingGets) - {name}
        invariant forall i :: 0 <= i < |replies| ==>
                                replies[i].State() == if i in due[..k] then Settle(old(replies[i].State()),
                                    o) else old(replies[i].State())
      {
        assert due[k] in due && due[..k + 1] == due[..k] + [due[k]];
        replies[due[k]].CompleteFromReply(o);
        k := k + 1;
      }
      assert due[..k] == due;
    }
  }
}
