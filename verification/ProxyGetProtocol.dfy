/** The read path over whole runs: handlers of finished may call getProperty again while the
    other replies of the same Get are still due. */
module ProxyGetProtocol {
  import opened Options
  import opened Sequences
  import opened ProxyGets

  datatype State = State(
    proxy: Proxy,
    inFlight: map<nat, string>,  // the wire Gets not yet answered, and their names
    answers: map<nat, Outcome>,  // what the wire answered
    current: nat,                // the Get whose replies are being settled
    due: seq<nat>)               // the replies it still has to settle

  predicate Start(s: State) {
    s.proxy == Proxy(map[], [], 0) && s.inFlight == map[] && s.answers == map[] && s.due == []
  }

  datatype Step =
    | GetStep(name: string)
    | Complete(call: nat, outcome: Outcome)
    | SettleNext

  predicate Enabled(s: State, step: Step) {
    match step
    case GetStep(_) => true
    case Complete(call, _) => s.due == [] && call in s.inFlight
    case SettleNext => s.due != [] && s.due[0] < |s.proxy.replies| && s.current in s.answers
  }

  function Next(s: State, step: Step): State
    requires Enabled(s, step)
  {
    match step
    case GetStep(name) =>
      var q := GetProperty(s.proxy, name);
      s.(proxy := q, inFlight := if q.calls > s.proxy.calls then s.inFlight[s.proxy.calls := name] else s.inFlight)
    case Complete(call, outcome) =>
      // the watcher knows the name, and the record is looked up under it
      var (q, ids) := Take(s.proxy, s.inFlight[call]);
      s.(proxy := q, inFlight := s.inFlight - {call}, answers := s.answers[call := outcome], current := call, due := ids)
    case SettleNext =>
      var id := s.due[0];
      s.(proxy := s.proxy.(replies := s.proxy.replies[id := Settle(s.proxy.replies[id], s.answers[s.current])]),
          due := s.due[1..])
  }

  predicate Possible(s: State, run: seq<Step>)
    decreases |run|
  {
    run == [] || (Enabled(s, run[0]) && Possible(Next(s, run[0]), run[1..]))
  }

  function After(s: State, run: seq<Step>): State
    requires Possible(s, run)
    decreases |run|
  {
    if run == [] then s else After(Next(s, run[0]), run[1..])
  }

  // --------------------------------------------------------------- what every step keeps

  function Members(pg: PendingGet): seq<nat> {
    [pg.owner] + pg.waiters
  }

  /** Distinct replies of one call, none of them settled. */
  predicate Waiting(p: Proxy, ids: seq<nat>, call: nat) {
    Distinct(ids) && forall id :: id in ids ==> id < |p.replies| && p.replies[id] == Reply(call, None, 0)
  }

  /** Records and Gets in flight are the same thing. */
  predicate Recorded(s: State) {
    && (forall name :: name in s.proxy.pending ==>
          var call := s.proxy.pending[name].call;
          call in s.inFlight && s.inFlight[call] == name)
    && (forall call :: call in s.inFlight ==>
          call < s.proxy.calls && call !in s.answers && s.inFlight[call] in s.proxy.pending
              && s.proxy.pending[s.inFlight[call]].call == call)
    && (forall call :: call in s.answers ==> call < s.proxy.calls)
  }

  /** A reply is due from its Get in flight, due from the Get being settled, or settled with what
      its own Get was answered. */
  predicate ReplyOk(s: State, id: nat)
    requires id < |s.proxy.replies|
  {
    var r := s.proxy.replies[id];
    && r.call < s.proxy.calls
    && match r.outcome
       case Some(o) => r.call in s.answers && o == s.answers[r.call] && r.fired == 1
       case None =>
         && r.fired == 0
         && if r.call in s.inFlight then s.inFlight[r.call] in s.proxy.pending
             && id in Members(s.proxy.pending[s.inFlight[r.call]])
            else r.call in s.answers && s.current == r.call && id in s.due
  }

  ghost predicate Inv(s: State) {
    && Recorded(s)
    && (forall name :: name in s.proxy.pending ==>
        Waiting(s.proxy, Members(s.proxy.pending[name]), s.proxy.pending[name].call))
    && Waiting(s.proxy, s.due, s.current)
    && (s.due != [] ==> s.current in s.answers)
    && (forall id :: 0 <= id < |s.proxy.replies| ==> ReplyOk(s, id))
  }

  lemma GetKeeps(s: State, name: string)
    requires Inv(s)
    ensures Inv(Next(s, GetStep(name)))
  {
    var t := Next(s, GetStep(name));
    var n := |s.proxy.replies|;
    forall id | 0 <= id < |t.proxy.replies| ensures ReplyOk(t, id) {
      if id < n {
        assert ReplyOk(s, id);
      } else if name in s.proxy.pending {
        assert t.proxy.pending[name].waiters[|s.proxy.pending[name].waiters|] == n;
      }
    }
    forall m | m in t.proxy.pending ensures Waiting(t.proxy, Members(t.proxy.pending[m]), t.proxy.pending[m].call) {
      GetKeepsWaiting(s, name, m);
    }
  }

  lemma GetKeepsWaiting(s: State, name: string, m: string)
    requires Inv(s) && m in Next(s, GetStep(name)).proxy.pending
    ensures var q := Next(s, GetStep(name)).proxy; Waiting(q, Members(q.pending[m]), q.pending[m].call)
  {
    var q := Next(s, GetStep(name)).proxy;
    hide Recorded, ReplyOk;
    if m == name && name in s.proxy.pending {
      var pg := s.proxy.pending[name];
      var ids, n := Members(pg), |s.proxy.replies|;
      assert Waiting(s.proxy, ids, pg.call);
      assert Members(q.pending[m]) == ids + [n];
      assert n !in ids;
      forall i, j | 0 <= i < j < |ids + [n]| ensures (ids + [n])[i] != (ids + [n])[j] {
        assert ids[i] in ids;
      }
    } else if m == name {
      assert Members(q.pending[m]) == [|s.proxy.replies|];
    }
  }

  lemma CompleteKeeps(s: State, call: nat, outcome: Outcome)
    requires Inv(s) && Enabled(s, Complete(call, outcome))
    ensures Inv(Next(s, Complete(call, outcome)))
  {
    var t := Next(s, Complete(call, outcome));
    var name := s.inFlight[call];
    assert t.due == Members(s.proxy.pending[name]);
    forall id | 0 <= id < |t.proxy.replies| ensures ReplyOk(t, id) {
      assert ReplyOk(s, id);
    }
  }

  lemma SettleKeeps(s: State)
    requires Inv(s) && Enabled(s, SettleNext)
    ensures Inv(Next(s, SettleNext))
  {
    var t := Next(s, SettleNext);
    var id0 := s.due[0];
    DistinctTail(s.due);
    assert ReplyOk(s, id0);
    forall id | 0 <= id < |t.proxy.replies| ensures ReplyOk(t, id) {
      assert ReplyOk(s, id);
    }
    forall name | name in t.proxy.pending ensures Waiting(t.proxy, Members(t.proxy.pending[name]),
        t.proxy.pending[name].call) {
      assert s.proxy.pending[name].call in s.inFlight;
      assert id0 !in Members(s.proxy.pending[name]);
    }
  }

  lemma StepKeeps(s: State, step: Step)
    requires Inv(s) && Enabled(s, step)
    ensures Inv(Next(s, step))
  {
    hide Inv;
    match step
    case GetStep(name) => GetKeeps(s, name);
    case Complete(call, outcome) => CompleteKeeps(s, call, outcome);
    case SettleNext => SettleKeeps(s);
  }

  lemma {:induction false} RunKeeps(s: State, run: seq<Step>)
    requires Inv(s) && Possible(s, run)
    ensures Inv(After(s, run))
    decreases |run|
  {
    hide Inv, Next;
    if run != [] {
      StepKeeps(s, run[0]);
      RunKeeps(Next(s, run[0]), run[1..]);
    }
  }

  ghost predicate Reached(s0: State, run: seq<Step>, s: State) {
    Start(s0) && Possible(s0, run) && s == After(s0, run)
  }

  lemma ReachedInv(s0: State, run: seq<Step>, s: State)
    requires Reached(s0, run, s)
    ensures Inv(s)
  {
    assert Inv(s0);
    hide Inv, Start;
    RunKeeps(s0, run);
  }

  // ---------------------------------------------------------------------- guarantees

  /** Never two Gets of one name in flight. */
  lemma OneGetInFlight(s0: State, run: seq<Step>, s: State, a: nat, b: nat)
    requires Reached(s0, run, s) && a in s.inFlight && b in s.inFlight && s.inFlight[a] == s.inFlight[b]
    ensures a == b
  {
    ReachedInv(s0, run, s);
  }

  /** Every reply handed out fires finished exactly once when its own Get is answered, with that
      answer, and not before; once the deliveries of an answer are over nobody is left out, and
      everybody who shared the Get heard the same. */
  lemma EveryReplySettlesOnce(s0: State, run: seq<Step>, s: State, id: nat)
    requires Reached(s0, run, s) && id < |s.proxy.replies|
    ensures var r := s.proxy.replies[id];
            && r.fired == (if r.outcome.Some? then 1 else 0)
            && (r.outcome.Some? ==> r.call in s.answers && r.outcome.value == s.answers[r.call])
            && (r.call in s.inFlight ==> r.outcome.None?)
            && (r.call in s.answers && s.due == [] ==> r.outcome == Some(s.answers[r.call]))
            && (r.call in s.inFlight || r.call in s.answers)
  {
    ReachedInv(s0, run, s);
    assert ReplyOk(s, id);
  }

  /** Deliveries under way can always go on. */
  lemma DeliveriesGoOn(s0: State, run: seq<Step>, s: State)
    requires Reached(s0, run, s) && s.due != []
    ensures Enabled(s, SettleNext)
  {
    ReachedInv(s0, run, s);
    assert s.due[0] in s.due;
  }

  /** A settled reply keeps its value through whatever follows. */
  lemma {:induction false} SettledStays(s: State, run: seq<Step>, id: nat)
    requires Possible(s, run) && id < |s.proxy.replies| && s.proxy.replies[id].outcome.Some?
    ensures id < |After(s, run).proxy.replies| && After(s, run).proxy.replies[id] == s.proxy.replies[id]
    decreases |run|
  {
    if run != [] {
      SettledStays(Next(s, run[0]), run[1..], id);
    }
  }

  // ---------------------------------------------------------------------- the order

  predicate Rising(ids: seq<nat>) {
    forall i, j :: 0 <= i < j < |ids| ==> ids[i] < ids[j]
  }

  /** Replies of one Get settle in the order they were handed out. */
  predicate PairInOrder(s: State, a: nat, b: nat)
    requires a < b < |s.proxy.replies|
  {
    s.proxy.replies[a].call == s.proxy.replies[b].call && s.proxy.replies[b].outcome.Some? ==> s.proxy.replies[a].outcome.Some?
  }

  ghost predicate InOrder(s: State) {
    && (forall name :: name in s.proxy.pending ==> Rising(Members(s.proxy.pending[name])))
    && Rising(s.due)
    && (forall a, b :: 0 <= a < b < |s.proxy.replies| ==> PairInOrder(s, a, b))
  }

  lemma GetInOrder(s: State, name: string)
    requires Inv(s) && InOrder(s)
    ensures InOrder(Next(s, GetStep(name)))
  {
    var t := Next(s, GetStep(name));
    var n := |s.proxy.replies|;
    forall m | m in t.proxy.pending ensures Rising(Members(t.proxy.pending[m])) {
      if m == name && name in s.proxy.pending {
        var ids := Members(s.proxy.pending[name]);
        assert Waiting(s.proxy, ids, s.proxy.pending[name].call);
        assert Members(t.proxy.pending[m]) == ids + [n];
        forall i | 0 <= i < |ids| ensures ids[i] < n {
          assert ids[i] in ids;
        }
      }
    }
    hide Waiting, Recorded, ReplyOk, Members, Rising;
    forall a, b | 0 <= a < b < |t.proxy.replies| ensures PairInOrder(t, a, b) {
      if b < n {
        assert PairInOrder(s, a, b);
      }
    }
  }

  lemma CompleteInOrder(s: State, call: nat, outcome: Outcome)
    requires Inv(s) && InOrder(s) && Enabled(s, Complete(call, outcome))
    ensures InOrder(Next(s, Complete(call, outcome)))
  {
    var t := Next(s, Complete(call, outcome));
    assert t.due == Members(s.proxy.pending[s.inFlight[call]]);
    hide Waiting, ReplyOk, Members, Rising;
    forall a, b | 0 <= a < b < |t.proxy.replies| ensures PairInOrder(t, a, b) {
      assert PairInOrder(s, a, b);
    }
  }

  lemma SettleInOrder(s: State)
    requires Inv(s) && InOrder(s) && Enabled(s, SettleNext)
    ensures InOrder(Next(s, SettleNext))
  {
    var t := Next(s, SettleNext);
    var id0 := s.due[0];
    forall i, j | 0 <= i < j < |t.due| ensures t.due[i] < t.due[j] {
      assert t.due[i] == s.due[i + 1] && t.due[j] == s.due[j + 1];
    }
    forall a, b | 0 <= a < b < |t.proxy.replies| ensures PairInOrder(t, a, b) {
      assert PairInOrder(s, a, b);
      if b == id0 {
        FirstDueIsEldest(s, a);
      }
    }
  }

  /** Whatever shares the Get of the reply that settles next and is older has settled. */
  lemma FirstDueIsEldest(s: State, a: nat)
    requires Inv(s) && InOrder(s) && Enabled(s, SettleNext) && a < s.due[0]
    ensures s.proxy.replies[a].call == s.proxy.replies[s.due[0]].call ==> s.proxy.replies[a].outcome.Some?
  {
    assert s.due[0] in s.due;
    assert ReplyOk(s, a) && ReplyOk(s, s.due[0]);
    assert forall i :: 0 <= i < |s.due| ==> s.due[0] <= s.due[i];
  }

  lemma {:induction false} RunInOrder(s: State, run: seq<Step>)
    requires Inv(s) && InOrder(s) && Possible(s, run)
    ensures InOrder(After(s, run))
    decreases |run|
  {
    hide Inv, InOrder, Next;
    if run != [] {
      StepKeeps(s, run[0]);
      match run[0] {
        case GetStep(name) => GetInOrder(s, name);
        case Complete(call, outcome) => CompleteInOrder(s, call, outcome);
        case SettleNext => SettleInOrder(s);
      }
      RunInOrder(Next(s, run[0]), run[1..]);
    }
  }

  /** Over every run the replies of one Get settle in the order in which they were handed out, also while
      handlers ask again in between. */
  lemma RepliesSettleInOrder(s0: State, run: seq<Step>, s: State, a: nat, b: nat)
    requires Reached(s0, run, s) && a < b < |s.proxy.replies|
    requires s.proxy.replies[a].call == s.proxy.replies[b].call && s.proxy.replies[b].outcome.Some?
    ensures s.proxy.replies[a].outcome.Some?
  {
    assert Inv(s0) && InOrder(s0);
    hide Inv, Start;
    RunInOrder(s0, run);
    assert PairInOrder(s, a, b);
  }
}
