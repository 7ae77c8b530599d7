/** What a loss does to a claim: a broken connection withdraws the pending release, and an ownership
    lost to somebody else does not come back with the late answer to an old request. */
module ClaimLoss {
  import opened Options
  import Sequences
  import opened Claims
  import opened ClaimProtocol
  import opened ClaimInvariant
  import opened ClaimNotes
  import opened ClaimSafety

  /** No attach in a run starts a claim: each one joins a claim that has holders. */
  predicate NoStart(s: State, run: seq<Step>)
    requires Possible(s, run)
    decreases |run|
  {
    run == [] || (Joins(s, run[0]) && NoStart(Next(s, run[0]), run[1..]))
  }

  predicate Joins(s: State, step: Step) {
    step.AttachStep? ==> Live(s) && s.claim.value.refs > 0
  }

  // ------------------------------------------------------------------ a broken connection

  /** Nothing follows the loss of the connection, and nothing precedes it once the line is dead. */
  predicate LossIsLast(s: State) {
    && (forall i :: 0 <= i < |s.inb| - 1 ==> s.inb[i] != Disconnected)
    && (s.dead ==> s.inb == [] || s.inb[|s.inb| - 1] == Disconnected)
  }

  lemma AttachLine(s: State, h: nat, how: How)
    ensures var t := Attached(s, h, how); t.dead == s.dead && t.inb == s.inb && (s.dead ==> t.out == s.out)
  {
    hide Attach, OutOfStep, LossComesFirst;
  }

  /** On a dead line nothing is sent and nothing new arrives. */
  lemma DeadLine(s: State, step: Step)
    requires Inv(s) && s.dead && Enabled(s, step)
    ensures var t := Next(s, step); t.dead && t.out == [] && t.inb == if step.Deliver? then s.inb[1..] else s.inb
  {
    hide Attached, Attach, Detach, OnReply, OnOwnerChange, OnConnectionLost, FinishDetach, RequestName, Without, Drain;
    assert s.inb + [] == s.inb;
    if step.AttachStep? {
      AttachLine(s, step.h, step.how);
    }
  }

  lemma StepKeepsLossLast(s: State, step: Step)
    requires Inv(s) && LossIsLast(s) && Enabled(s, step) && Inv(Next(s, step))
    ensures LossIsLast(Next(s, step))
  {
    var t := Next(s, step);
    hide Shape, Calls, Tenure, Knows, Next;
    if s.dead {
      DeadLine(s, step);
    } else if t.dead {
      OnlyCutKills(s, step);
    }
  }

  lemma OnlyCutKills(s: State, step: Step)
    requires !s.dead && Enabled(s, step) && Next(s, step).dead
    ensures Next(s, step).inb == s.inb + [Disconnected]
  {
    hide Attached, Served, Detach, OnReply, OnOwnerChange, OnConnectionLost, FinishDetach, RequestName, Without, Signal, Drain;
    match step
    case AttachStep(h, how) => AttachLine(s, h, how);
    case Serve(replyFirst) => ServedStreams(s, replyFirst);
    case _ =>
  }

  lemma {:induction false} RunKeepsLossLast(s: State, run: seq<Step>)
    requires Good(s) && LossIsLast(s) && Possible(s, run)
    ensures LossIsLast(After(s, run))
    decreases |run|
  {
    hide Tokens, Announced, HeardInv, LossIsLast, Inv, Next;
    if run != [] {
      StepKeepsAll(s, run[0]);
      StepKeepsLossLast(s, run[0]);
      RunKeepsLossLast(Next(s, run[0]), run[1..]);
    }
  }

  /** What a step that neither starts a claim nor delivers anything leaves of a live record. */
  predicate Kept(s: State, t: State) {
    && !t.phase.Registering?
    && (Live(t) ==>
          && Live(s)
          && var c, c' := s.claim.value, t.claim.value;
             c'.owned == c.owned && c'.requestSent == c.requestSent && c'.requestToken == c.requestToken
                 && c'.lostSinceSend == c.lostSinceSend)
  }

  lemma JoinKept(s: State, h: nat, how: How)
    requires !s.phase.Registering? && Live(s) && s.claim.value.refs > 0
    ensures Kept(s, Attached(s, h, how))
  {
    hide OutOfStep, LossComesFirst;
  }

  lemma DetachKept(s: State, h: nat)
    requires s.claim.Some? && !s.phase.Registering?
    ensures Kept(s, Detached(s, h))
  {
    hide Sequences.RemoveFirst;
  }

  lemma StepKept(s: State, step: Step)
    requires Shape(s) && !s.phase.Registering? && Enabled(s, step) && Joins(s, step) && !step.Deliver?
    ensures Kept(s, Next(s, step))
  {
    hide Attached, Detached, Served, Drained, RequestName, Without, Signal;
    match step
    case AttachStep(h, how) => JoinKept(s, h, how);
    case DetachStep(h) => DetachKept(s, h);
    case Serve(replyFirst) => ServedFrame(s, replyFirst);
    case DrainNote => DrainKept(s);
    case _ =>
  }

  lemma DrainKept(s: State)
    requires s.notes > 0 && !s.phase.Registering?
    ensures Kept(s, Drained(s))
  {
  }

  /** After the loss has arrived: what is left of the claim, until the next start. */
  predicate CutOff(s: State, requested: bool) {
    && s.dead && s.inb == [] && s.out == [] && !s.phase.Registering?
    && (Live(s) ==> !s.claim.value.owned && s.claim.value.requestSent == requested)
  }

  lemma StepKeepsCutOff(s: State, step: Step, requested: bool)
    requires Inv(s) && CutOff(s, requested) && Enabled(s, step) && Joins(s, step)
    ensures CutOff(Next(s, step), requested)
  {
    hide Stream, Calls, Tenure, Knows, Next;
    DeadLine(s, step);
    StepKept(s, step);
  }

  lemma {:induction false} RunKeepsCutOff(s: State, run: seq<Step>, requested: bool)
    requires Good(s) && CutOff(s, requested) && Possible(s, run) && NoStart(s, run)
    ensures CutOff(After(s, run), requested)
    decreases |run|
  {
    hide Tokens, Announced, HeardInv, CutOff, Inv, Next, Joins;
    if run != [] {
      StepKeepsAll(s, run[0]);
      StepKeepsCutOff(s, run[0], requested);
      RunKeepsCutOff(Next(s, run[0]), run[1..], requested);
    }
  }

  /** When the loss of the connection reaches a live claim, then until the next start, whatever
      happens, the claim stays unowned, and its last detach makes a blocking release on the dead
      connection exactly if the claim had been requested without being owned. */
  lemma LossWithdrawsRelease(s0: State, run: seq<Step>, s: State, more: seq<Step>)
    requires Reached(s0, run, s) && s.inb != [] && s.inb[0] == Disconnected && Enabled(s, Deliver) && Live(s)
    requires Possible(Next(s, Deliver), more) && NoStart(Next(s, Deliver), more)
    ensures var u := After(Next(s, Deliver), more);
            && (Live(u) ==> !u.claim.value.owned)
            && forall h :: Enabled(u, DetachStep(h)) && u.claim.value.refs == 1 ==>
                 (Next(u, DetachStep(h)).phase.Releasing? <==> !s.claim.value.owned && s.claim.value.requestSent)
  {
    ReachedGood(s0, run, s);
    StartGood(s0);
    assert LossIsLast(s0);
    RunKeepsLossLast(s0, run);
    StepKeepsAll(s, Deliver);
    var t := Next(s, Deliver);
    var requested := !s.claim.value.owned && s.claim.value.requestSent;
    assert CutOff(t, requested) by { LossArrives(s); }
    RunKeepsCutOff(t, more, requested);
    RunGood(t, more);
    hide Next, After;
    var u := After(t, more);
    forall h | Enabled(u, DetachStep(h)) && u.claim.value.refs == 1
      ensures Next(u, DetachStep(h)).phase.Releasing? <==> requested
    {
      LastDetachReleases(u, h, requested);
    }
  }

  lemma LossArrives(s: State)
    requires Inv(s) && LossIsLast(s) && s.inb != [] && s.inb[0] == Disconnected && Enabled(s, Deliver) && Live(s)
    ensures CutOff(Next(s, Deliver), !s.claim.value.owned && s.claim.value.requestSent)
  {
    hide Shape, Calls, Tenure, Knows;
    assert s.dead;
  }

  lemma LastDetachReleases(u: State, h: nat, requested: bool)
    requires Inv(u) && CutOff(u, requested) && Enabled(u, DetachStep(h)) && u.claim.value.refs == 1
    ensures Next(u, DetachStep(h)).phase.Releasing? <==> requested
  {
    hide Stream, Calls, Tenure, Knows;
  }

  // ------------------------------------------------------------------ a lost ownership

  /** How many answers to the request of a token are still to come. */
  function Requests(out: seq<Outgoing>, k: nat): nat {
    if out == [] then 0 else Requests(out[1..], k) + if out[0].Request? && out[0].token == k then 1 else 0
  }

  function Replies(inb: seq<Incoming>, k: nat): nat {
    if inb == [] then 0 else Replies(inb[1..], k) + if inb[0].Reply? && inb[0].token == k then 1 else 0
  }

  function Answers(s: State, k: nat): nat {
    Requests(s.out, k) + Replies(s.inb, k)
  }

  ghost predicate Once(s: State) {
    forall k :: Answers(s, k) <= 1
  }

  lemma {:induction false} RequestsAppend(a: seq<Outgoing>, b: seq<Outgoing>, k: nat)
    ensures Requests(a + b, k) == Requests(a, k) + Requests(b, k)
  {
    if a == [] {
      assert a + b == b;
    } else {
      assert (a + b)[1..] == a[1..] + b;
      RequestsAppend(a[1..], b, k);
    }
  }

  lemma {:induction false} RepliesAppend(a: seq<Incoming>, b: seq<Incoming>, k: nat)
    ensures Replies(a + b, k) == Replies(a, k) + Replies(b, k)
  {
    if a == [] {
      assert a + b == b;
    } else {
      assert (a + b)[1..] == a[1..] + b;
      RepliesAppend(a[1..], b, k);
    }
  }

  lemma {:induction false} NoneNumbered(out: seq<Outgoing>, inb: seq<Incoming>, n: nat, k: nat)
    requires Numbered(out, inb, n) && k > n
    ensures Requests(out, k) == 0 && Replies(inb, k) == 0
  {
    if out != [] {
      assert out[0] in out && forall m :: m in out[1..] ==> m in out;
      NoneNumbered(out[1..], inb, n, k);
    } else if inb != [] {
      assert inb[0] in inb && forall m :: m in inb[1..] ==> m in inb;
      NoneNumbered(out, inb[1..], n, k);
    }
  }

  lemma NoRequest(out: seq<Outgoing>, m: Outgoing, k: nat)
    requires !m.Request?
    ensures Requests(out + [m], k) == Requests(out, k)
  {
    RequestsAppend(out, [m], k);
    assert [m][1..] == [];
  }

  lemma NoReply(inb: seq<Incoming>, m: Incoming, k: nat)
    requires !m.Reply?
    ensures Replies(inb + [m], k) == Replies(inb, k) && Requests([], k) == 0
  {
    RepliesAppend(inb, [m], k);
    assert [m][1..] == [];
  }

  lemma FirstReply(inb: seq<Incoming>, k: nat)
    requires inb != []
    ensures Replies(inb, k) == Replies(inb[1..], k) + if inb[0].Reply? && inb[0].token == k then 1 else 0
  {
  }

  lemma SignalAnswers(s: State, d: seq<Seat>, k: nat)
    ensures Replies(Signal(s, d), k) == 0
  {
  }

  lemma MoveAnswers(s: State, d: seq<Seat>, k: nat)
    ensures Answers(Move(s, d), k) == Answers(s, k)
  {
    SignalAnswers(s, d, k);
    RepliesAppend(s.inb, Signal(s, d), k);
    hide Signal, Replies, Requests;
  }

  lemma ServeAnswers(s: State, replyFirst: bool, k: nat)
    requires s.out != []
    ensures Answers(Served(s, replyFirst), k) == Answers(s, k)
  {
    hide RequestName, Without, Signal;
    match s.out[0]
    case AddMatch =>
    case Request(token, allow, replace, noQueue) =>
      var (d, code) := RequestName(s.daemon, Seat(s.me, allow, noQueue), replace);
      RequestAnswers(s, d, Reply(token, code), replyFirst, k);
    case BlockingRequest => MoveAnswers(s.(out := s.out[1..]), RequestName(s.daemon, Seat(s.me, false, true), false).0, k);
    case Release => MoveAnswers(s.(out := s.out[1..]), Without(s.daemon, s.me), k);
  }

  lemma RequestAnswers(s: State, d: seq<Seat>, reply: Incoming, replyFirst: bool, k: nat)
    requires reply.Reply?
    ensures var more := if replyFirst then [reply] + Signal(s, d) else Signal(s, d) + [reply];
            Replies(s.inb + more, k) == Replies(s.inb, k) + if reply.token == k then 1 else 0
  {
    var more := if replyFirst then [reply] + Signal(s, d) else Signal(s, d) + [reply];
    RepliesAppend(s.inb, more, k);
    RepliesAppend([reply], Signal(s, d), k);
    RepliesAppend(Signal(s, d), [reply], k);
    SignalAnswers(s, d, k);
    assert [reply][1..] == [];
    hide Signal;
  }

  /** What an attach adds to our stream. */
  lemma AttachSends(s: State, h: nat, how: How)
    ensures var t := Attached(s, h, how);
            && s.out <= t.out && t.inb == s.inb && |t.out| <= |s.out| + 2
            && (|t.out| == |s.out| + 2 ==> t.out[|s.out|] == AddMatch)
            && (forall i :: |s.out| <= i < |t.out| && t.out[i].Request? ==> t.out[i].token == s.nextToken + 1)
            && (Joins(s, AttachStep(h, how)) ==> t.out == s.out)
  {
    hide OutOfStep, LossComesFirst;
  }

  /** A flagged start asks under a new token; nothing else is ever asked. */
  lemma AttachAnswers(s: State, h: nat, how: How, k: nat)
    ensures Answers(Attached(s, h, how), k) <= Answers(s, k) + if k == s.nextToken + 1 then 1 else 0
    ensures Joins(s, AttachStep(h, how)) ==> Answers(Attached(s, h, how), k) == Answers(s, k)
  {
    hide Attached, Replies, Joins;
    AttachSends(s, h, how);
    var t := Attached(s, h, how);
    var more := t.out[|s.out|..];
    assert t.out == s.out + more;
    RequestsAppend(s.out, more, k);
    if |more| == 2 {
      assert more == [AddMatch] + [more[1]] && [AddMatch][1..] == [];
      RequestsAppend([AddMatch], [more[1]], k);
      assert [more[1]][1..] == [];
    } else if |more| == 1 {
      assert more[1..] == [];
    }
  }

  lemma StepAnswers(s: State, step: Step, k: nat)
    requires Enabled(s, step)
    ensures Answers(Next(s, step), k) <= Answers(s, k) + if step.AttachStep? && k == s.nextToken + 1 then 1 else 0
    ensures Joins(s, step) ==> Answers(Next(s, step), k) <= Answers(s, k)
    ensures step.Deliver? && s.inb[0].Reply? && s.inb[0].token == k ==> Answers(Next(s, step), k) == Answers(s, k) - 1
  {
    hide Attached, Served, Detach, OnReply, OnOwnerChange, OnConnectionLost, FinishDetach, RequestName, Without, Drain, Resolve;
    hide Signal, Move, Requests, Replies;
    match step
    case AttachStep(h, how) => AttachAnswers(s, h, how, k);
    case Serve(replyFirst) => ServeAnswers(s, replyFirst, k);
    case OtherRequests(seat, replace) => MoveAnswers(s, RequestName(s.daemon, seat, replace).0, k);
    case OtherLeaves(conn) => MoveAnswers(s, Without(s.daemon, conn), k);
    case DetachStep(_) => NoRequest(s.out, Release, k);
    case SubscribeElsewhere => NoRequest(s.out, AddMatch, k);
    case Cut => NoReply(s.inb, Disconnected, k);
    case Deliver => FirstReply(s.inb, k);
    case _ =>
  }

  lemma StepKeepsOnce(s: State, step: Step)
    requires Tokens(s) && Once(s) && Enabled(s, step)
    ensures Once(Next(s, step))
  {
    hide Next, Enabled;
    forall k ensures Answers(Next(s, step), k) <= 1 {
      StepAnswers(s, step, k);
      if k == s.nextToken + 1 {
        NoneNumbered(s.out, s.inb, s.nextToken, k);
      }
      assert Answers(s, k) <= 1;
    }
  }

  lemma {:induction false} RunKeepsOnce(s: State, run: seq<Step>)
    requires Good(s) && Once(s) && Possible(s, run)
    ensures Once(After(s, run))
    decreases |run|
  {
    hide Inv, Tokens, Announced, HeardInv, Once, Next;
    if run != [] {
      StepKeepsAll(s, run[0]);
      StepKeepsOnce(s, run[0]);
      RunKeepsOnce(Next(s, run[0]), run[1..]);
    }
  }

  /** No step of a run delivers the news that the name is ours. */
  predicate NoGain(s: State, run: seq<Step>)
    requires Possible(s, run)
    decreases |run|
  {
    run == [] || (Gainless(s, run[0]) && NoGain(Next(s, run[0]), run[1..]))
  }

  predicate Gainless(s: State, step: Step) {
    step.Deliver? && s.inb != [] ==> s.inb[0] != OwnerChanged(s.me)
  }

  /** The claim has lost the name since its last request, and will ignore the answer if that is
      still to come. */
  predicate LostAt(s: State, k: nat) {
    && !s.phase.Registering?
    && (Live(s) ==>
          var c := s.claim.value;
          c.requestToken == k && !c.owned && (c.lostSinceSend || Answers(s, k) == 0))
  }

  lemma DeliverKeepsLost(s: State, k: nat)
    requires Inv(s) && Once(s) && LostAt(s, k) && Enabled(s, Deliver) && Gainless(s, Deliver)
    ensures LostAt(Next(s, Deliver), k)
  {
    StepAnswers(s, Deliver, k);
    assert Answers(s, k) <= 1;
    hide Stream, Calls, Tenure, Knows, Answers, Once;
    var m := s.inb[0];
    if Live(s) && m.Reply? && m.token == k {
      assert Answers(Next(s, Deliver), k) == 0;
    }
  }

  lemma StepKeepsLost(s: State, step: Step, k: nat)
    requires Inv(s) && Once(s) && LostAt(s, k) && Enabled(s, step) && Joins(s, step) && Gainless(s, step)
    ensures LostAt(Next(s, step), k)
  {
    hide Stream, Calls, Tenure, Knows, Answers, Once, Next;
    if step.Deliver? {
      DeliverKeepsLost(s, k);
    } else {
      StepAnswers(s, step, k);
      StepKept(s, step);
    }
  }

  lemma {:induction false} RunKeepsLost(s: State, run: seq<Step>, k: nat)
    requires Good(s) && Once(s) && LostAt(s, k) && Possible(s, run) && NoStart(s, run) && NoGain(s, run)
    ensures LostAt(After(s, run), k)
    decreases |run|
  {
    hide Inv, Tokens, Announced, HeardInv, Once, LostAt, Joins, Gainless, Next;
    if run != [] {
      StepKeepsAll(s, run[0]);
      StepKeepsOnce(s, run[0]);
      StepKeepsLost(s, run[0], k);
      RunKeepsLost(Next(s, run[0]), run[1..], k);
    }
  }

  /** An ownership that is lost while the connection lives comes back by a signal or by a new start
      only: no late answer to the request that won it can bring it back. */
  lemma LostStaysLost(s0: State, run: seq<Step>, s: State, more: seq<Step>)
    requires Reached(s0, run, s) && Enabled(s, Deliver) && s.phase == Idle && Live(s) && s.claim.value.owned
    requires s.inb[0].OwnerChanged? && s.inb[0].newOwner != s.me
    requires Possible(Next(s, Deliver), more) && NoStart(Next(s, Deliver), more) && NoGain(Next(s, Deliver), more)
    ensures var u := After(Next(s, Deliver), more); Live(u) ==> !u.claim.value.owned
  {
    ReachedGood(s0, run, s);
    StartGood(s0);
    assert Once(s0);
    RunKeepsOnce(s0, run);
    StepKeepsAll(s, Deliver);
    StepKeepsOnce(s, Deliver);
    LossIsNoted(s);
    hide Good, Once, Next, After;
    RunKeepsLost(Next(s, Deliver), more, s.claim.value.requestToken);
  }

  lemma LossIsNoted(s: State)
    requires Shape(s) && Enabled(s, Deliver) && s.phase == Idle && Live(s) && s.claim.value.owned
    requires s.inb[0].OwnerChanged? && s.inb[0].newOwner != s.me
    ensures LostAt(Next(s, Deliver), s.claim.value.requestToken)
  {
    hide Answers;
  }
}
