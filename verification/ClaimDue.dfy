/** A delivery that is still due to an adaptor that attaches again while the relay is at work: it
    keeps the adaptor in step exactly if the attachment found it fitting. */
module ClaimDue {
  import opened Options
  import opened Sequences
  import opened Claims
  import opened ClaimProtocol
  import opened ClaimInvariant
  import opened ClaimNotes
  import opened ClaimSafety

  /** A step that neither is another attachment or the detachment of `h` nor starts a delivery. */
  predicate Leaves(step: Step, h: nat) {
    && !step.DrainNote? && (step.AttachStep? ==> step.h != h) && (step.DetachStep? ==> step.h != h)
  }

  /** A delivery of `a` is still due to the holder `h`, which attached since it was copied. */
  predicate Due(s: State, h: nat, a: bool, direct: bool) {
    && h in Left(s) && s.pass.Some? && s.pass.value.acquired == a && Distinct(Left(s)) && Holder(s, h)
    && (direct ==> Heard(s, h) == [true])
    && var last := s.claim.value.lastNotifiedOwned;
       if h in s.rejoined then (Heard(s, h) == [true] && last) || (Heard(s, h) == [] && last != a)
       else Heard(s, h) == [] && last == a
  }

  /** The same for a step that stops short of `h`. */
  predicate Same(s: State, t: State, h: nat) {
    && s.pass.Some? && t.pass.Some? && t.pass.value.acquired == s.pass.value.acquired && h in Left(t) && Distinct(Left(t))
    && Holder(s, h) && Holder(t, h)
    && t.claim.value.lastNotifiedOwned == s.claim.value.lastNotifiedOwned
    && Heard(t, h) == Heard(s, h) && (h in t.rejoined <==> h in s.rejoined)
  }

  lemma SameStaysDue(s: State, t: State, h: nat, a: bool, direct: bool)
    requires Due(s, h, a, direct) && Same(s, t, h)
    ensures Due(t, h, a, direct)
  {
    hide Left, Heard, Holder, Distinct;
  }

  lemma AttachDue(s: State, h: nat, how: How)
    requires Good(s) && Enabled(s, AttachStep(h, how)) && h in Left(s)
    ensures Due(Attached(s, h, how), h, s.pass.value.acquired,
                s.claim.Some? && s.claim.value.refs > 0 && s.claim.value.owned && s.claim.value.lastNotifiedOwned)
  {
    if s.claim.Some? && s.claim.value.refs > 0 {
      JoinFacts(s, h, how);
    } else {
      StartFacts(s, h, how);
    }
    hide Good, Attached, Distinct;
    GoodLeft(s);
  }

  lemma GoodLeft(s: State)
    requires Good(s)
    ensures Distinct(Left(s))
  {
  }

  /** Another adaptor attaches or detaches. */
  lemma OthersComeAndGo(s: State, step: Step, h: nat)
    requires Good(s) && Enabled(s, step) && (step.AttachStep? || step.DetachStep?) && step.h != h
    requires h in Left(s) && Holder(s, h)
    ensures Same(s, Next(s, step), h)
  {
    GoodLeft(s);
    match step {
      case AttachStep(x, how) => JoinFacts(s, x, how);
      case DetachStep(x) =>
        DetachFrame(s, x);
        RemoveFirstKeeps(s.claim.value.holders, x);
        TwoHolders(s.claim.value.holders, h, x);
    }
    hide Good, Attached, Detached, RemoveFirst, Distinct, OutOfStep, LossComesFirst;
  }

  lemma TwoHolders(holders: seq<nat>, h: nat, x: nat)
    requires h in holders && x in holders && h != x
    ensures |holders| > 1
  {
  }

  lemma OthersAreTold(s: State, alive: bool, h: nat)
    requires Good(s) && Enabled(s, TellNext(alive)) && h in Left(ToldNext(s, alive)) && Holder(s, h)
    ensures Same(s, ToldNext(s, alive), h)
  {
    hide Good, Distinct;
    GoodLeft(s);
    DistinctTail(Left(s));
  }

  lemma ResolveDue(s: State, h: nat, a: bool, direct: bool)
    requires Good(s) && Enabled(s, ResolveStep) && Due(s, h, a, direct)
    ensures Due(Resolved(s), h, a, direct)
  {
    assert FirstOk(s, h);
    ResolveFacts(s);
    hide Good, Resolved, Distinct;
  }

  /** Nothing but DrainNote makes deliveries due. */
  lemma {:induction false} RunLeft(s: State, run: seq<Step>, h: nat)
    requires Possible(s, run) && h in Left(After(s, run)) && forall step :: step in run ==> Leaves(step, h)
    ensures h in Left(s)
    decreases |run|
  {
    if run != [] {
      assert run[0] in run;
      RunLeft(Next(s, run[0]), run[1..], h);
      StepLeft(s, run[0], h);
    }
  }

  lemma StepLeft(s: State, step: Step, h: nat)
    requires Enabled(s, step) && !step.DrainNote? && h in Left(Next(s, step))
    ensures h in Left(s)
  {
    hide Served, RequestName, Without, Signal, Attach, Detach, OnReply, OnOwnerChange, OnConnectionLost, FinishDetach;
    if step.Serve? {
      ServedFrame(s, step.replyFirst);
    }
  }

  /** A record with a holder is no tombstone. */
  lemma FinishNotNow(s: State, step: Step, h: nat)
    requires Inv(s) && Enabled(s, step) && Holder(s, h)
    ensures !step.FinishDetachStep?
  {
  }

  lemma StepDue(s: State, step: Step, h: nat, a: bool, direct: bool)
    requires Good(s) && Enabled(s, step) && Leaves(step, h) && !step.FinishDetachStep?
    requires Due(s, h, a, direct) && h in Left(Next(s, step))
    ensures Due(Next(s, step), h, a, direct)
  {
    if Aside(step) {
      AsideUnheard(s, step);
      AsideSame(s, step, h);
      SameStaysDue(s, Next(s, step), h, a, direct);
    } else if step.ResolveStep? {
      ResolveDue(s, h, a, direct);
    } else {
      if step.TellNext? {
        OthersAreTold(s, step.alive, h);
      } else {
        OthersComeAndGo(s, step, h);
      }
      SameStaysDue(s, Next(s, step), h, a, direct);
    }
  }

  lemma AsideSame(s: State, step: Step, h: nat)
    requires Good(s) && Enabled(s, step) && Aside(step) && !step.FinishDetachStep? && Unheard(s, Next(s, step))
    requires Holder(s, h) && h in Left(s)
    ensures Same(s, Next(s, step), h)
  {
    GoodLeft(s);
    assert Next(s, step).claim.Some? by {
      if step.Deliver? {
        DeliverFrameNotes(s);
      }
      hide Good, RequestName, Without, Signal, Delivered;
    }
    hide Good, Next, Distinct;
  }

  lemma {:induction false} RunDue(s: State, run: seq<Step>, h: nat, a: bool, direct: bool)
    requires Good(s) && Possible(s, run) && (forall step :: step in run ==> Leaves(step, h))
    requires Due(s, h, a, direct) && h in Left(After(s, run))
    ensures Due(After(s, run), h, a, direct) && Good(After(s, run))
    decreases |run|
  {
    hide Inv, Tokens, Announced, HeardInv, Next;
    if run != [] {
      assert run[0] in run;
      FinishNotNow(s, run[0], h);
      RunLeft(Next(s, run[0]), run[1..], h);
      StepDue(s, run[0], h, a, direct);
      StepKeepsAll(s, run[0]);
      RunDue(Next(s, run[0]), run[1..], h, a, direct);
    }
  }

  lemma ToldFits(s: State, h: nat, a: bool, direct: bool)
    requires Due(s, h, a, direct) && Enabled(s, TellNext(true)) && Left(s)[0] == h
    ensures var t := ToldNext(s, true);
            && t.claim.Some?
            && (Alternates(Heard(t, h)) && LastHeard(Heard(t, h), t.claim.value.lastNotifiedOwned) <==> h !in t.rejoined)
            && Heard(t, h) == Heard(s, h) + [a]
  {
    var t := ToldNext(s, true);
    assert t.claim == s.claim && t.rejoined == s.rejoined && Heard(t, h) == Heard(s, h) + [a];
    hide ToldNext, Distinct;
    if Heard(s, h) == [true] {
      assert Heard(t, h) == [true, a];
      assert a ==> Heard(t, h)[1] == Heard(t, h)[0];
    } else {
      assert Heard(t, h) == [a];
    }
  }

  /** An adaptor attaches while a delivery copied before is still due to it, and, whatever else
      happens meanwhile, gets that delivery. What it has heard then alternates and ends in what the
      record last delivered exactly if the attachment, or the registration that resolved it, found
      the delivery fitting. */
  lemma DueDeliveryFits(s0: State, run: seq<Step>, s: State, h: nat, how: How, more: seq<Step>)
    requires Reached(s0, run, s) && Enabled(s, AttachStep(h, how)) && h in Left(s)
    requires Possible(Attached(s, h, how), more) && forall step :: step in more ==> Leaves(step, h)
    requires var u := After(Attached(s, h, how), more); Enabled(u, TellNext(true)) && Left(u) != [] && Left(u)[0] == h
    ensures var t := ToldNext(After(Attached(s, h, how), more), true);
            && t.claim.Some?
            && (Alternates(Heard(t, h)) && LastHeard(Heard(t, h), t.claim.value.lastNotifiedOwned) <==> h !in t.rejoined)
  {
    ReachedGood(s0, run, s);
    StepKeepsAll(s, AttachStep(h, how));
    AttachDue(s, h, how);
    hide Good, Due, Attached, Alternates, LastHeard;
    var direct := s.claim.Some? && s.claim.value.refs > 0 && s.claim.value.owned && s.claim.value.lastNotifiedOwned;
    RunDue(Attached(s, h, how), more, h, s.pass.value.acquired, direct);
    ToldFits(After(Attached(s, h, how), more), h, s.pass.value.acquired, direct);
  }

  /** In particular: an adaptor told directly that the name is owned, with the same news still due to
      it, hears it twice. */
  lemma ToldDirectlyHearsTwice(s0: State, run: seq<Step>, s: State, h: nat, how: How, more: seq<Step>)
    requires Reached(s0, run, s) && Enabled(s, AttachStep(h, how)) && h in Left(s) && s.pass.value.acquired
    requires s.claim.Some? && s.claim.value.refs > 0 && s.claim.value.owned && s.claim.value.lastNotifiedOwned
    requires Possible(Attached(s, h, how), more) && forall step :: step in more ==> Leaves(step, h)
    requires var u := After(Attached(s, h, how), more); Enabled(u, TellNext(true)) && Left(u) != [] && Left(u)[0] == h
    ensures var t := ToldNext(After(Attached(s, h, how), more), true);
            Heard(t, h) == [true, true] && !Alternates(Heard(t, h))
  {
    ReachedGood(s0, run, s);
    StepKeepsAll(s, AttachStep(h, how));
    AttachDue(s, h, how);
    RunDue(Attached(s, h, how), more, h, true, true);
    var u := After(Attached(s, h, how), more);
    hide Good, Attached, After;
    ToldFits(u, h, true, true);
    assert Heard(ToldNext(u, true), h)[1] == Heard(ToldNext(u, true), h)[0];
  }
}
