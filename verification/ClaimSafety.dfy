/** What the claim protocol guarantees over every run, and where it stops. */
module ClaimSafety {
  import opened Options
  import opened Claims
  import opened ClaimProtocol
  import opened ClaimInvariant
  import opened ClaimNotes

  /** A run from a start leads to a state. */
  ghost predicate Reached(s0: State, run: seq<Step>, s: State) {
    Start(s0) && Possible(s0, run) && s == After(s0, run)
  }

  lemma ReachedGood(s0: State, run: seq<Step>, s: State)
    requires Reached(s0, run, s)
    ensures Good(s)
  {
    hide Good, Start;
    StartGood(s0);
    RunGood(s0, run);
  }

  // --------------------------------------------------------------------- convergence

  /** Once our messages are served and everything under way has arrived, a live claim knows
      exactly whether we own the name, whatever the run before did. */
  lemma Converges(s0: State, run: seq<Step>, s: State)
    requires Reached(s0, run, s)
    requires s.inb == [] && s.out == [] && s.phase == Idle && Live(s)
    ensures s.claim.value.owned <==> Owner(s.daemon) == s.me
  {
    ReachedGood(s0, run, s);
  }

  /** Signals alone decide: it is enough that no ownership event is under way and that the
      answer to a request of ours is not. */
  lemma ConvergesEarly(s0: State, run: seq<Step>, s: State)
    requires Reached(s0, run, s)
    requires s.phase == Idle && Live(s)
    requires forall m :: m in s.inb ==> m.Reply? && !Grant(m)
    requires forall m :: m in s.out ==> !m.Request?
    ensures s.claim.value.owned <==> Owner(s.daemon) == s.me
  {
    ReachedGood(s0, run, s);
    RepliesDecideNothing(s.inb, s.me);
  }

  lemma {:induction false} RepliesDecideNothing(inb: seq<Incoming>, me: string)
    requires forall m :: m in inb ==> m.Reply?
    ensures Verdict(inb, me) == None
  {
    if inb != [] {
      assert inb[0] in inb;
      RepliesDecideNothing(inb[1..], me);
    }
  }

  /** A reply moves a record only if it answers the record's own last request. */
  lemma OnlyTheOwnReplyCounts(s0: State, run: seq<Step>, s: State)
    requires Reached(s0, run, s)
    requires s.inb != [] && s.inb[0].Reply? && Delivered(s).claim != s.claim
    ensures Live(s) && s.inb[0].token == s.claim.value.requestToken
    ensures !s.dead ==> s.claim.value.requestSent
  {
    ReachedGood(s0, run, s);
    hide Inv, Announced, HeardInv;
    var m := s.inb[0];
    assert m in s.inb;
  }

  // --------------------------------------------------------------------- ghost owners

  /** Whenever the record is gone, the daemon holds us neither as the owner nor in the queue,
      and nothing under way can change that. */
  lemma NoRecordNoSeat(s0: State, run: seq<Step>, s: State)
    requires Reached(s0, run, s) && s.claim == None
    ensures !Holds(s.daemon, s.me) && NoAsync(s.out)
  {
    ReachedGood(s0, run, s);
  }

  /** The last detach of a flagged claim on a live connection withdraws the name. */
  lemma LastDetachWithdraws(s0: State, run: seq<Step>, s: State, h: nat)
    requires Reached(s0, run, s)
    requires Enabled(s, DetachStep(h)) && s.claim.value.flagged && s.claim.value.refs == 1 && !s.dead
    ensures var d := Detached(s, h); d.phase == Releasing(d.claim.value.requestToken, false) && Awaits(d.out, Release)
  {
    ReachedGood(s0, run, s);
    StepKeeps(s, DetachStep(h));
  }

  /** When that detach completes, whatever happened before and in between, the record is gone
      and the daemon holds us nowhere. */
  lemma NoGhostOwner(s0: State, run: seq<Step>, s: State, h: nat, rest: seq<Step>)
    requires Reached(s0, run, s)
    requires Enabled(s, DetachStep(h)) && s.claim.value.refs == 1
    requires Possible(Detached(s, h), rest) && Enabled(After(Detached(s, h), rest), FinishDetachStep)
    ensures var u := Next(After(Detached(s, h), rest), FinishDetachStep);
            u.claim == None && u.phase == Idle && !Holds(u.daemon, u.me) && NoAsync(u.out)
  {
    ReachedGood(s0, run, s);
    StepKeepsAll(s, DetachStep(h));
    hide Tokens, Announced, HeardInv;
    RunGood(Detached(s, h), rest);
    FinishKeeps(After(Detached(s, h), rest));
  }

  lemma StepKeepsAll(s: State, step: Step)
    requires Good(s) && Enabled(s, step)
    ensures Good(Next(s, step))
  {
    StepKeeps(s, step);
    StepKeepsTokens(s, step);
    StepKeepsAnnounced(s, step);
    StepKeepsHeard(s, step);
  }

  /** What the last detach of any claim leaves behind: it either withdraws the name or the daemon
      holds nothing for us, exactly if the record owned or had requested the name or the ownership
      events still under way do not end in one that says the name is ours. */
  lemma DetachLeavesNothingExactly(s0: State, run: seq<Step>, s: State, h: nat)
    requires Reached(s0, run, s) && Enabled(s, DetachStep(h)) && s.claim.value.refs == 1
    ensures Detached(s, h).phase.Releasing? || !Holds(s.daemon, s.me)
       <==> s.claim.value.owned || s.claim.value.requestSent || Verdict(s.inb, s.me) != Some(true)
  {
    ReachedGood(s0, run, s);
    hide Announced, HeardInv;
    NotOwnerUnlessHolds(s.daemon, s.me);
    if !s.claim.value.owned && !s.claim.value.requestSent && !s.dead {
      assert !Mentions(s.out, s.inb, s.claim.value.requestToken);
      assert !GrantComing(s.out, s.inb, s.claim.value.requestToken);
      if Verdict(s.inb, s.me) != Some(true) {
        assert !Owns(s);
        SettledElsewhere(s.daemon, s.me);
      }
    }
  }

  lemma SettledElsewhere(d: seq<Seat>, who: string)
    requires Settled(d, who) && Owner(d) != who
    ensures !Holds(d, who)
  {
  }

  // -------------------------------------------------------------------- notifications

  /** Each adaptor hears acquired and lost in turn from its attachment on, counting what it
      hears directly, unless it attached with an older delivery due that does not fit. */
  lemma NotificationsAlternate(s0: State, run: seq<Step>, s: State, h: nat)
    requires Reached(s0, run, s) && h !in s.rejoined
    ensures Alternates(Heard(s, h))
  {
    ReachedGood(s0, run, s);
    assert HeardOk(s, h);
  }

  /** What an adaptor hears first is "lost" exactly if it attached where that was bound to happen:
      untold, with a loss to be delivered before anything else. */
  lemma FirstWord(s0: State, run: seq<Step>, s: State, h: nat)
    requires Reached(s0, run, s) && Heard(s, h) != []
    ensures Heard(s, h)[0] <==> h !in s.gap
  {
    ReachedGood(s0, run, s);
    assert FirstOk(s, h);
  }

  /** With no note queued, whoever is not still due a delivery heard last what the record knows, if
      it heard anything, and every holder of an owned claim that did not join in the gap of a loss heard it. */
  lemma LastWord(s0: State, run: seq<Step>, s: State, h: nat)
    requires Reached(s0, run, s) && Live(s) && h in s.claim.value.holders
    requires !s.claim.value.notifyQueued && h !in Left(s)
    ensures h !in s.rejoined ==> LastHeard(Heard(s, h), s.claim.value.owned)
    ensures s.claim.value.owned && h !in s.gap ==> Heard(s, h) != []
  {
    ReachedGood(s0, run, s);
    assert HeardOk(s, h) && FirstOk(s, h);
  }

  /** End to end: when everything is quiet, what a holder heard last is what the daemon holds. */
  lemma HoldersKnowTheOwner(s0: State, run: seq<Step>, s: State, h: nat)
    requires Reached(s0, run, s) && Live(s) && h in s.claim.value.holders
    requires s.inb == [] && s.out == [] && s.phase == Idle && s.posting == 0 && s.notes == 0 && h !in Left(s)
    ensures h !in s.rejoined ==> LastHeard(Heard(s, h), Owner(s.daemon) == s.me)
    ensures Owner(s.daemon) == s.me && h !in s.gap ==> Heard(s, h) != []
  {
    ReachedGood(s0, run, s);
    Converges(s0, run, s);
    LastWord(s0, run, s, h);
  }

  // -------------------------------------------------------------------- where it stops

  /** One more step. */
  lemma {:induction false} Extend(s: State, run: seq<Step>, step: Step)
    requires Possible(s, run) && Enabled(After(s, run), step)
    ensures Possible(s, run + [step]) && After(s, run + [step]) == Next(After(s, run), step)
    decreases |run|
  {
    if run == [] {
      assert (run + [step])[1..] == [];
    } else {
      assert (run + [step])[1..] == run[1..] + [step];
      Extend(Next(s, run[0]), run[1..], step);
    }
  }

  const Fresh := State(":1.5", None, 0, Idle, [], [], [], false, false, false, 0, 0, None, map[], {}, {})

  /** Two states with equal parts are equal. */
  lemma Same(s: State, t: State)
    requires s.claim.Some? && t.claim.Some? ==> s.claim.value.holders == t.claim.value.holders
    requires s.out == t.out && s.inb == t.inb && s.daemon == t.daemon && s.heard == t.heard
        && s.rejoined == t.rejoined && s.gap == t.gap
    requires s.me == t.me && s.claim == t.claim && s.nextToken == t.nextToken && s.phase == t.phase && s.pass == t.pass
    requires s.armed == t.armed && s.subscribed == t.subscribed && s.dead == t.dead && s.posting == t.posting
        && s.notes == t.notes
    ensures s == t
  {
  }

  const How0 := Flagged(true, false, true)
  const Mine := Seat(":1.5", true, false)
  const Taker := Seat(":1.9", false, true)

  const Asked := FRESH.(refs := 1, baseService := ":1.5", requestToken := 1, requestSent := true, flagged := true,
      holders := [1])
  const Promised := Fresh.(claim := Some(Asked), nextToken := 1, inb := [OwnerChanged(":1.5"), Reply(1, 1)],
                           daemon := [Mine], armed := true, subscribed := true, heard := map[1 := []])

  /** A flagged claim of adaptor 1, granted; nothing has arrived yet. */
  lemma Granted() returns (run: seq<Step>)
    ensures Possible(Fresh, run) && After(Fresh, run) == Promised
  {
    var s := Fresh;
    run := [];
    Extend(Fresh, run, AttachStep(1, How0));
    run, s := run + [AttachStep(1, How0)], Attached(s, 1, How0);
    assert s.out == [AddMatch, Request(1, true, false, false)];
    Extend(Fresh, run, Serve(false));
    run, s := run + [Serve(false)], Served(s, false);
    Extend(Fresh, run, Serve(false));
    run, s := run + [Serve(false)], Served(s, false);
    Same(s, Promised);
  }

  const Owned := FRESH.(refs := 1, owned := true, notifyQueued := true, baseService := ":1.5", requestToken := 1,
                        requestSent := true, flagged := true, holders := [1])
  const Noted := Fresh.(claim := Some(Owned), nextToken := 1, inb := [Reply(1, 1)], daemon := [Mine],
                        armed := true, subscribed := true, notes := 1, heard := map[1 := []])

  /** The grant has arrived and its note is in the mailbox. */
  lemma Acquired() returns (run: seq<Step>)
    ensures Possible(Fresh, run) && After(Fresh, run) == Noted
  {
    run := Granted();
    var s := Promised;
    Extend(Fresh, run, Deliver);
    run, s := run + [Deliver], Delivered(s);
    Extend(Fresh, run, Post);
    run, s := run + [Post], Next(s, Post);
    Same(s, Noted);
  }

  const Shared := Owned.(refs := 2, notifyQueued := false, lastNotifiedOwned := true, holders := [1, 2])
  const HalfTold := Noted.(claim := Some(Shared), notes := 0, pass := Some(Pass(true, [2])),
                           heard := map[1 := [true], 2 := []])

  /** Adaptor 2 joined before the note; of the two deliveries adaptor 1 has had its own. */
  lemma OneIsTold() returns (run: seq<Step>)
    ensures Possible(Fresh, run) && After(Fresh, run) == HalfTold
  {
    run := Acquired();
    var s := Noted;
    Extend(Fresh, run, AttachStep(2, How0));
    run, s := run + [AttachStep(2, How0)], Attached(s, 2, How0);
    Extend(Fresh, run, DrainNote);
    run, s := run + [DrainNote], Drained(s);
    assert Left(s) == [1, 2];
    Extend(Fresh, run, TellNext(true));
    run, s := run + [TellNext(true)], ToldNext(s, true);
    assert Heard(s, 1) == [true] && Heard(s, 2) == [] && s.heard.Keys == {1, 2};
    assert s.claim.value.holders == [1, 2];
    Same(s, HalfTold);
  }

  /** The exception to NotificationsAlternate: a handler detaches and attaches an adaptor
      whose turn is still to come, and that adaptor hears "acquired" twice. */
  lemma RejoinHearsTwice() returns (run: seq<Step>, s: State)
    ensures Reached(Fresh, run, s) && Heard(s, 2) == [true, true] && !Alternates(Heard(s, 2))
  {
    run := OneIsTold();
    s := HalfTold;
    Extend(Fresh, run, DetachStep(2));
    assert s.claim.value.holders == [1, 2] && [1, 2][1..] == [2] && [2][1..] == [];
    run, s := run + [DetachStep(2)], Detached(s, 2);
    assert s.claim.value.holders == [1];
    Extend(Fresh, run, AttachStep(2, How0));
    run, s := run + [AttachStep(2, How0)], Attached(s, 2, How0);
    Extend(Fresh, run, TellNext(true));
    run, s := run + [TellNext(true)], ToldNext(s, true);
    assert Heard(s, 2)[1] == Heard(s, 2)[0];
  }

  const Lost := Owned.(owned := false, notifyQueued := true, lastNotifiedOwned := true, lostSinceSend := true)
  const Taken := Noted.(claim := Some(Lost), inb := [], daemon := [Taker, Mine], notes := 0, posting := 1,
      heard := map[1 := [true]])

  /** Everything settled, then another connection takes the name; the news is due. */
  lemma TakenOver() returns (run: seq<Step>)
    ensures Possible(Fresh, run) && After(Fresh, run) == Taken
  {
    var s;
    run, s := Told1();
    var take := OtherRequests(Taker, true);
    TakerTakes();
    Extend(Fresh, run, take);
    run, s := run + [take], Next(s, take);
    assert s.inb == [Reply(1, 1), OwnerChanged(":1.9")];
    Extend(Fresh, run, Deliver);
    run, s := run + [Deliver], Delivered(s);
    Extend(Fresh, run, Deliver);
    run, s := run + [Deliver], Delivered(s);
    Same(s, Taken);
  }

  const Settled1 := Noted.(claim := Some(Owned.(notifyQueued := false, lastNotifiedOwned := true)), notes := 0,
      heard := map[1 := [true]])

  lemma Told1() returns (run: seq<Step>, s: State)
    ensures Possible(Fresh, run) && After(Fresh, run) == s == Settled1
  {
    run := Acquired();
    s := Noted;
    Extend(Fresh, run, DrainNote);
    run, s := run + [DrainNote], Drained(s);
    assert Left(s) == [1];
    Extend(Fresh, run, TellNext(true));
    run, s := run + [TellNext(true)], ToldNext(s, true);
    Extend(Fresh, run, TellNext(true));
    run, s := run + [TellNext(true)], ToldNext(s, true);
    assert s.heard[1] == [true];
    assert s.heard == map[1 := [true]];
    Same(s, Settled1);
  }

  /** An adaptor that joins while the news of a loss is due hears "lost" first. */
  lemma GapJoinerHearsLossFirst() returns (run: seq<Step>, s: State)
    ensures Reached(Fresh, run, s) && Heard(s, 3) == [false]
  {
    run := TakenOver();
    s := Taken;
    Extend(Fresh, run, AttachStep(3, How0));
    run, s := run + [AttachStep(3, How0)], Attached(s, 3, How0);
    hide RequestName, Without;
    Extend(Fresh, run, Post);
    run, s := run + [Post], Next(s, Post);
    Extend(Fresh, run, DrainNote);
    run, s := run + [DrainNote], Drained(s);
    assert Left(s) == [1, 3];
    Extend(Fresh, run, TellNext(true));
    run, s := run + [TellNext(true)], ToldNext(s, true);
    Extend(Fresh, run, TellNext(true));
    run, s := run + [TellNext(true)], ToldNext(s, true);
  }

  /** If the name comes back before that news is delivered, the two coalesce, and the adaptor
      that joined in between holds an owned name without ever hearing so. */
  lemma GapJoinerHearsNothing() returns (run: seq<Step>, s: State)
    ensures Reached(Fresh, run, s) && s.inb == [] && s.out == [] && s.posting == 0 && s.notes == 0
        && s.pass == None && s.phase == Idle
    ensures Owner(s.daemon) == s.me && Live(s) && 3 in s.claim.value.holders && Heard(s, 3) == []
  {
    run, s := JoinedInGap();
    var leave := OtherLeaves(":1.9");
    Extend(Fresh, run, leave);
    TakerLeaves();
    run, s := run + [leave], Next(s, leave);
    assert s.daemon == [Mine];
    assert s.inb == [OwnerChanged(":1.5")];
    Extend(Fresh, run, Deliver);
    run, s := run + [Deliver], Delivered(s);
    Extend(Fresh, run, Post);
    run, s := run + [Post], Next(s, Post);
    Extend(Fresh, run, Post);
    run, s := run + [Post], Next(s, Post);
    Extend(Fresh, run, DrainNote);
    run, s := run + [DrainNote], Drained(s);
    Extend(Fresh, run, DrainNote);
    run, s := run + [DrainNote], Drained(s);
  }

  const Joined := Taken.(claim := Some(Lost.(refs := 2, holders := [1, 3])), heard := map[1 := [true], 3 := []], gap := {3})

  lemma TakerTakes()
    ensures ":1.5" != ":1.9" && RequestName([Mine], Taker, true) == ([Taker, Mine], 1)
  {
    assert ":1.5"[3] != ":1.9"[3];
    assert [Mine][1..] == [] && [Taker] + [Mine] + [] == [Taker, Mine];
  }

  lemma TakerLeaves()
    ensures Without([Taker, Mine], ":1.9") == [Mine]
  {
    TakerTakes();
    assert [Taker, Mine][1..] == [Mine] && [Mine][1..] == [];
    assert Without([Mine], ":1.9") == [Mine] + Without([], ":1.9");
  }

  lemma MineLeaves()
    ensures Without([Mine], ":1.5") == []
  {
    assert [Mine][1..] == [];
  }

  lemma JoinedInGap() returns (run: seq<Step>, s: State)
    ensures Possible(Fresh, run) && After(Fresh, run) == s == Joined
  {
    run := TakenOver();
    s := Taken;
    Extend(Fresh, run, AttachStep(3, How0));
    run, s := run + [AttachStep(3, How0)], Attached(s, 3, How0);
    Same(s, Joined);
  }

  const Vacated := Fresh.(nextToken := 2, inb := [OwnerChanged(":1.5"), Reply(1, 1), OwnerChanged("")],
                          armed := true, subscribed := true, heard := map[1 := []])

  /** A flagged claim came and went before any of its signals arrived. */
  lemma CameAndWent() returns (run: seq<Step>)
    ensures Possible(Fresh, run) && After(Fresh, run) == Vacated
  {
    run := Granted();
    var s := Promised;
    Extend(Fresh, run, DetachStep(1));
    run, s := run + [DetachStep(1)], Detached(s, 1);
    assert s.out == [Release];
    MineLeaves();
    Extend(Fresh, run, Serve(false));
    run, s := run + [Serve(false)], Served(s, false);
    Extend(Fresh, run, FinishDetachStep);
    run, s := run + [FinishDetachStep], Next(s, FinishDetachStep);
    Same(s, Vacated);
  }

  /** The case DetachLeavesNothingExactly excludes: an unflagged claim that follows, fooled by
      the late signal of the old claim's release, detaches without withdrawing, and the daemon
      goes on holding the name for us. */
  lemma UnflaggedNameCanLeak() returns (run: seq<Step>, s: State)
    ensures Reached(Fresh, run, s) && s.phase == Idle && s.out == [] && !s.dead
    ensures s.claim.Some? && s.claim.value.refs == 0 && Owner(s.daemon) == s.me
  {
    run, s := Registered();
    Extend(Fresh, run, Deliver);
    run, s := run + [Deliver], Delivered(s);
    Extend(Fresh, run, Deliver);
    run, s := run + [Deliver], Delivered(s);
    Extend(Fresh, run, Deliver);
    run, s := run + [Deliver], Delivered(s);
    Extend(Fresh, run, DetachStep(2));
    run, s := run + [DetachStep(2)], Detached(s, 2);
  }

  lemma Registered() returns (run: seq<Step>, s: State)
    ensures Possible(Fresh, run) && After(Fresh, run) == s
    ensures s.claim == Some(FRESH.(refs := 1, owned := true, baseService := ":1.5", lastNotifiedOwned := true,
        holders := [2]))
    ensures s.me == ":1.5" && s.inb == Vacated.inb + [OwnerChanged(":1.5")] && s.out == [] && s.phase == Idle
        && s.daemon == [Seat(":1.5", false, true)] && !s.dead
  {
    run := CameAndWent();
    s := Vacated;
    Extend(Fresh, run, AttachStep(2, Unflagged));
    run, s := run + [AttachStep(2, Unflagged)], Attached(s, 2, Unflagged);
    assert s.out == [BlockingRequest] && s.claim.value.holders == [2];
    Extend(Fresh, run, Serve(false));
    run, s := run + [Serve(false)], Served(s, false);
    Extend(Fresh, run, ResolveStep);
    run, s := run + [ResolveStep], Resolved(s);
  }
}
