/** What a call is answered with: over whole runs, its one answer is an error exactly if what
    settled it was one. */
module DispatchAnswers {
  import opened Options
  import opened HeldReply
  import opened DispatchProtocol
  import opened DispatchSafety

  /** The answers a call has had, errors true, in order. */
  function Kinds(sent: seq<Answer>, x: nat): seq<bool> {
    if sent == [] then []
    else
      var last := sent[|sent| - 1];
      Kinds(sent[..|sent| - 1], x) + if last.serial == x then [last.isError] else []
  }

  /** The call was deferred to a handle that is still open, and wants an answer. */
  predicate OnHold(s: State, x: nat) {
    Pending(s, x) && s.adaptors[s.handleOf[x].0].handles[s.handleOf[x].1].required
  }

  /** What a step answers a call with, if it answers it: an early answer what it says, a deferred
      call what its handle is settled with, and an error if that expires, its adaptor is unregistered
      or destroyed, or its own handler throws or returns a scalar; any other call an error if its
      handler throws or the reply tail ends in one. */
  function Verdict(s: State, step: Step, x: nat): Option<bool>
    requires Enabled(s, step)
  {
    match step
    case Early(serial, required, isError) => if serial == x && required then Some(isError) else None
    case SettleStep(a, i, isError) => if OnHold(s, x) && s.handleOf[x] == (a, i) then Some(isError) else None
    case ExpireStep(a, i) => if OnHold(s, x) && s.handleOf[x] == (a, i) then Some(true) else None
    case UnregisterStep(a) => if OnHold(s, x) && s.handleOf[x].0 == a then Some(true) else None
    case Destroy(a) => if OnHold(s, x) && s.handleOf[x].0 == a then Some(true) else None
    case Leave(result) =>
      if Top(s).serial != x || !Top(s).required then None
      else if x !in s.handleOf then Some(result.Threw? || result.tail)
      else if OnHold(s, x) && !result.Other? then Some(true)
      else None
    case Finish(isError) => if Top(s).serial == x && Top(s).required then Some(isError) else None
    case _ => None
  }

  function Said(v: Option<bool>): seq<bool> {
    if v.Some? then [v.value] else []
  }

  lemma {:induction false} KindsAppend(a: seq<Answer>, b: seq<Answer>, x: nat)
    ensures Kinds(a + b, x) == Kinds(a, x) + Kinds(b, x)
  {
    if b == [] {
      assert a + b == a;
    } else {
      var n := |b| - 1;
      assert (a + b)[..|a + b| - 1] == a + b[..n];
      KindsAppend(a, b[..n], x);
    }
  }

  lemma KindsOfOne(answer: Answer, x: nat)
    ensures Kinds([answer], x) == if answer.serial == x then [answer.isError] else []
    ensures Kinds([], x) == []
  {
    assert [answer][..0] == [];
  }

  lemma {:induction false} KindsCounted(sent: seq<Answer>, x: nat)
    ensures |Kinds(sent, x)| == Count(sent, x)
    ensures (forall answer :: answer in sent ==> answer.isError) ==> forall i :: 0 <= i < |Kinds(sent, x)| ==> Kinds(sent, x)[i]
  {
    if sent != [] {
      KindsCounted(sent[..|sent| - 1], x);
    }
  }

  lemma {:induction false} OwedAllErrors(hs: seq<Handle>)
    ensures forall answer :: answer in OwedAll(hs) ==> answer.isError
  {
    if hs != [] {
      OwedAllErrors(hs[..|hs| - 1]);
    }
  }

  lemma SettleSays(s: State, a: nat, i: nat, isError: bool, x: nat)
    requires Inv(s) && HasHandle(s, a, i)
    ensures Kinds(Settled(s, a, i, isError).sent, x)
         == Kinds(s.sent, x) + if OnHold(s, x) && s.handleOf[x] == (a, i) then [isError] else []
  {
    assert HandleOk(s, a, i);
    assert x in s.handleOf ==> MapOk(s, x);
    var h := s.adaptors[a].handles[i];
    hide Inv, Kinds, HandleOk;
    KindsAppend(s.sent, Owed(h, isError), x);
    KindsOfOne(Answer(h.serial, isError), x);
  }

  lemma AllSettledSays(s: State, a: nat, attached: bool, alive: bool, x: nat)
    requires Inv(s) && a in s.adaptors
    ensures Kinds(AllSettled(s, a, attached, alive).sent, x)
         == Kinds(s.sent, x) + if OnHold(s, x) && s.handleOf[x].0 == a then [true] else []
  {
    var hs := s.adaptors[a].handles;
    if x in s.handleOf {
      Wants(s, x);
    }
    OwedHere(s, a, x);
    hide Inv, Kinds, Count;
    KindsAppend(s.sent, OwedAll(hs), x);
    KindsCounted(OwedAll(hs), x);
    OwedAllErrors(hs);
    assert OnHold(s, x) && s.handleOf[x].0 == a ==> Kinds(OwedAll(hs), x) == [true];
  }

  /** A handle knows whether its call wants an answer. */
  lemma Wants(s: State, x: nat)
    requires Inv(s) && x in s.handleOf
    ensures var (a, i) := s.handleOf[x]; HasHandle(s, a, i) && x in s.calls && s.calls[x] == s.adaptors[a].handles[i].required
  {
    assert MapOk(s, x);
    var (a, i) := s.handleOf[x];
    assert HandleOk(s, a, i);
  }

  /** Every step answers a call with its verdict, or not at all. */
  lemma StepSays(s: State, step: Step, x: nat)
    requires Inv(s) && Enabled(s, step)
    ensures Kinds(Next(s, step).sent, x) == Kinds(s.sent, x) + Said(Verdict(s, step, x))
  {
    match step
    case Early(serial, required, isError) => ReplySays(s.sent, required, serial, isError, x);
    case SettleStep(a, i, isError) => SettleSays(s, a, i, isError, x);
    case ExpireStep(a, i) => SettleSays(s, a, i, true, x);
    case UnregisterStep(a) => AllSettledSays(s, a, false, true, x);
    case Destroy(a) => AllSettledSays(s, a, false, false, x);
    case Leave(result) => LeaveSays(s, result, x);
    case Finish(isError) => ReplySays(s.sent, Top(s).required, Top(s).serial, isError, x);
    case _ =>
  }

  lemma ReplySays(sent: seq<Answer>, required: bool, serial: nat, isError: bool, x: nat)
    ensures Kinds(sent + Reply(required, serial, isError), x)
         == Kinds(sent, x) + if required && serial == x then [isError] else []
  {
    KindsAppend(sent, Reply(required, serial, isError), x);
    KindsOfOne(Answer(serial, isError), x);
  }

  lemma LeaveSays(s: State, result: Result, x: nat)
    requires Inv(s) && Enabled(s, Leave(result))
    ensures Kinds(Left(s, result).sent, x) == Kinds(s.sent, x) + Said(Verdict(s, Leave(result), x))
  {
    TopIsCurrent(s);
    var f := Top(s);
    var ad := s.adaptors[f.adaptor];
    if ad.current.reply.Some? {
      Wants(s, f.serial);
      if !result.Other? {
        SettleSays(s, f.adaptor, ad.current.reply.value, true, x);
      }
      if x in s.handleOf {
        Wants(s, x);
      }
    } else {
      ReplySays(s.sent, f.required, f.serial, result.Threw? || result.tail, x);
    }
  }

  /** Everything a run answers a call with. */
  function Story(s: State, run: seq<Step>, x: nat): seq<bool>
    requires Possible(s, run)
    decreases |run|
  {
    if run == [] then [] else Said(Verdict(s, run[0], x)) + Story(Next(s, run[0]), run[1..], x)
  }

  lemma {:induction false} RunSays(s: State, run: seq<Step>, x: nat)
    requires Inv(s) && Possible(s, run)
    ensures Kinds(After(s, run).sent, x) == Kinds(s.sent, x) + Story(s, run, x)
    decreases |run|
  {
    hide Inv, Next, Kinds, Verdict;
    if run != [] {
      StepKeeps(s, run[0]);
      StepSays(s, run[0], x);
      RunSays(Next(s, run[0]), run[1..], x);
    }
  }

  /** Over every run a call has had exactly the answers its verdicts say, which is at most one: an
      error if it threw, its tail failed, it was settled with an error, it expired, or its adaptor
      was unregistered or destroyed while it was on hold, and no error otherwise. */
  lemma AnsweredAsSettled(s0: State, run: seq<Step>, s: State, x: nat)
    requires Reached(s0, run, s)
    ensures Kinds(s.sent, x) == Story(s0, run, x) && |Story(s0, run, x)| <= 1
  {
    ReachedInv(s0, run, s);
    StartInv(s0);
    RunSays(s0, run, x);
    AtMostOneReply(s0, run, s, x);
    KindsCounted(s.sent, x);
  }

  lemma StartInv(s0: State)
    requires Start(s0)
    ensures Inv(s0)
  {
    ReachedInv(s0, [], s0);
  }

  // --------------------------------------------------------------------------- the timer

  /** An open handle has a timer exactly if its adaptor gives its handles one. */
  predicate Timed(s: State, a: nat, i: nat)
    requires HasHandle(s, a, i)
  {
    s.adaptors[a].handles[i].ttl == (s.adaptors[a].ttl && !s.adaptors[a].handles[i].settled)
  }

  ghost predicate AllTimed(s: State) {
    forall a, i :: HasHandle(s, a, i) ==> Timed(s, a, i)
  }

  lemma SettledTimed(s: State, a: nat, i: nat, isError: bool)
    requires AllTimed(s) && HasHandle(s, a, i)
    ensures AllTimed(Settled(s, a, i, isError)) && Settled(s, a, i, isError).adaptors.Keys == s.adaptors.Keys
  {
    hide Owed;
    forall b, k | HasHandle(Settled(s, a, i, isError), b, k) ensures Timed(Settled(s, a, i, isError), b, k) {
      assert Timed(s, b, k);
    }
  }

  lemma AllSettledTimed(s: State, a: nat, attached: bool, alive: bool)
    requires AllTimed(s) && a in s.adaptors
    ensures AllTimed(AllSettled(s, a, attached, alive))
  {
    hide OwedAll;
    var t := AllSettled(s, a, attached, alive);
    forall b, k | HasHandle(t, b, k) ensures Timed(t, b, k) {
      assert Timed(s, b, k);
    }
  }

  /** Steps that leave every handle and every time limit alone. */
  lemma SameTimed(s: State, t: State)
    requires AllTimed(s) && t.adaptors.Keys == s.adaptors.Keys
    requires forall a :: a in s.adaptors ==> t.adaptors[a].handles == s.adaptors[a].handles && t.adaptors[a].ttl == s.adaptors[a].ttl
    ensures AllTimed(t)
  {
    forall a, i | HasHandle(t, a, i) ensures Timed(t, a, i) {
      assert Timed(s, a, i);
    }
  }

  lemma HeldTimed(s: State, a: nat)
    requires AllTimed(s) && Alive(s, a)
    ensures AllTimed(Held(s, a))
  {
    forall b, k | HasHandle(Held(s, a), b, k) ensures Timed(Held(s, a), b, k) {
      assert HasHandle(s, b, k) ==> Timed(s, b, k);
    }
  }

  lemma StepKeepsTimed(s: State, step: Step)
    requires AllTimed(s) && Enabled(s, step)
    ensures AllTimed(Next(s, step))
  {
    hide AllTimed, Settled, AllSettled, Held, Reply;
    var t := Next(s, step);
    match step
    case Create(a, ttl) => CreateTimed(s, a, ttl);
    case HoldStep(a) => HeldTimed(s, a);
    case SettleStep(a, i, isError) => SettledTimed(s, a, i, isError);
    case ExpireStep(a, i) => SettledTimed(s, a, i, true);
    case UnregisterStep(a) => AllSettledTimed(s, a, false, true);
    case Destroy(a) => AllSettledTimed(s, a, false, false);
    case Leave(result) =>
      var f := Top(s);
      var ad := s.adaptors[f.adaptor];
      if ad.current.reply.Some? && !result.Other? {
        var u := Settled(s, f.adaptor, ad.current.reply.value, true);
        SettledTimed(s, f.adaptor, ad.current.reply.value, true);
        SameTimed(u, t);
      } else {
        SameTimed(s, t);
      }
    case _ => SameTimed(s, t);
  }

  lemma CreateTimed(s: State, a: nat, ttl: bool)
    requires AllTimed(s) && a !in s.adaptors
    ensures AllTimed(Next(s, Create(a, ttl)))
  {
    var t := Next(s, Create(a, ttl));
    forall b, k | HasHandle(t, b, k) ensures Timed(t, b, k) {
      assert Timed(s, b, k);
    }
  }

  lemma {:induction false} RunKeepsTimed(s: State, run: seq<Step>)
    requires AllTimed(s) && Possible(s, run)
    ensures AllTimed(After(s, run))
    decreases |run|
  {
    hide AllTimed, Next;
    if run != [] {
      StepKeepsTimed(s, run[0]);
      RunKeepsTimed(Next(s, run[0]), run[1..]);
    }
  }

  /** Over every run, as long as a deferred reply of an adaptor with a time limit is open its timer runs, so
      that its caller is answered in the end; a settled one has none. */
  lemma TimerRunsWhileOpen(s0: State, run: seq<Step>, s: State, a: nat, i: nat)
    requires Reached(s0, run, s) && HasHandle(s, a, i)
    ensures Enabled(s, ExpireStep(a, i)) <==> s.adaptors[a].ttl && !s.adaptors[a].handles[i].settled
  {
    RunKeepsTimed(s0, run);
    assert Timed(s, a, i);
  }
}
