/** The claim protocol left to itself comes to rest: without new attaches, detaches, requests of
    others or a broken line, only so many steps are possible, and they end where the theorems about
    quiet states apply. */
module ClaimProgress {
  import opened Options
  import opened Claims
  import opened ClaimProtocol
  import opened ClaimInvariant
  import opened ClaimNotes
  import opened ClaimSafety

  /** Steps nobody has to ask for. */
  predicate Internal(step: Step) {
    step.ResolveStep? || step.FinishDetachStep? || step.Serve? || step.Deliver? || step.Post? || step.DrainNote?
        || step.TellNext? || step.FailBlocked?
  }

  /** Nothing under way anywhere. */
  predicate Quiet(s: State) {
    s.inb == [] && s.out == [] && s.phase == Idle && s.posting == 0 && s.notes == 0 && s.pass == None
  }

  function Holders(s: State): nat {
    if s.claim.Some? then |s.claim.value.holders| else 0
  }

  function PhaseWork(p: Phase): nat {
    match p
    case Idle => 0
    case Registering(_, answer) => if answer.Some? then 1 else 2
    case Releasing(_, done) => if done then 1 else 2
  }

  function PassWork(s: State): nat {
    if s.pass.Some? then 1 + |s.pass.value.left| else 0
  }

  /** What is left to do, for at most `h` holders: a message of ours may cause two messages to us,
      each of those a note, and a note a delivery to every holder. */
  function Work(s: State, h: nat): nat {
    |s.out| * (2 * h + 11) + |s.inb| * (h + 5) + s.posting * (h + 4) + s.notes * (h + 3) + PassWork(s) + PhaseWork(s.phase)
  }

  lemma Product(a: nat, b: nat, k: nat, d: int)
    requires a == b + d
    ensures a * k == b * k + d * k
  {
  }

  lemma OneSignal(s: State, d: seq<Seat>)
    ensures |Signal(s, d)| <= 1
  {
  }

  lemma ServeSizes(s: State, replyFirst: bool)
    requires s.out != []
    ensures var t := Served(s, replyFirst);
            |t.out| == |s.out| - 1 && |s.inb| <= |t.inb| <= |s.inb| + 2 && PhaseWork(t.phase) <= PhaseWork(s.phase)
  {
    hide RequestName, Without, Signal;
    match s.out[0]
    case AddMatch =>
    case Request(token, allow, replace, noQueue) => OneSignal(s, RequestName(s.daemon, Seat(s.me, allow, noQueue),
        replace).0);
    case BlockingRequest => OneSignal(s.(out := s.out[1..]), RequestName(s.daemon, Seat(s.me, false, true), false).0);
    case Release => OneSignal(s.(out := s.out[1..]), Without(s.daemon, s.me));
  }

  lemma ServeWorks(s: State, replyFirst: bool, h: nat)
    requires s.out != []
    ensures Work(Served(s, replyFirst), h) < Work(s, h)
    ensures Holders(Served(s, replyFirst)) == Holders(s)
  {
    var t := Served(s, replyFirst);
    hide Served;
    ServeSizes(s, replyFirst);
    ServedFrame(s, replyFirst);
    var more := |t.inb| - |s.inb|;
    Product(|t.out|, |s.out|, 2 * h + 11, -1);
    Product(|t.inb|, |s.inb|, h + 5, more);
    assert more * (h + 5) <= 2 * h + 10 by {
      assert more == 0 || more == 1 || more == 2;
    }
  }

  lemma DeliverWorks(s: State, h: nat)
    requires s.inb != []
    ensures Work(Delivered(s), h) < Work(s, h) && Holders(Delivered(s)) == Holders(s)
  {
    var t := Delivered(s);
    DeliverFrameNotes(s);
    assert t.out == s.out && |t.inb| == |s.inb| - 1 && s.posting <= t.posting <= s.posting + 1;
    hide Delivered;
    Product(|t.inb|, |s.inb|, h + 5, -1);
    Product(t.posting, s.posting, h + 4, t.posting - s.posting);
  }

  lemma RelayWorks(s: State, step: Step, h: nat)
    requires Enabled(s, step) && (step.Post? || step.DrainNote? || step.TellNext?) && Holders(s) <= h
    ensures Work(Next(s, step), h) < Work(s, h) && Holders(Next(s, step)) == Holders(s)
  {
    var t := Next(s, step);
    match step {
      case Post =>
        Product(t.posting, s.posting, h + 4, -1);
        Product(t.notes, s.notes, h + 3, 1);
      case DrainNote => Product(t.notes, s.notes, h + 3, -1);
      case TellNext(_) =>
    }
  }

  lemma PhaseWorks(s: State, step: Step, h: nat)
    requires Inv(s) && Enabled(s, step) && (step.ResolveStep? || step.FinishDetachStep? || step.FailBlocked?)
    ensures Work(Next(s, step), h) < Work(s, h) && Holders(Next(s, step)) <= Holders(s)
  {
    if step.FinishDetachStep? {
      FinishKeeps(s);
    }
    hide Stream, Calls, Tenure, Knows;
  }

  /** Every internal step leaves less to do. */
  lemma StepWorks(s: State, step: Step, h: nat)
    requires Inv(s) && Enabled(s, step) && Internal(step) && Holders(s) <= h
    ensures Work(Next(s, step), h) < Work(s, h) && Holders(Next(s, step)) <= h
  {
    hide Inv, Work, Served, Delivered, Resolved, Drained, ToldNext, Failed;
    match step {
      case Serve(replyFirst) => ServeWorks(s, replyFirst, h);
      case Deliver => DeliverWorks(s, h);
      case ResolveStep => PhaseWorks(s, step, h);
      case FinishDetachStep => PhaseWorks(s, step, h);
      case FailBlocked => PhaseWorks(s, step, h);
      case _ => RelayWorks(s, step, h);
    }
  }

  /** Left to itself the protocol stops after at most `Work` steps, whatever their order. */
  lemma {:induction false} InternalRunsEnd(s: State, run: seq<Step>, h: nat)
    requires Inv(s) && Possible(s, run) && Holders(s) <= h && forall step :: step in run ==> Internal(step)
    ensures |run| + Work(After(s, run), h) <= Work(s, h)
    decreases |run|
  {
    hide Inv, Work, Next;
    if run != [] {
      assert run[0] in run;
      StepKeeps(s, run[0]);
      StepWorks(s, run[0], h);
      InternalRunsEnd(Next(s, run[0]), run[1..], h);
    }
  }

  /** As long as anything is under way some internal step is possible: no blocking call waits for a
      message that was never sent, nothing waits for somebody else. */
  lemma NeverStuck(s: State) returns (step: Step)
    requires Inv(s) && !Quiet(s)
    ensures Internal(step) && Enabled(s, step)
  {
    hide Shape, Stream, Tenure, Knows;
    if s.out != [] {
      return Serve(true);
    }
    match s.phase {
      case Registering(_, answer) => return if answer.Some? then ResolveStep else FailBlocked;
      case Releasing(_, done) => return if done then FinishDetachStep else FailBlocked;
      case Idle =>
        return if s.pass.Some? then TellNext(true)
               else if s.inb != [] then Deliver
               else if s.posting > 0 then Post
               else DrainNote;
    }
  }

  /** From every reachable state the protocol, left to itself, comes to a quiet state; there the
      claim knows the owner of the name. */
  lemma {:induction false} ComesToRest(s: State, h: nat) returns (run: seq<Step>)
    requires Inv(s) && Holders(s) <= h
    ensures Possible(s, run) && (forall step :: step in run ==> Internal(step))
    ensures var t := After(s, run); Quiet(t) && (Live(t) ==> (t.claim.value.owned <==> Owner(t.daemon) == t.me))
    decreases Work(s, h)
  {
    if Quiet(s) {
      return [];
    }
    var step := NeverStuck(s);
    StepKeeps(s, step);
    StepWorks(s, step, h);
    hide Inv, Work, Next, Quiet;
    var rest := ComesToRest(Next(s, step), h);
    run := [step] + rest;
    assert run[1..] == rest;
  }
}
