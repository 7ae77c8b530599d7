/** The relay's mailbox: notes under a mutex, one flag that coalesces wake events, and posters
    on any thread. */
module Mailbox {

  type Note = (string, string) // (connection, service)

  datatype Drainer =
    | Asleep
    | Woken    // the event was delivered, the flag not yet reset
    | Draining // between the reset and the last empty check

  /** Posters are counted: `exchanging` have enqueued and are about to exchange the flag,
      `posting` found it clear and are about to post. */
  datatype State = State(
    queue: seq<Note>,
    drainPosted: bool,
    events: nat,
    exchanging: nat,
    posting: nat,
    drainer: Drainer,
    posted: seq<Note>,  // every note ever enqueued
    taken: seq<Note>)   // every note ever dequeued

  const EMPTY := State([], false, 0, 0, 0, Asleep, [], [])

  datatype Step = Enqueue(note: Note) | Exchange | PostEvent | DeliverEvent | ResetFlag | Dequeue

  predicate Enabled(s: State, step: Step) {
    match step
    case Enqueue(_) => true
    case Exchange => s.exchanging > 0
    case PostEvent => s.posting > 0
    case DeliverEvent => s.events > 0 && s.drainer == Asleep
    case ResetFlag => s.drainer == Woken
    case Dequeue => s.drainer == Draining
  }

  function Next(s: State, step: Step): State
    requires Enabled(s, step)
  {
    match step
    case Enqueue(note) => s.(queue := s.queue + [note], posted := s.posted + [note], exchanging := s.exchanging + 1)
    case Exchange => s.(drainPosted := true, exchanging := s.exchanging - 1,
        posting := s.posting + if s.drainPosted then 0 else 1)
    case PostEvent => s.(posting := s.posting - 1, events := s.events + 1)
    case DeliverEvent => s.(events := s.events - 1, drainer := Woken)
    case ResetFlag => s.(drainPosted := false, drainer := Draining)
    case Dequeue =>
      if s.queue == [] then s.(drainer := Asleep)
      else s.(queue := s.queue[1..], taken := s.taken + [s.queue[0]])
  }

  predicate Possible(s: State, run: seq<Step>)
    decreases |run|
  {
    run == [] || (Enabled(s, run[0]) && Possible(Next(s, run[0]), run[1..]))
  }

  function After(s: State, run: seq<Step>): State
    requires Possible(s, run)
    decreases |run|
  {
    if run == [] then s else After(Next(s, run[0]), run[1..])
  }

  /** The flag stands for exactly one wake event: about to be posted, undelivered, or just
      delivered. A waiting note has such a wake, a running drain, or a poster still to come. */
  predicate Inv(s: State) {
    && (if s.drainPosted then 1 else 0) == s.posting + s.events + (if s.drainer == Woken then 1 else 0)
    && (s.queue != [] ==> s.drainPosted || s.exchanging > 0 || s.drainer == Draining)
    && s.posted == s.taken + s.queue
  }

  lemma StepKeeps(s: State, step: Step)
    requires Inv(s) && Enabled(s, step)
    ensures Inv(Next(s, step))
  {
    if step == Dequeue && s.queue != [] {
      assert s.taken + s.queue == (s.taken + [s.queue[0]]) + s.queue[1..];
    }
  }

  lemma {:induction false} RunKeeps(s: State, run: seq<Step>)
    requires Inv(s) && Possible(s, run)
    ensures Inv(After(s, run))
    decreases |run|
  {
    hide Inv, Next;
    if run != [] {
      StepKeeps(s, run[0]);
      RunKeeps(Next(s, run[0]), run[1..]);
    }
  }

  /** However posters and the drain interleave: a note in the mailbox has a wake event on its
      way, a drain that will look again, or a poster about to post; and at most one wake event
      is undelivered. */
  lemma NoLostWakeup(run: seq<Step>)
    requires Possible(EMPTY, run)
    ensures var s := After(EMPTY, run);
            && (s.queue != [] ==> s.events == 1 || s.drainer != Asleep || s.exchanging > 0 || s.posting > 0)
            && s.events <= 1
  {
    RunKeeps(EMPTY, run);
  }

  /** When nobody is under way, every note has been taken, once and in order. */
  lemma QuietMeansDelivered(run: seq<Step>)
    requires Possible(EMPTY, run)
    requires var s := After(EMPTY, run); s.events == 0 && s.drainer == Asleep && s.exchanging == 0 && s.posting == 0
    ensures After(EMPTY, run).taken == After(EMPTY, run).posted
  {
    RunKeeps(EMPTY, run);
    var s := After(EMPTY, run);
    assert s.taken + [] == s.taken;
  }

  /** The work left before the mailbox is at rest. */
  function Work(s: State): nat {
    6 * s.exchanging + 5 * s.posting + 4 * s.events + |s.queue|
    + match s.drainer
      case Asleep => 0
      case Woken => 2
      case Draining => 1
  }

  lemma StepWorks(s: State, step: Step)
    requires Enabled(s, step) && !step.Enqueue?
    ensures Work(Next(s, step)) < Work(s)
  {
  }

  /** With no new notes, every run of the posters and the drain is bounded, whatever its order. */
  lemma {:induction false} EveryRunEnds(s: State, run: seq<Step>)
    requires Possible(s, run) && forall step :: step in run ==> !step.Enqueue?
    ensures |run| + Work(After(s, run)) <= Work(s) && After(s, run).posted == s.posted
    decreases |run|
  {
    hide Work;
    if run != [] {
      assert run[0] in run;
      StepWorks(s, run[0]);
      EveryRunEnds(Next(s, run[0]), run[1..]);
    }
  }

  /** A run that cannot go on without a new note has taken every note, once and in order. */
  lemma RestMeansDelivered(run: seq<Step>)
    requires Possible(EMPTY, run)
    requires forall step :: Enabled(After(EMPTY, run), step) ==> step.Enqueue?
    ensures var s := After(EMPTY, run); s.queue == [] && s.taken == s.posted
  {
    RunKeeps(EMPTY, run);
    var s := After(EMPTY, run);
    assert !Enabled(s, Exchange) && !Enabled(s, PostEvent) && !Enabled(s, DeliverEvent) && !Enabled(s, ResetFlag)
      && !Enabled(s, Dequeue);
    assert s.taken + [] == s.taken;
  }

  /** As long as a note waits, a poster or the drain can go on. */
  lemma NeverStuck(s: State) returns (step: Step)
    requires Inv(s) && s.queue != []
    ensures Enabled(s, step) && !step.Enqueue?
  {
    return
      if s.drainer == Woken then ResetFlag
      else if s.drainer == Draining then Dequeue
      else if s.exchanging > 0 then Exchange
      else if s.posting > 0 then PostEvent
      else DeliverEvent;
  }

  /** From any reachable state the posters and the drain alone reach a state where every note has
      been taken, in order. */
  lemma {:induction false} Finish(s: State) returns (run: seq<Step>)
    requires Inv(s)
    ensures Possible(s, run) && (forall step :: step in run ==> !step.Enqueue?)
    ensures After(s, run).queue == [] && After(s, run).taken == s.taken + s.queue
    decreases Work(s)
  {
    if s.queue == [] {
      assert s.taken + [] == s.taken;
      return [];
    }
    var step := NeverStuck(s);
    StepKeeps(s, step);
    StepWorks(s, step);
    assert step == Dequeue ==> s.taken + s.queue == (s.taken + [s.queue[0]]) + s.queue[1..];
    var rest := Finish(Next(s, step));
    run := [step] + rest;
    assert run[1..] == rest;
  }

  // ------------------------------------------------------------------------ the relay

  /** The relay's static state; every method is one atomic access. */
  class Relay {
    var notes: seq<Note>
    var drainPosted: bool
    var events: nat

    ghost predicate Shows(s: State)
      reads this
    {
      notes == s.queue && drainPosted == s.drainPosted && events == s.events
    }

    constructor ()
      ensures Shows(EMPTY)
    {
      notes, drainPosted, events := [], false, 0;
    }

    /** postNote under the queue mutex. */
    method EnqueueNote(note: Note, ghost s: State)
      requires Shows(s)
      modifies this
      ensures Shows(Next(s, Enqueue(note)))
    {
      notes := notes + [note];
    }

    /** postNote's exchange: whether this poster must post. */
    method ExchangeFlag(ghost s: State) returns (post: bool)
      requires Shows(s) && Enabled(s, Exchange)
      modifies this
      ensures Shows(Next(s, Exchange)) && Next(s, Exchange).posting == s.posting + if post then 1 else 0
    {
      post := !drainPosted;
      drainPosted := true;
    }

    method PostWake(ghost s: State)
      requires Shows(s) && Enabled(s, PostEvent)
      modifies this
      ensures Shows(Next(s, PostEvent))
    {
      events := events + 1;
    }

    /** event() with nobody posting meanwhile: everything waiting is taken, in order. */
    method Event(ghost s: State) returns (taken: seq<Note>)
      requires Shows(s) && Enabled(s, DeliverEvent)
      modifies this
      ensures taken == s.queue && notes == [] && !drainPosted && events == s.events - 1
    {
      events := events - 1;
      drainPosted := false;
      taken := [];
      while notes != []
        invariant taken + notes == s.queue && !drainPosted && events == s.events - 1
        decreases |notes|
      {
        assert taken + notes == (taken + [notes[0]]) + notes[1..];
        taken, notes := taken + [notes[0]], notes[1..];
      }
    }
  }
}
