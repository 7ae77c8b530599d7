/** The write path over whole runs. Handlers of propertyWriteFailed may write, repoint the
    proxy and re-fetch; completions arrive one at a time. */
module ProxySetProtocol {
  import opened Options
  import opened ProxySets

  datatype State = State(
    proxy: Proxy,
    inFlight: seq<Call>,
    written: map<string, seq<Value>>, // every value ever accepted, per wire name
    tail: Option<string>)             // the failed Set whose handler runs

  predicate Start(s: State) {
    s.proxy == Proxy(s.proxy.dest, map[], {}, 0, [], []) && s.inFlight == [] && s.written == map[] && s.tail == None
  }

  datatype Step =
    | WriteStep(name: string, qmlKey: string, v: Value)
    | Repoint(dest: Dest)
    | Invalidated(names: seq<string>)
    | Complete(i: nat, failed: bool)
    | TailStep

  /** What a handler may do. */
  predicate InHandler(step: Step) {
    step.WriteStep? || step.Repoint? || step.Invalidated?
  }

  predicate Enabled(s: State, step: Step) {
    match step
    case Complete(i, _) => i < |s.inFlight| && s.tail == None
    case TailStep => s.tail.Some?
    case _ => true
  }

  function Written(s: State, name: string): seq<Value> {
    if name in s.written then s.written[name] else []
  }

  /** What an operation sent. */
  function Launched(p: Proxy, q: Proxy): seq<Call> {
    if |q.sent| > |p.sent| then q.sent[|p.sent|..] else []
  }

  function Next(s: State, step: Step): State
    requires Enabled(s, step)
  {
    match step
    case WriteStep(name, qmlKey, v) =>
      var q := Write(s.proxy, name, qmlKey, v);
      s.(proxy := q, inFlight := s.inFlight + Launched(s.proxy, q), written := s.written[name := Written(s, name) + [v]])
    case Repoint(dest) => s.(proxy := s.proxy.(dest := dest))
    case Invalidated(names) => s.(proxy := RefetchInvalidated(s.proxy, names))
    case Complete(i, failed) =>
      var name := s.inFlight[i].name;
      var q := Completed(s.proxy, name, failed);
      s.(proxy := q, inFlight := s.inFlight[..i] + s.inFlight[i + 1..] + Launched(s.proxy, q),
          tail := if failed then Some(name) else None)
    case TailStep => s.(proxy := MaybeRefetch(s.proxy, s.tail.value), tail := None)
  }

  predicate Possible(s: State, run: seq<Step>)
    decreases |run|
  {
    run == [] || (Enabled(s, run[0]) && Possible(Next(s, run[0]), run[1..]))
  }

  function After(s: State, run: seq<Step>): State
    requires Possible(s, run)
    decreases |run|
  {
    if run == [] then s else After(Next(s, run[0]), run[1..])
  }

  // --------------------------------------------------------------- what every step keeps

  /** The calls sent for one name. */
  function Of(calls: seq<Call>, name: string): seq<Call> {
    if calls == [] then []
    else
      var last := calls[|calls| - 1];
      Of(calls[..|calls| - 1], name) + if last.name == name then [last] else []
  }

  function Values(calls: seq<Call>): (vs: seq<Value>)
    ensures |vs| == |calls|
  {
    if calls == [] then [] else Values(calls[..|calls| - 1]) + [calls[|calls| - 1].value]
  }

  predicate Subsequence(a: seq<Value>, b: seq<Value>)
    decreases |b|
  {
    a == [] || (b != [] && ((a[|a| - 1] == b[|b| - 1] && Subsequence(a[..|a| - 1], b[..|b| - 1]))
        || Subsequence(a, b[..|b| - 1])))
  }

  function Pending(p: Proxy, name: string): Option<PendingSet> {
    if name in p.pending then Some(p.pending[name]) else None
  }

  /** How the calls sent for a name, the values written to it and its record belong together. */
  predicate Fits(calls: seq<Call>, written: seq<Value>, pending: Option<PendingSet>) {
    var values := Values(calls);
    match pending
    case Some(ps) =>
      && calls != [] && written != [] && ps.latest == written[|written| - 1]
      && (if ps.queued then Subsequence(values, written[..|written| - 1])
          else Subsequence(values, written) && values[|values| - 1] == ps.latest)
    case None =>
      && Subsequence(values, written) && (values == [] <==> written == [])
      && (values != [] ==> values[|values| - 1] == written[|written| - 1])
  }

  predicate NameOk(s: State, name: string) {
    Fits(Of(s.proxy.sent, name), Written(s, name), Pending(s.proxy, name))
  }

  predicate Distinct(calls: seq<Call>) {
    forall i, j :: 0 <= i < j < |calls| ==> calls[i].name != calls[j].name
  }

  function Names(calls: seq<Call>): set<string> {
    set i | 0 <= i < |calls| :: calls[i].name
  }

  predicate FlightOk(s: State) {
    Distinct(s.inFlight) && Names(s.inFlight) == s.proxy.pending.Keys
  }

  predicate EpochsOk(p: Proxy) {
    p.epoch == |p.refetches| && forall k :: 0 <= k < |p.refetches| ==> p.refetches[k].epoch == k + 1
  }

  ghost predicate Inv(s: State) {
    && FlightOk(s)
    && (forall name :: NameOk(s, name))
    && EpochsOk(s.proxy)
    && (s.tail.Some? ==> s.tail.value in s.proxy.failed)
  }

  lemma OfAppend(calls: seq<Call>, c: Call, name: string)
    ensures Of(calls + [c], name) == if c.name == name then Of(calls, name) + [c] else Of(calls, name)
  {
    assert (calls + [c])[..|calls|] == calls;
  }

  lemma ValuesAppend(calls: seq<Call>, c: Call)
    ensures Values(calls + [c]) == Values(calls) + [c.value]
  {
    assert (calls + [c])[..|calls|] == calls;
  }

  /** One more value, sent or not. */
  lemma SubsequenceMore(a: seq<Value>, b: seq<Value>, v: Value)
    requires Subsequence(a, b)
    ensures Subsequence(a, b + [v]) && Subsequence(a + [v], b + [v])
  {
    assert (b + [v])[..|b|] == b && (a + [v])[..|a|] == a;
  }

  lemma LastOff(written: seq<Value>, v: Value)
    ensures (written + [v])[..|written|] == written && (written + [v])[|written|] == v
    ensures written != [] ==> written[..|written| - 1] + [written[|written| - 1]] == written
  {
  }

  /** A write behind a Set in flight. */
  lemma FitsQueued(calls: seq<Call>, written: seq<Value>, ps: PendingSet, v: Value)
    requires Fits(calls, written, Some(ps))
    ensures Fits(calls, written + [v], Some(ps.(latest := v, queued := true)))
  {
    LastOff(written, v);
    assert Subsequence(Values(calls), written) by {
      if ps.queued {
        SubsequenceMore(Values(calls), written[..|written| - 1], written[|written| - 1]);
      }
    }
    assert |written + [v]| - 1 == |written|;
  }

  /** A write with no Set in flight. */
  lemma FitsFirst(calls: seq<Call>, written: seq<Value>, c: Call, ps: PendingSet)
    requires Fits(calls, written, None) && ps.latest == c.value && !ps.queued
    ensures Fits(calls + [c], written + [c.value], Some(ps))
  {
    LastOff(written, c.value);
    ValuesAppend(calls, c);
    SubsequenceMore(Values(calls), written, c.value);
  }

  /** The chained call that sends a queued value. */
  lemma FitsChained(calls: seq<Call>, written: seq<Value>, c: Call, ps: PendingSet)
    requires Fits(calls, written, Some(ps)) && ps.queued && c.value == ps.latest
    ensures Fits(calls + [c], written, Some(ps.(queued := false)))
  {
    LastOff(written, 0);
    ValuesAppend(calls, c);
    SubsequenceMore(Values(calls), written[..|written| - 1], c.value);
    assert written[..|written| - 1] + [c.value] == written;
    assert (calls + [c])[|calls|] == c && (Values(calls) + [c.value])[|calls|] == c.value;
  }

  /** The chain settles. */
  lemma FitsSettled(calls: seq<Call>, written: seq<Value>, ps: PendingSet)
    requires Fits(calls, written, Some(ps)) && !ps.queued
    ensures Fits(calls, written, None)
  {
  }

  lemma WriteKeepsName(s: State, name: string, qmlKey: string, v: Value, n: string)
    requires NameOk(s, n)
    ensures NameOk(Next(s, WriteStep(name, qmlKey, v)), n)
  {
    var calls, written := Of(s.proxy.sent, n), Written(s, n);
    var call := Call(name, v, s.proxy.dest);
    OfAppend(s.proxy.sent, call, n);
    hide Fits, Of;
    if n == name {
      if name in s.proxy.pending {
        FitsQueued(calls, written, s.proxy.pending[name], v);
      } else {
        FitsFirst(calls, written, call, PendingSet(v, false, qmlKey, s.proxy.dest));
      }
    }
  }

  lemma CompleteKeepsName(s: State, i: nat, failed: bool, n: string)
    requires NameOk(s, n) && Enabled(s, Complete(i, failed))
    ensures NameOk(Next(s, Complete(i, failed)), n)
  {
    hide Fits, Of;
    var name := s.inFlight[i].name;
    var calls, written := Of(s.proxy.sent, n), Written(s, n);
    if name in s.proxy.pending {
      var ps := s.proxy.pending[name];
      var call := Call(name, ps.latest, ps.dest);
      OfAppend(s.proxy.sent, call, n);
      if n == name {
        if ps.queued {
          FitsChained(calls, written, call, ps);
        } else {
          FitsSettled(calls, written, ps);
        }
      }
    }
  }

  lemma {:induction false} RefetchOnly(p: Proxy, names: seq<string>)
    ensures var q := RefetchInvalidated(p, names);
            && q == p.(epoch := q.epoch, refetches := q.refetches) && (EpochsOk(p) ==> EpochsOk(q))
            && p.refetches <= q.refetches && |q.refetches| == |p.refetches| + |names|
    decreases |names|
  {
    if names != [] {
      RefetchOnly(p.(epoch := p.epoch + 1, refetches := p.refetches + [RefetchCall(names[0], p.dest, p.epoch + 1)]),
          names[1..]);
    }
  }

  lemma OneMoreCall(calls: seq<Call>, c: Call)
    requires Distinct(calls) && c.name !in Names(calls)
    ensures Distinct(calls + [c]) && Names(calls + [c]) == Names(calls) + {c.name}
  {
    var more := calls + [c];
    assert more[|calls|] == c && forall i :: 0 <= i < |calls| ==> more[i] == calls[i] && calls[i].name in Names(calls);
    assert Names(more) == Names(calls) + {c.name} by {
      forall n | n in Names(calls) ensures n in Names(more) {
        var i :| 0 <= i < |calls| && calls[i].name == n;
        assert more[i].name == n;
      }
    }
  }

  function Without(calls: seq<Call>, i: nat): seq<Call>
    requires i < |calls|
  {
    calls[..i] + calls[i + 1..]
  }

  lemma OneCallLess(calls: seq<Call>, i: nat)
    requires Distinct(calls) && i < |calls|
    ensures Distinct(Without(calls, i)) && Names(Without(calls, i)) == Names(calls) - {calls[i].name}
  {
    var rest := Without(calls, i);
    assert forall k :: 0 <= k < |rest| ==> rest[k] == calls[if k < i then k else k + 1];
    forall n | n in Names(calls) && n != calls[i].name ensures n in Names(rest) {
      var k :| 0 <= k < |calls| && calls[k].name == n;
      assert rest[if k < i then k else k - 1].name == n;
    }
    forall n | n in Names(rest) ensures n in Names(calls) && n != calls[i].name {
      var k :| 0 <= k < |rest| && rest[k].name == n;
      assert calls[if k < i then k else k + 1].name == n;
    }
  }

  lemma WriteKeepsFlight(s: State, name: string, qmlKey: string, v: Value)
    requires FlightOk(s)
    ensures FlightOk(Next(s, WriteStep(name, qmlKey, v)))
  {
    var t := Next(s, WriteStep(name, qmlKey, v));
    if name in s.proxy.pending {
      assert t.inFlight == s.inFlight;
      assert t.proxy.pending.Keys == s.proxy.pending.Keys;
    } else {
      var call := Call(name, v, s.proxy.dest);
      assert (s.proxy.sent + [call])[|s.proxy.sent|..] == [call];
      OneMoreCall(s.inFlight, call);
      hide Names, Distinct;
      assert t.proxy.pending.Keys == s.proxy.pending.Keys + {name};
    }
  }

  lemma CompleteKeepsFlight(s: State, i: nat, failed: bool)
    requires FlightOk(s) && Enabled(s, Complete(i, failed))
    ensures FlightOk(Next(s, Complete(i, failed)))
  {
    var t := Next(s, Complete(i, failed));
    var name := s.inFlight[i].name;
    assert name in Names(s.inFlight);
    OneCallLess(s.inFlight, i);
    hide Names, Distinct;
    var ps := s.proxy.pending[name];
    var rest := Without(s.inFlight, i);
    if ps.queued {
      var call := Call(name, ps.latest, ps.dest);
      assert (s.proxy.sent + [call])[|s.proxy.sent|..] == [call];
      assert t.inFlight == rest + [call];
      OneMoreCall(rest, call);
      assert t.proxy.pending.Keys == s.proxy.pending.Keys;
    } else {
      assert t.inFlight == rest;
      assert t.proxy.pending.Keys == s.proxy.pending.Keys - {name};
    }
  }

  lemma StepKeeps(s: State, step: Step)
    requires Inv(s) && Enabled(s, step)
    ensures Inv(Next(s, step))
  {
    var t := Next(s, step);
    hide Fits, Of, Written;
    match step {
      case WriteStep(name, qmlKey, v) =>
        forall n ensures NameOk(t, n) { WriteKeepsName(s, name, qmlKey, v, n); }
        WriteKeepsFlight(s, name, qmlKey, v);
      case Complete(i, failed) =>
        forall n ensures NameOk(t, n) { CompleteKeepsName(s, i, failed, n); }
        CompleteKeepsFlight(s, i, failed);
      case Invalidated(names) =>
        RefetchOnly(s.proxy, names);
        SameSets(s, t);
      case TailStep =>
        RefetchOnly(s.proxy.(failed := s.proxy.failed - {s.tail.value}), [s.tail.value]);
        SameSets(s, t);
      case Repoint(dest) => SameSets(s, t);
    }
  }

  lemma SameSets(s: State, t: State)
    requires FlightOk(s) && forall name :: NameOk(s, name)
    requires t.inFlight == s.inFlight && t.written == s.written && t.proxy.pending == s.proxy.pending
        && t.proxy.sent == s.proxy.sent
    ensures FlightOk(t) && forall name :: NameOk(t, name)
  {
    hide Fits, Of;
    forall name ensures NameOk(t, name) {
      assert NameOk(s, name);
    }
  }

  lemma {:induction false} RunKeeps(s: State, run: seq<Step>)
    requires Inv(s) && Possible(s, run)
    ensures Inv(After(s, run))
    decreases |run|
  {
    hide Inv, Next;
    if run != [] {
      StepKeeps(s, run[0]);
      RunKeeps(Next(s, run[0]), run[1..]);
    }
  }

  ghost predicate Reached(s0: State, run: seq<Step>, s: State) {
    Start(s0) && Possible(s0, run) && s == After(s0, run)
  }

  lemma ReachedInv(s0: State, run: seq<Step>, s: State)
    requires Reached(s0, run, s)
    ensures Inv(s)
  {
    assert Inv(s0);
    hide Inv, Start;
    RunKeeps(s0, run);
  }

  // ---------------------------------------------------------------------- guarantees

  /** Never two Sets of one name in flight, and none without a record. */
  lemma OneSetInFlight(s0: State, run: seq<Step>, s: State, i: nat, j: nat)
    requires Reached(s0, run, s) && i < |s.inFlight| && j < |s.inFlight| && s.inFlight[i].name == s.inFlight[j].name
    ensures i == j && s.inFlight[i].name in s.proxy.pending
  {
    ReachedInv(s0, run, s);
  }

  /** What goes out for a name is a subsequence of what was written to it, and when the chain has
      settled the last value sent is the last value written. */
  lemma LatestWins(s0: State, run: seq<Step>, s: State, name: string)
    requires Reached(s0, run, s)
    ensures var sent, written := Values(Of(s.proxy.sent, name)), Written(s, name);
            && Subsequence(sent, written)
            && (name !in s.proxy.pending && written != [] ==> sent != [] && sent[|sent| - 1] == written[|written| - 1])
            && (name in s.proxy.pending ==> written != [] && s.proxy.pending[name].latest == written[|written| - 1])
  {
    ReachedInv(s0, run, s);
    assert NameOk(s, name);
    var written := Written(s, name);
    if name in s.proxy.pending && s.proxy.pending[name].queued {
      LastOff(written, 0);
      SubsequenceMore(Values(Of(s.proxy.sent, name)), written[..|written| - 1], written[|written| - 1]);
    }
  }

  /** The record of a name is there in every state of a run. */
  predicate RecordLives(s: State, run: seq<Step>, name: string)
    requires Possible(s, run)
    decreases |run|
  {
    name in s.proxy.pending && (run == [] || RecordLives(Next(s, run[0]), run[1..], name))
  }

  /** What a step that leaves the record there sends for the name goes where the record says. */
  lemma RecordKeeps(s: State, step: Step, name: string)
    requires Enabled(s, step) && name in s.proxy.pending && name in Next(s, step).proxy.pending
    ensures var p, q := s.proxy, Next(s, step).proxy;
            && q.pending[name].dest == p.pending[name].dest && q.pending[name].qmlKey == p.pending[name].qmlKey
            && p.sent <= q.sent
            && forall i :: |p.sent| <= i < |q.sent| && q.sent[i].name == name ==> q.sent[i].dest == p.pending[name].dest
  {
    match step
    case Invalidated(names) => RefetchOnly(s.proxy, names);
    case TailStep => RefetchOnly(s.proxy.(failed := s.proxy.failed - {s.tail.value}), [s.tail.value]);
    case _ =>
  }

  lemma {:induction false} RunKeepsRecord(s: State, run: seq<Step>, name: string)
    requires Possible(s, run) && RecordLives(s, run, name)
    ensures var p, q := s.proxy, After(s, run).proxy;
            && name in q.pending
            && q.pending[name].dest == p.pending[name].dest && q.pending[name].qmlKey == p.pending[name].qmlKey
            && p.sent <= q.sent
            && forall i :: |p.sent| <= i < |q.sent| && q.sent[i].name == name ==> q.sent[i].dest == p.pending[name].dest
    decreases |run|
  {
    hide Next;
    if run != [] {
      RecordKeeps(s, run[0], name);
      RunKeepsRecord(Next(s, run[0]), run[1..], name);
    }
  }

  /** A write that finds no Set of its name in flight starts a chain. For as long as the chain lasts,
      wherever the proxy is repointed meanwhile, everything sent for the name goes where the proxy
      pointed at that write, and failures are reported under the key of that write. */
  lemma ChainKeepsDestination(s: State, name: string, qmlKey: string, v: Value, run: seq<Step>)
    requires name !in s.proxy.pending
    requires var t := Next(s, WriteStep(name, qmlKey, v)); Possible(t, run) && RecordLives(t, run, name)
    ensures var sent := After(Next(s, WriteStep(name, qmlKey, v)), run).proxy.sent;
            && |sent| > |s.proxy.sent| && s.proxy.sent <= sent && sent[|s.proxy.sent|].name == name
            && forall i :: |s.proxy.sent| <= i < |sent| && sent[i].name == name ==> sent[i].dest == s.proxy.dest
    ensures var p := After(Next(s, WriteStep(name, qmlKey, v)), run).proxy;
            name in p.pending && p.pending[name].qmlKey == qmlKey
  {
    var t := Next(s, WriteStep(name, qmlKey, v));
    RunKeepsRecord(t, run, name);
    hide After, RecordLives;
    assert t.proxy.sent[|s.proxy.sent|] == Call(name, v, s.proxy.dest);
  }

  /** Exactly the invalidated names are fetched again, in order, each under an epoch of its own. */
  lemma {:induction false} RefetchesEach(p: Proxy, names: seq<string>, i: nat)
    requires i < |names|
    ensures var q := RefetchInvalidated(p, names);
            && |q.refetches| == |p.refetches| + |names| && p.refetches <= q.refetches
            && q.epoch == p.epoch + |names|
            && q.refetches[|p.refetches| + i] == RefetchCall(names[i], p.dest, p.epoch + 1 + i)
    decreases |names|
  {
    var q := p.(epoch := p.epoch + 1, refetches := p.refetches + [RefetchCall(names[0], p.dest, p.epoch + 1)]);
    if |names| == 1 {
      RefetchNone(q);
    } else {
      RefetchesEach(q, names[1..], if i == 0 then 0 else i - 1);
      assert q.refetches[|p.refetches|] == RefetchCall(names[0], p.dest, p.epoch + 1);
    }
  }

  /** After a failed Set and whatever its handler did, exactly one re-fetch goes out, unless the
      chain had a next link or the handler wrote the name again; then none does. */
  lemma RefetchExactly(s0: State, run: seq<Step>, s: State, i: nat, handler: seq<Step>)
    requires Reached(s0, run, s) && Enabled(s, Complete(i, true))
    requires Possible(Next(s, Complete(i, true)), handler) && forall step :: step in handler ==> InHandler(step)
    ensures var name := s.inFlight[i].name;
            var t := After(Next(s, Complete(i, true)), handler);
            && Enabled(t, TailStep)
            && name in s.proxy.pending
            && var u := Next(t, TailStep);
               u.proxy.refetches == t.proxy.refetches
                                    + if s.proxy.pending[name].queued || (exists step :: step in handler && step.WriteStep? && step.name == name) then []
                                      else [RefetchCall(name, t.proxy.dest, t.proxy.epoch + 1)]
  {
    ReachedInv(s0, run, s);
    StepKeeps(s, Complete(i, true));
    var name := s.inFlight[i].name;
    var c := Next(s, Complete(i, true));
    assert name in c.proxy.pending <==> s.proxy.pending[name].queued;
    assert c.tail == Some(name);
    hide Inv;
    RunKeeps(c, handler);
    HandlerPending(c, handler, name);
    TailRefetches(After(c, handler), name);
  }

  lemma TailRefetches(t: State, name: string)
    requires t.tail == Some(name) && Inv(t)
    ensures Next(t, TailStep).proxy.refetches == t.proxy.refetches + if name in t.proxy.pending then [] else [RefetchCall(name, t.proxy.dest, t.proxy.epoch + 1)]
  {
    var p := t.proxy.(failed := t.proxy.failed - {name});
    assert [name][1..] == [];
    assert RefetchInvalidated(p, [name]).refetches == p.refetches + [RefetchCall(name, p.dest, p.epoch + 1)] by {
      RefetchNone(p.(epoch := p.epoch + 1, refetches := p.refetches + [RefetchCall(name, p.dest, p.epoch + 1)]));
    }
  }

  lemma RefetchNone(p: Proxy)
    ensures RefetchInvalidated(p, []) == p
  {
  }

  /** A handler never removes a record and adds one exactly by writing. */
  lemma {:induction false} HandlerPending(s: State, handler: seq<Step>, name: string)
    requires Possible(s, handler) && forall step :: step in handler ==> InHandler(step)
    ensures After(s, handler).tail == s.tail
    ensures name in After(s, handler).proxy.pending <==> name in s.proxy.pending || exists step :: step in handler && step.WriteStep? && step.name == name
    decreases |handler|
  {
    if handler != [] {
      var t := Next(s, handler[0]);
      assert handler[0] in handler && handler == [handler[0]] + handler[1..];
      if handler[0].Invalidated? {
        RefetchOnly(s.proxy, handler[0].names);
      }
      assert forall step :: step in handler <==> step == handler[0] || step in handler[1..];
      assert name in t.proxy.pending <==> name in s.proxy.pending || (handler[0].WriteStep? && handler[0].name == name);
      HandlerPending(t, handler[1..], name);
    }
  }

  /** A name is marked for a re-fetch by its failed Sets only, and until that re-fetch goes out. */
  lemma MarkedExactly(s: State, step: Step, name: string)
    requires Enabled(s, step)
    ensures name in Next(s, step).proxy.failed <==>
              || (step.Complete? && step.failed && s.inFlight[step.i].name == name)
              || (name in s.proxy.failed && !(step.TailStep? && s.tail == Some(name) && name !in s.proxy.pending))
  {
    match step
    case Invalidated(names) => RefetchOnly(s.proxy, names);
    case TailStep => RefetchOnly(s.proxy.(failed := s.proxy.failed - {s.tail.value}), [s.tail.value]);
    case _ =>
  }

  /** A middle link that failed before a last link that succeeds is never re-fetched: the marker
      stays, and the value on display stays the proxy's own. */
  lemma MiddleFailureIsForgotten(s0: State, run: seq<Step>, s: State, i: nat, j: nat)
    requires Reached(s0, run, s) && Enabled(s, Complete(i, true))
    requires s.inFlight[i].name in s.proxy.pending && s.proxy.pending[s.inFlight[i].name].queued
    requires var t := Next(Next(s, Complete(i, true)), TailStep); Enabled(t, Complete(j, false)) && t.inFlight[j].name == s.inFlight[i].name
    ensures var name := s.inFlight[i].name;
            var t := Next(Next(s, Complete(i, true)), TailStep);
            var u := Next(t, Complete(j, false));
            && name !in u.proxy.pending && u.tail == None && u.proxy.refetches == s.proxy.refetches && name in u.proxy.failed
  {
    ReachedInv(s0, run, s);
  }

  /** The epoch is one counter for the whole proxy: of all re-fetches ever sent, for whatever
      names, only the newest can still land. */
  lemma OnlyTheNewestRefetchLands(s0: State, run: seq<Step>, s: State, k: nat)
    requires Reached(s0, run, s) && k < |s.proxy.refetches|
    ensures Lands(s.proxy, s.proxy.refetches[k]) <==> k == |s.proxy.refetches| - 1 && s.proxy.refetches[k].dest == s.proxy.dest
  {
    ReachedInv(s0, run, s);
  }
}
