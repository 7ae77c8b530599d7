/** Dispatching calls to adaptors over whole runs: nested dispatches, deferred replies, timers,
    unregistration and destruction. A handler is whatever it likes to be: between entering and
    leaving a scope any other step may happen. A handle stays valid at least until the dispatch
    that created it is over. */
module DispatchProtocol {
  import opened Options
  import opened HeldReply

  /** A dispatch in progress: inside its DispatchScope, or in the C++ call that follows when
      the adaptor has no callable of that name. */
  datatype Frame =
    | Scoped(adaptor: nat, serial: nat, required: bool, saved: bool)
    | Direct(adaptor: nat, serial: nat, required: bool)

  /** How a call was taken up. */
  datatype Place = InContext(adaptor: nat, depth: nat) | InFrame(index: nat)

  datatype State = State(
    adaptors: map<nat, Adaptor>,
    control: seq<Frame>,           // the C++ call stack, innermost last
    calls: map<nat, bool>,         // every call seen, and whether it wants a reply
    handled: set<nat>,             // calls whose dispatch has returned true
    sent: seq<Answer>,
    places: map<nat, Place>,       // where each entered call went
    handleOf: map<nat, (nat, nat)>) // the handle a call was deferred to

  datatype Result =
    | Threw
    | Scalar(tail: bool) // a bare string, number, bool or null
    | Other(tail: bool)  // anything else, undefined included

  datatype Step =
    | Create(a: nat, ttl: bool)
    | Early(serial: nat, required: bool, isError: bool) // refused, a property access, no such object, ...
    | Decline(serial: nat, required: bool)              // handleMessage returns false
    | Enter(a: nat, serial: nat, required: bool, callable: bool)
    | HoldStep(a: nat)
    | SettleStep(a: nat, i: nat, isError: bool)         // send or sendError
    | ExpireStep(a: nat, i: nat)
    | UnregisterStep(a: nat)
    | Destroy(a: nat)
    | Leave(result: Result)
    | Finish(isError: bool)                             // the C++ call returned, or could not be made

  predicate Start(s: State) {
    s.adaptors == map[] && s.control == [] && s.calls == map[] && s.handled == {} && s.sent == []
        && s.places == map[] && s.handleOf == map[]
  }

  predicate Alive(s: State, a: nat) {
    a in s.adaptors && s.adaptors[a].alive
  }

  predicate HasHandle(s: State, a: nat, i: nat) {
    a in s.adaptors && i < |s.adaptors[a].handles|
  }

  function Top(s: State): Frame
    requires s.control != []
  {
    s.control[|s.control| - 1]
  }

  predicate Enabled(s: State, step: Step) {
    match step
    case Create(a, _) => a !in s.adaptors
    case Early(serial, _, _) => serial !in s.calls
    case Decline(serial, _) => serial !in s.calls
    case Enter(a, serial, _, _) => Alive(s, a) && serial !in s.calls
    case HoldStep(a) => Alive(s, a)
    case SettleStep(a, i, _) => HasHandle(s, a, i)
    case ExpireStep(a, i) => HasHandle(s, a, i) && s.adaptors[a].handles[i].ttl
    case UnregisterStep(a) => Alive(s, a) && s.adaptors[a].attached
    case Destroy(a) => Alive(s, a) && forall f :: f in s.control ==> f.adaptor != a // deletion is deferred
    case Leave(_) => s.control != [] && Top(s).Scoped? && Alive(s, Top(s).adaptor) && s.adaptors[Top(s).adaptor].stack != []
                     && (s.adaptors[Top(s).adaptor].current.reply.Some? ==>
                         s.adaptors[Top(s).adaptor].current.reply.value < |s.adaptors[Top(s).adaptor].handles|)
    case Finish(_) => s.control != [] && Top(s).Direct?
  }

  function Reply(required: bool, serial: nat, isError: bool): seq<Answer> {
    if required then [Answer(serial, isError)] else []
  }

  function Entered(s: State, a: nat, serial: nat, required: bool, callable: bool): State
    requires Alive(s, a)
  {
    var ad := s.adaptors[a];
    var t := s.(calls := s.calls[serial := required]);
    if callable then
      t.(adaptors := s.adaptors[a := Push(ad, serial, required)], control := s.control + [Scoped(a, serial, required,
          ad.inDispatch)],
         places := s.places[serial := InContext(a, |ad.stack| + 1)])
    else
      // the scope opens and closes around a lookup that finds nothing to call
      t.(adaptors := s.adaptors[a := Pop(Push(ad, serial, required), ad.inDispatch)],
          control := s.control + [Direct(a, serial, required)],
         places := s.places[serial := InFrame(|s.control|)])
  }

  function Held(s: State, a: nat): State
    requires Alive(s, a)
  {
    var (ad, reply) := Hold(s.adaptors[a]);
    s.(adaptors := s.adaptors[a := ad], handleOf := if reply.Some? then s.handleOf[ad.current.serial := (a,
        reply.value)] else s.handleOf)
  }

  function Settled(s: State, a: nat, i: nat, isError: bool): State
    requires HasHandle(s, a, i)
  {
    var hs := s.adaptors[a].handles;
    s.(adaptors := s.adaptors[a := s.adaptors[a].(handles := hs[i := Closed(hs[i])])], sent := s.sent + Owed(hs[i], isError))
  }

  function AllSettled(s: State, a: nat, attached: bool, alive: bool): State
    requires a in s.adaptors
  {
    var ad := s.adaptors[a];
    s.(adaptors := s.adaptors[a := ad.(handles := ClosedAll(ad.handles), attached := attached, alive := alive)],
        sent := s.sent + OwedAll(ad.handles))
  }

  /** The tail of handleMessage, from the handler's result on. */
  function Left(s: State, result: Result): State
    requires Enabled(s, Leave(result))
  {
    var f := Top(s);
    var ad := s.adaptors[f.adaptor];
    var held := ad.current.reply.Some?;
    var threw := result.Threw? || (result.Scalar? && held);
    var t := if held then (if threw then Settled(s, f.adaptor, ad.current.reply.value, true) else s)
             else s.(sent := s.sent + Reply(f.required, f.serial, threw || result.tail));
    t.(adaptors := t.adaptors[f.adaptor := Pop(t.adaptors[f.adaptor], f.saved)],
       control := s.control[..|s.control| - 1], handled := s.handled + {f.serial})
  }

  function Next(s: State, step: Step): State
    requires Enabled(s, step)
  {
    match step
    case Create(a, ttl) => s.(adaptors := s.adaptors[a := Adaptor(NOCALL, [], false, [], ttl, true, true)])
    case Early(serial, required, isError) =>
      s.(calls := s.calls[serial := required], handled := s.handled + {serial}, sent := s.sent + Reply(required,
          serial, isError))
    case Decline(serial, required) => s.(calls := s.calls[serial := required])
    case Enter(a, serial, required, callable) => Entered(s, a, serial, required, callable)
    case HoldStep(a) => Held(s, a)
    case SettleStep(a, i, isError) => Settled(s, a, i, isError)
    case ExpireStep(a, i) => Settled(s, a, i, true)
    case UnregisterStep(a) => AllSettled(s, a, false, true)
    case Destroy(a) => AllSettled(s, a, false, false)
    case Leave(result) => Left(s, result)
    case Finish(isError) =>
      var f := Top(s);
      s.(control := s.control[..|s.control| - 1], handled := s.handled + {f.serial},
          sent := s.sent + Reply(f.required, f.serial, isError))
  }

  predicate Possible(s: State, run: seq<Step>)
    decreases |run|
  {
    run == [] || (Enabled(s, run[0]) && Possible(Next(s, run[0]), run[1..]))
  }

  function After(s: State, run: seq<Step>): State
    requires Possible(s, run)
    decreases |run|
  {
    if run == [] then s else After(Next(s, run[0]), run[1..])
  }

  // ------------------------------------------------------------------ what every step keeps

  function Count(sent: seq<Answer>, x: nat): nat {
    if sent == [] then 0 else Count(sent[..|sent| - 1], x) + if sent[|sent| - 1].serial == x then 1 else 0
  }

  lemma {:induction false} CountAppend(a: seq<Answer>, b: seq<Answer>, x: nat)
    ensures Count(a + b, x) == Count(a, x) + Count(b, x)
  {
    if b == [] {
      assert a + b == a;
    } else {
      var n := |b| - 1;
      assert (a + b)[..|a + b| - 1] == a + b[..n];
      CountAppend(a, b[..n], x);
    }
  }

  /** The contexts of an adaptor, outermost first; the first is no call. */
  function Contexts(ad: Adaptor): seq<Context> {
    ad.stack + [ad.current]
  }

  /** How many scopes of an adaptor are open. */
  function Depth(control: seq<Frame>, a: nat): nat {
    if control == [] then 0
    else Depth(control[..|control| - 1], a) + if control[|control| - 1].Scoped?
        && control[|control| - 1].adaptor == a then 1 else 0
  }

  predicate Open(s: State, x: nat, required: bool) {
    x in s.calls && x !in s.handled && s.calls[x] == required
  }

  /** The scopes on the control stack and the adaptor's contexts are the same calls. */
  ghost predicate Stacked(s: State) {
    && (forall a :: a in s.adaptors ==>
          var ad := s.adaptors[a];
          |ad.stack| == Depth(s.control, a) && (ad.inDispatch <==> ad.stack != []))
    && (forall j :: 0 <= j < |s.control| ==> FrameOk(s, j))
  }

  predicate FrameOk(s: State, j: nat)
    requires j < |s.control|
  {
    var f := s.control[j];
    && Alive(s, f.adaptor) && Open(s, f.serial, f.required) && f.serial in s.places
    && match f
       case Scoped(a, serial, required, saved) =>
         var k := Depth(s.control[..j], a) + 1;
         && k <= |s.adaptors[a].stack|
         && Contexts(s.adaptors[a])[k].serial == serial && Contexts(s.adaptors[a])[k].required == required
         && (saved <==> k > 1)
       case Direct(_, serial, _) => s.places[serial] == InFrame(j)
  }

  /** A context is an open call that went nowhere else; its handle, if any, is that call's. */
  predicate ContextOk(s: State, a: nat, k: nat)
    requires a in s.adaptors && 0 < k < |Contexts(s.adaptors[a])|
  {
    var c := Contexts(s.adaptors[a])[k];
    && Open(s, c.serial, c.required) && c.serial in s.places && s.places[c.serial] == InContext(a, k)
    && (c.reply.Some? <==> c.serial in s.handleOf)
    && (c.reply.Some? ==> s.handleOf[c.serial] == (a, c.reply.value))
  }

  /** A handle is the only handle of its call; while the dispatch runs the context knows it;
      open handles have a living adaptor. */
  predicate HandleOk(s: State, a: nat, i: nat)
    requires HasHandle(s, a, i)
  {
    var h := s.adaptors[a].handles[i];
    && h.serial in s.calls && s.calls[h.serial] == h.required
    && h.serial in s.handleOf && s.handleOf[h.serial] == (a, i)
    && h.serial in s.places && s.places[h.serial].InContext?
    && (!h.settled ==> s.adaptors[a].alive)
    && (h.settled ==> !h.ttl)
  }

  predicate MapOk(s: State, x: nat)
    requires x in s.handleOf
  {
    var (a, i) := s.handleOf[x];
    HasHandle(s, a, i) && s.adaptors[a].handles[i].serial == x
  }

  /** How many answers a call should have had by now. */
  function Due(s: State, x: nat): nat {
    if x !in s.calls || !s.calls[x] then 0
    else if x in s.handleOf then
      var (a, i) := s.handleOf[x];
      if HasHandle(s, a, i) && s.adaptors[a].handles[i].settled then 1 else 0
    else if x in s.handled then 1 else 0
  }

  ghost predicate Inv(s: State) {
    && Stacked(s)
    && (forall a, k :: a in s.adaptors && 0 < k < |Contexts(s.adaptors[a])| ==> ContextOk(s, a, k))
    && (forall a, i :: HasHandle(s, a, i) ==> HandleOk(s, a, i))
    && (forall x :: x in s.handleOf ==> MapOk(s, x))
    && (forall x :: x in s.places ==> x in s.calls)
    && (forall x :: x in s.handled ==> x in s.calls)
    && (forall x :: Count(s.sent, x) == Due(s, x))
  }
}
