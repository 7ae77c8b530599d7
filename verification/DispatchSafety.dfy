/** Exactly one reply, over every run. */
module DispatchSafety {
  import opened Options
  import opened HeldReply
  import opened DispatchProtocol

  predicate Scopes(f: Frame, a: nat) {
    f.Scoped? && f.adaptor == a
  }

  lemma {:induction false} DepthBefore(control: seq<Frame>, j: nat, a: nat)
    requires j < |control|
    ensures Depth(control[..j], a) + (if Scopes(control[j], a) then 1 else 0) <= Depth(control, a)
  {
    var n := |control| - 1;
    if j < n {
      DepthBefore(control[..n], j, a);
      assert control[..n][..j] == control[..j];
    }
  }

  lemma DepthPush(control: seq<Frame>, f: Frame, a: nat)
    ensures Depth(control + [f], a) == Depth(control, a) + if Scopes(f, a) then 1 else 0
  {
    assert (control + [f])[..|control|] == control;
  }

  // ---------------------------------------------------------- steps at the edges

  lemma ReplyCount(required: bool, serial: nat, isError: bool, x: nat)
    ensures Count(Reply(required, serial, isError), x) == if required && serial == x then 1 else 0
  {
    if required {
      assert [Answer(serial, isError)][..0] == [];
    }
  }

  /** A call with a handle is a call that was seen, and the handle is its own. */
  lemma Deferred(s: State, x: nat)
    requires Inv(s)
    ensures x in s.handleOf ==> x in s.calls && x in s.places && s.places[x].InContext? && HasHandle(s, s.handleOf[x].0, s.handleOf[x].1)
    ensures x in s.handleOf ==> s.adaptors[s.handleOf[x].0].handles[s.handleOf[x].1].serial == x
  {
    if x in s.handleOf {
      assert MapOk(s, x);
      assert HandleOk(s, s.handleOf[x].0, s.handleOf[x].1);
    }
  }

  lemma EarlyKeeps(s: State, serial: nat, required: bool, isError: bool)
    requires Inv(s) && serial !in s.calls
    ensures Inv(Next(s, Early(serial, required, isError)))
  {
    var t := Next(s, Early(serial, required, isError));
    forall x ensures Count(t.sent, x) == Due(t, x) {
      CountAppend(s.sent, Reply(required, serial, isError), x);
      ReplyCount(required, serial, isError, x);
      Deferred(s, x);
    }
    CallKeeps(s, t, serial);
  }

  /** A call nobody entered changes nothing but the counts. */
  lemma CallKeeps(s: State, t: State, serial: nat)
    requires Inv(s) && serial !in s.calls
    requires t.adaptors == s.adaptors && t.control == s.control && t.places == s.places && t.handleOf == s.handleOf
    requires t.calls.Keys == s.calls.Keys + {serial} && (forall x :: x in s.calls ==> t.calls[x] == s.calls[x])
    requires t.handled == s.handled || t.handled == s.handled + {serial}
    requires forall x :: Count(t.sent, x) == Due(t, x)
    ensures Inv(t)
  {
    hide Count, Due, Depth;
    forall j | 0 <= j < |t.control| ensures FrameOk(t, j) {
      assert FrameOk(s, j);
    }
    forall a, k | a in t.adaptors && 0 < k < |Contexts(t.adaptors[a])| ensures ContextOk(t, a, k) {
      assert ContextOk(s, a, k);
    }
    forall a, i | HasHandle(t, a, i) ensures HandleOk(t, a, i) {
      assert HandleOk(s, a, i);
    }
    forall x | x in t.handleOf ensures MapOk(t, x) {
      assert MapOk(s, x);
    }
  }

  lemma DeclineKeeps(s: State, serial: nat, required: bool)
    requires Inv(s) && serial !in s.calls
    ensures Inv(Next(s, Decline(serial, required)))
  {
    var t := Next(s, Decline(serial, required));
    forall x ensures Count(t.sent, x) == Due(t, x) {
      assert Count(s.sent, x) == Due(s, x);
      Deferred(s, x);
    }
    CallKeeps(s, t, serial);
  }

  lemma CreateCounts(s: State, a: nat, ttl: bool)
    requires Inv(s) && a !in s.adaptors
    ensures var t := Next(s, Create(a, ttl)); forall x :: Count(t.sent, x) == Due(t, x)
  {
    hide Count, Depth, FrameOk, ContextOk;
    var t := Next(s, Create(a, ttl));
    forall x ensures Count(t.sent, x) == Due(t, x) {
      assert Count(s.sent, x) == Due(s, x);
      Deferred(s, x);
    }
  }

  lemma CreateKeeps(s: State, a: nat, ttl: bool)
    requires Inv(s) && a !in s.adaptors
    ensures Inv(Next(s, Create(a, ttl)))
  {
    hide Count, Due, Depth;
    var t := Next(s, Create(a, ttl));
    forall f | f in s.control ensures f.adaptor != a {
      var j :| 0 <= j < |s.control| && s.control[j] == f;
      assert FrameOk(s, j);
    }
    NoFrames(s.control, a);
    CreateCounts(s, a, ttl);
    forall j | 0 <= j < |t.control| ensures FrameOk(t, j) {
      assert FrameOk(s, j);
    }
    forall b, k | b in t.adaptors && 0 < k < |Contexts(t.adaptors[b])| ensures ContextOk(t, b, k) {
      assert b != a ==> ContextOk(s, b, k);
    }
    forall b, i | HasHandle(t, b, i) ensures HandleOk(t, b, i) {
      assert HandleOk(s, b, i);
    }
    forall x | x in t.handleOf ensures MapOk(t, x) {
      assert MapOk(s, x);
    }
  }

  lemma {:induction false} NoFrames(control: seq<Frame>, a: nat)
    requires forall f :: f in control ==> f.adaptor != a
    ensures Depth(control, a) == 0
  {
    if control != [] {
      NoFrames(control[..|control| - 1], a);
    }
  }

  // -------------------------------------------------------------------- in and out of scopes

  /** Entering a call touches no handle. */
  lemma EnteredHandles(s: State, a: nat, serial: nat, required: bool, callable: bool)
    requires Inv(s) && Alive(s, a) && serial !in s.calls
    ensures var t := Entered(s, a, serial, required, callable);
            && (forall b, i :: HasHandle(t, b, i) ==> HandleOk(t, b, i))
            && (forall x :: x in t.handleOf ==> MapOk(t, x))
  {
    var t := Entered(s, a, serial, required, callable);
    hide Count, Due, Depth, Stacked, ContextOk;
    forall b, i | HasHandle(t, b, i) ensures HandleOk(t, b, i) {
      assert HasHandle(s, b, i);
      EnteredHandle(s, a, serial, required, callable, b, i);
    }
    forall x | x in t.handleOf ensures MapOk(t, x) {
      assert MapOk(s, x);
    }
  }

  lemma EnteredHandle(s: State, a: nat, serial: nat, required: bool, callable: bool, b: nat, i: nat)
    requires Alive(s, a) && serial !in s.calls && HasHandle(s, b, i) && HandleOk(s, b, i)
        && forall x :: x in s.places ==> x in s.calls
    ensures HasHandle(Entered(s, a, serial, required, callable), b, i)
        && HandleOk(Entered(s, a, serial, required, callable), b, i)
  {
  }

  lemma EnteredCounts(s: State, a: nat, serial: nat, required: bool, callable: bool)
    requires Inv(s) && Alive(s, a) && serial !in s.calls
    ensures var t := Entered(s, a, serial, required, callable); forall x :: Count(t.sent, x) == Due(t, x)
  {
    var t := Entered(s, a, serial, required, callable);
    forall x ensures Count(t.sent, x) == Due(t, x) {
      assert Count(s.sent, x) == Due(s, x);
      Deferred(s, x);
    }
  }

  lemma EnterFrame(s: State, a: nat, serial: nat, required: bool, callable: bool, j: nat)
    requires Inv(s) && Alive(s, a) && serial !in s.calls && j < |s.control|
    ensures FrameOk(Entered(s, a, serial, required, callable), j)
  {
    hide Depth, Count, Due, ContextOk, HandleOk, MapOk, Pop;
    var t := Entered(s, a, serial, required, callable);
    PopPush(s.adaptors[a], serial, required);
    assert FrameOk(s, j);
    assert t.control[j] == s.control[j] && t.control[..j] == s.control[..j];
  }

  lemma EnterTop(s: State, a: nat, serial: nat, required: bool)
    requires Inv(s) && Alive(s, a) && serial !in s.calls
    ensures FrameOk(Entered(s, a, serial, required, true), |s.control|)
  {
    assert Entered(s, a, serial, required, true).control[..|s.control|] == s.control;
    hide Depth, Count, Due, HandleOk, MapOk, ContextOk;
  }

  lemma EnterContexts(s: State, a: nat, serial: nat, required: bool)
    requires Inv(s) && Alive(s, a) && serial !in s.calls
    ensures var t := Entered(s, a, serial, required, true);
            forall b, k :: b in t.adaptors && 0 < k < |Contexts(t.adaptors[b])| ==> ContextOk(t, b, k)
  {
    hide Count, Due, Depth, HandleOk, MapOk, FrameOk, Stacked;
    var t := Entered(s, a, serial, required, true);
    Deferred(s, serial);
    forall b, k | b in t.adaptors && 0 < k < |Contexts(t.adaptors[b])| ensures ContextOk(t, b, k) {
      if b != a || k <= |s.adaptors[a].stack| {
        assert ContextOk(s, b, k);
      }
    }
  }

  lemma EnterKeeps(s: State, a: nat, serial: nat, required: bool)
    requires Inv(s) && Alive(s, a) && serial !in s.calls
    ensures Inv(Entered(s, a, serial, required, true))
  {
    hide Count, Due, Depth, HandleOk, MapOk, FrameOk, ContextOk;
    var t := Entered(s, a, serial, required, true);
    var f := Scoped(a, serial, required, s.adaptors[a].inDispatch);
    EnteredHandles(s, a, serial, required, true);
    EnteredCounts(s, a, serial, required, true);
    EnterContexts(s, a, serial, required);
    forall b ensures Depth(t.control, b) == Depth(s.control, b) + if b == a then 1 else 0 {
      DepthPush(s.control, f, b);
    }
    EnterTop(s, a, serial, required);
    forall j | 0 <= j < |t.control| ensures FrameOk(t, j) {
      if j < |s.control| {
        EnterFrame(s, a, serial, required, true, j);
      }
    }
  }

  /** A scope that opens and closes with nothing in between leaves the adaptor as it was. */
  lemma PopPush(ad: Adaptor, serial: nat, required: bool)
    ensures Pop(Push(ad, serial, required), ad.inDispatch) == ad
  {
    assert (ad.stack + [ad.current])[..|ad.stack|] == ad.stack;
  }

  lemma DirectKeeps(s: State, a: nat, serial: nat, required: bool)
    requires Inv(s) && Alive(s, a) && serial !in s.calls
    ensures Inv(Entered(s, a, serial, required, false))
  {
    hide Count, Due, Depth, HandleOk, MapOk, Pop, Push;
    var t := Entered(s, a, serial, required, false);
    PopPush(s.adaptors[a], serial, required);
    EnteredHandles(s, a, serial, required, false);
    EnteredCounts(s, a, serial, required, false);
    Deferred(s, serial);
    forall b ensures Depth(t.control, b) == Depth(s.control, b) {
      DepthPush(s.control, Direct(a, serial, required), b);
    }
    assert t.adaptors == s.adaptors;
    forall j | 0 <= j < |t.control| ensures FrameOk(t, j) {
      if j < |s.control| {
        EnterFrame(s, a, serial, required, false, j);
      }
    }
    forall b, k | b in t.adaptors && 0 < k < |Contexts(t.adaptors[b])| ensures ContextOk(t, b, k) {
      assert ContextOk(s, b, k);
    }
  }

  // ------------------------------------------------------------------------------ handles

  lemma HoldKeeps(s: State, a: nat)
    requires Inv(s) && Alive(s, a)
    ensures Inv(Held(s, a))
  {
    var ad := s.adaptors[a];
    if ad.inDispatch && ad.current.reply.None? {
      NewHandleKeeps(s, a);
    } else {
      var k := |ad.stack|;
      assert ad.inDispatch ==> ContextOk(s, a, k) && Contexts(ad)[k] == ad.current;
      assert Held(s, a).adaptors == s.adaptors;
      assert Held(s, a).handleOf == s.handleOf;
      assert Held(s, a) == s;
    }
  }

  lemma NewHandleHandles(s: State, a: nat)
    requires Inv(s) && Alive(s, a) && s.adaptors[a].inDispatch && s.adaptors[a].current.reply.None?
    ensures var t := Held(s, a);
            && (forall b, i :: HasHandle(t, b, i) ==> HandleOk(t, b, i))
            && (forall x :: x in t.handleOf ==> MapOk(t, x))
            && (forall x :: Count(t.sent, x) == Due(t, x))
  {
    var t := Held(s, a);
    var ad := s.adaptors[a];
    var y := ad.current.serial;
    assert ContextOk(s, a, |ad.stack|) && Contexts(ad)[|ad.stack|] == ad.current;
    assert y !in s.handleOf && y !in s.handled;
    hide Count, Depth, Stacked, ContextOk;
    forall x ensures Count(t.sent, x) == Due(t, x) {
      assert Count(s.sent, x) == Due(s, x);
      Deferred(s, x);
    }
    forall b, i | HasHandle(t, b, i) ensures HandleOk(t, b, i) {
      assert HasHandle(s, b, i) ==> HandleOk(s, b, i);
    }
    forall x | x in t.handleOf ensures MapOk(t, x) {
      assert x in s.handleOf ==> MapOk(s, x);
    }
  }

  lemma NewHandleKeeps(s: State, a: nat)
    requires Inv(s) && Alive(s, a) && s.adaptors[a].inDispatch && s.adaptors[a].current.reply.None?
    ensures Inv(Held(s, a))
  {
    hide Count, Due, Depth, HandleOk, MapOk;
    var t := Held(s, a);
    var ad := s.adaptors[a];
    NewHandleHandles(s, a);
    assert ContextOk(s, a, |ad.stack|) && Contexts(ad)[|ad.stack|] == ad.current;
    forall j | 0 <= j < |t.control| ensures FrameOk(t, j) {
      HeldFrame(s, a, j);
    }
    forall b, k | b in t.adaptors && 0 < k < |Contexts(t.adaptors[b])| ensures ContextOk(t, b, k) {
      assert ContextOk(s, b, k);
    }
  }

  lemma HeldFrame(s: State, a: nat, j: nat)
    requires j < |s.control| && FrameOk(s, j) && Alive(s, a)
    ensures FrameOk(Held(s, a), j)
  {
    hide Depth;
  }

  lemma SettledCounts(s: State, a: nat, i: nat, isError: bool)
    requires Inv(s) && HasHandle(s, a, i)
    ensures var t := Settled(s, a, i, isError); forall x :: Count(t.sent, x) == Due(t, x)
  {
    var t := Settled(s, a, i, isError);
    var h := s.adaptors[a].handles[i];
    assert HandleOk(s, a, i);
    forall x ensures Count(t.sent, x) == Due(t, x) {
      assert Count(s.sent, x) == Due(s, x);
      Deferred(s, x);
      CountAppend(s.sent, Owed(h, isError), x);
      OwedCount(h, isError, x);
    }
  }

  lemma OwedCount(h: Handle, isError: bool, x: nat)
    ensures Count(Owed(h, isError), x) == if !h.settled && h.required && h.serial == x then 1 else 0
  {
    assert [Answer(h.serial, isError)][..0] == [];
  }

  /** The same adaptor with some handles closed; all of them, if it dies. */
  predicate Closing(ad: Adaptor, ad': Adaptor) {
    && ad'.stack == ad.stack && ad'.current == ad.current && ad'.inDispatch == ad.inDispatch && |ad'.handles| == |ad.handles|
    && forall i :: 0 <= i < |ad.handles| ==>
         || ad'.handles[i] == Closed(ad.handles[i])
         || (ad'.handles[i] == ad.handles[i] && ad'.alive == ad.alive)
  }

  /** Settling handles changes nothing but the handles and what was sent. */
  lemma SameElsewhere(s: State, t: State)
    requires Inv(s)
    requires t.adaptors.Keys == s.adaptors.Keys && t.control == s.control && t.calls == s.calls
        && t.handled == s.handled && t.places == s.places && t.handleOf == s.handleOf
    requires forall a :: a in s.adaptors ==> Closing(s.adaptors[a], t.adaptors[a])
    requires forall a :: a in s.adaptors && t.adaptors[a].alive != s.adaptors[a].alive ==>
        forall f :: f in s.control ==> f.adaptor != a
    requires forall x :: Count(t.sent, x) == Due(t, x)
    ensures Inv(t)
  {
    hide Count, Due, Depth;
    forall j | 0 <= j < |t.control| ensures FrameOk(t, j) {
      assert s.control[j] in s.control;
      assert FrameOk(s, j);
    }
    forall b, k | b in t.adaptors && 0 < k < |Contexts(t.adaptors[b])| ensures ContextOk(t, b, k) {
      assert ContextOk(s, b, k);
    }
    forall b, i | HasHandle(t, b, i) ensures HandleOk(t, b, i) {
      assert HandleOk(s, b, i);
    }
    forall x | x in t.handleOf ensures MapOk(t, x) {
      assert MapOk(s, x);
      var (b, i) := s.handleOf[x];
      assert Closing(s.adaptors[b], t.adaptors[b]);
      assert t.adaptors[b].handles[i] == Closed(s.adaptors[b].handles[i])
          || t.adaptors[b].handles[i] == s.adaptors[b].handles[i];
    }
  }

  lemma SettledKeeps(s: State, a: nat, i: nat, isError: bool)
    requires Inv(s) && HasHandle(s, a, i)
    ensures Inv(Settled(s, a, i, isError))
  {
    SettledCounts(s, a, i, isError);
    hide Inv, Count, Due;
    SameElsewhere(s, Settled(s, a, i, isError));
  }

  lemma {:induction false} OwedNone(hs: seq<Handle>, x: nat)
    requires forall i :: 0 <= i < |hs| ==> hs[i].serial != x
    ensures Count(OwedAll(hs), x) == 0
  {
    if hs != [] {
      var n := |hs| - 1;
      OwedNone(hs[..n], x);
      CountAppend(OwedAll(hs[..n]), Owed(hs[n], true), x);
      OwedCount(hs[n], true, x);
    }
  }

  /** One handle of a call owes what it alone would. */
  lemma {:induction false} OwedOne(hs: seq<Handle>, i: nat)
    requires i < |hs| && forall j :: 0 <= j < |hs| && j != i ==> hs[j].serial != hs[i].serial
    ensures Count(OwedAll(hs), hs[i].serial) == if !hs[i].settled && hs[i].required then 1 else 0
  {
    var n := |hs| - 1;
    var x := hs[i].serial;
    CountAppend(OwedAll(hs[..n]), Owed(hs[n], true), x);
    OwedCount(hs[n], true, x);
    if i == n {
      OwedNone(hs[..n], x);
    } else {
      OwedOne(hs[..n], i);
    }
  }

  lemma OwedHere(s: State, a: nat, x: nat)
    requires Inv(s) && a in s.adaptors
    ensures var hs := s.adaptors[a].handles;
            Count(OwedAll(hs), x) == if x in s.handleOf && s.handleOf[x].0 == a && s.handleOf[x].1 < |hs|
                && !hs[s.handleOf[x].1].settled && s.calls[x] then 1 else 0
  {
    var hs := s.adaptors[a].handles;
    forall i | 0 <= i < |hs| ensures hs[i].serial in s.handleOf && s.handleOf[hs[i].serial] == (a, i)
        && s.calls[hs[i].serial] == hs[i].required {
      assert HasHandle(s, a, i);
      assert HandleOk(s, a, i);
    }
    Deferred(s, x);
    hide Inv;
    if x in s.handleOf && s.handleOf[x].0 == a {
      OwedOne(hs, s.handleOf[x].1);
    } else {
      OwedNone(hs, x);
    }
  }

  lemma AllSettledCounts(s: State, a: nat, attached: bool, alive: bool)
    requires Inv(s) && a in s.adaptors
    ensures var t := AllSettled(s, a, attached, alive); forall x :: Count(t.sent, x) == Due(t, x)
  {
    var t := AllSettled(s, a, attached, alive);
    var hs := s.adaptors[a].handles;
    forall x ensures Count(t.sent, x) == Due(t, x) {
      assert Count(s.sent, x) == Due(s, x);
      Deferred(s, x);
      CountAppend(s.sent, OwedAll(hs), x);
      OwedHere(s, a, x);
    }
  }

  lemma AllSettledKeeps(s: State, a: nat, attached: bool, alive: bool)
    requires Inv(s) && Alive(s, a) && (!alive ==> forall f :: f in s.control ==> f.adaptor != a)
    ensures Inv(AllSettled(s, a, attached, alive))
  {
    AllSettledCounts(s, a, attached, alive);
    hide Inv, Count, Due;
    SameElsewhere(s, AllSettled(s, a, attached, alive));
  }

  // --------------------------------------------------------------------------------- out

  /** The scope on top closes, its call is handled, and `sent` goes out. */
  function Popped(s: State, sent: seq<Answer>): State
    requires s.control != [] && Top(s).Scoped? && Top(s).adaptor in s.adaptors && s.adaptors[Top(s).adaptor].stack != []
  {
    var f := Top(s);
    s.(adaptors := s.adaptors[f.adaptor := Pop(s.adaptors[f.adaptor], f.saved)],
       control := s.control[..|s.control| - 1], handled := s.handled + {f.serial}, sent := s.sent + sent)
  }

  /** The scope on top is its adaptor's current context. */
  lemma TopIsCurrent(s: State)
    requires Inv(s) && s.control != [] && Top(s).Scoped?
    ensures var f := Top(s);
            && Alive(s, f.adaptor)
            && var ad := s.adaptors[f.adaptor];
               && ad.stack != [] && ad.current.serial == f.serial && ad.current.required == f.required
               && ContextOk(s, f.adaptor, |ad.stack|) && Contexts(ad)[|ad.stack|] == ad.current
               && (f.saved <==> |ad.stack| > 1)
  {
    assert FrameOk(s, |s.control| - 1);
    var f := Top(s);
    assert ContextOk(s, f.adaptor, |s.adaptors[f.adaptor].stack|);
  }

  /** No other frame carries the call of the scope on top. */
  lemma TopIsAlone(s: State, j: nat)
    requires Inv(s) && s.control != [] && Top(s).Scoped? && j < |s.control| - 1
    ensures s.control[j].serial != Top(s).serial && Top(s).adaptor in s.adaptors
    ensures Scopes(s.control[j], Top(s).adaptor) ==>
        Depth(s.control[..j], Top(s).adaptor) + 1 < |s.adaptors[Top(s).adaptor].stack|
  {
    TopIsCurrent(s);
    var f, g := Top(s), s.control[j];
    var rest := s.control[..|s.control| - 1];
    assert FrameOk(s, j);
    assert rest + [f] == s.control && rest[..j] == s.control[..j];
    DepthBefore(rest, j, f.adaptor);
    DepthPush(rest, f, f.adaptor);
    if g.Scoped? {
      assert ContextOk(s, g.adaptor, Depth(s.control[..j], g.adaptor) + 1);
    }
  }

  lemma PoppedFrame(s: State, sent: seq<Answer>, j: nat)
    requires Inv(s) && s.control != [] && Top(s).Scoped? && j < |s.control| - 1
    requires Alive(s, Top(s).adaptor) && s.adaptors[Top(s).adaptor].stack != []
    ensures FrameOk(Popped(s, sent), j)
  {
    var t := Popped(s, sent);
    TopIsAlone(s, j);
    assert FrameOk(s, j);
    assert t.control[..j] == s.control[..j] && t.control[j] == s.control[j];
    hide Depth, Count, Due, HandleOk, MapOk, ContextOk, Stacked;
  }

  lemma PoppedContext(s: State, sent: seq<Answer>, a: nat, k: nat)
    requires Inv(s) && s.control != [] && Top(s).Scoped?
    requires Alive(s, Top(s).adaptor) && s.adaptors[Top(s).adaptor].stack != []
    requires a in Popped(s, sent).adaptors && 0 < k < |Contexts(Popped(s, sent).adaptors[a])|
    ensures ContextOk(Popped(s, sent), a, k)
  {
    TopIsCurrent(s);
    assert ContextOk(s, a, k);
    hide Depth, Count, Due, HandleOk, MapOk, Stacked;
  }

  lemma PoppedCounts(s: State, sent: seq<Answer>)
    requires Inv(s) && s.control != [] && Top(s).Scoped?
    requires Alive(s, Top(s).adaptor) && s.adaptors[Top(s).adaptor].stack != []
    requires forall x :: Count(sent, x) == if Top(s).serial == x && s.adaptors[Top(s).adaptor].current.reply.None?
        && Top(s).required then 1 else 0
    ensures var t := Popped(s, sent); forall x :: Count(t.sent, x) == Due(t, x)
  {
    TopIsCurrent(s);
    var t := Popped(s, sent);
    forall x ensures Count(t.sent, x) == Due(t, x) {
      assert Count(s.sent, x) == Due(s, x);
      Deferred(s, x);
      CountAppend(s.sent, sent, x);
    }
  }

  lemma PoppedKeeps(s: State, sent: seq<Answer>)
    requires Inv(s) && s.control != [] && Top(s).Scoped?
    requires Alive(s, Top(s).adaptor) && s.adaptors[Top(s).adaptor].stack != []
    requires forall x :: Count(sent, x) == if Top(s).serial == x && s.adaptors[Top(s).adaptor].current.reply.None?
        && Top(s).required then 1 else 0
    ensures Inv(Popped(s, sent))
  {
    var t := Popped(s, sent);
    TopIsCurrent(s);
    PoppedCounts(s, sent);
    assert t.control + [Top(s)] == s.control;
    forall b ensures Depth(s.control, b) == Depth(t.control, b) + if b == Top(s).adaptor then 1 else 0 {
      DepthPush(t.control, Top(s), b);
    }
    hide Depth, Count, Due;
    forall j | 0 <= j < |t.control| ensures FrameOk(t, j) {
      PoppedFrame(s, sent, j);
    }
    forall b, k | b in t.adaptors && 0 < k < |Contexts(t.adaptors[b])| ensures ContextOk(t, b, k) {
      PoppedContext(s, sent, b, k);
    }
    forall b, i | HasHandle(t, b, i) ensures HandleOk(t, b, i) {
      assert HandleOk(s, b, i);
    }
    forall x | x in t.handleOf ensures MapOk(t, x) {
      assert MapOk(s, x);
    }
  }

  lemma LeaveKeeps(s: State, result: Result)
    requires Inv(s) && Enabled(s, Leave(result))
    ensures Inv(Left(s, result))
  {
    TopIsCurrent(s);
    var f := Top(s);
    var ad := s.adaptors[f.adaptor];
    var held := ad.current.reply.Some?;
    var threw := result.Threw? || (result.Scalar? && held);
    EmptyCount();
    if !held {
      var sent := Reply(f.required, f.serial, threw || result.tail);
      forall x ensures Count(sent, x) == if f.serial == x && f.required then 1 else 0 {
        ReplyCount(f.required, f.serial, threw || result.tail, x);
      }
      PoppedKeeps(s, sent);
    } else if threw {
      SettledKeeps(s, f.adaptor, ad.current.reply.value, true);
      var t := Settled(s, f.adaptor, ad.current.reply.value, true);
      assert t.sent + [] == t.sent;
      PoppedKeeps(t, []);
    } else {
      assert s.sent + [] == s.sent;
      PoppedKeeps(s, []);
    }
  }

  lemma EmptyCount()
    ensures forall x :: Count([], x) == 0
  {
  }

  lemma FinishFrame(s: State, t: State, j: nat)
    requires Inv(s) && s.control != [] && Top(s).Direct? && j < |s.control| - 1
    requires t == s.(control := s.control[..|s.control| - 1], handled := s.handled + {Top(s).serial}, sent := t.sent)
    ensures FrameOk(t, j)
  {
    assert FrameOk(s, |s.control| - 1);
    assert FrameOk(s, j);
    assert t.control[..j] == s.control[..j] && t.control[j] == s.control[j];
    if s.control[j].Scoped? {
      assert ContextOk(s, s.control[j].adaptor, Depth(s.control[..j], s.control[j].adaptor) + 1);
    }
    hide Depth, Count, Due, HandleOk, MapOk;
  }

  lemma FinishKeeps(s: State, isError: bool)
    requires Inv(s) && Enabled(s, Finish(isError))
    ensures Inv(Next(s, Finish(isError)))
  {
    var t := Next(s, Finish(isError));
    var f := Top(s);
    assert FrameOk(s, |s.control| - 1);
    assert s.places[f.serial].InFrame?;
    forall x ensures Count(t.sent, x) == Due(t, x) {
      assert Count(s.sent, x) == Due(s, x);
      Deferred(s, x);
      CountAppend(s.sent, Reply(f.required, f.serial, isError), x);
      ReplyCount(f.required, f.serial, isError, x);
    }
    assert t.control + [f] == s.control;
    forall b ensures Depth(s.control, b) == Depth(t.control, b) {
      DepthPush(t.control, f, b);
    }
    hide Depth, Count, Due;
    forall j | 0 <= j < |t.control| ensures FrameOk(t, j) {
      FinishFrame(s, t, j);
    }
    forall b, k | b in t.adaptors && 0 < k < |Contexts(t.adaptors[b])| ensures ContextOk(t, b, k) {
      assert ContextOk(s, b, k);
    }
    forall b, i | HasHandle(t, b, i) ensures HandleOk(t, b, i) {
      assert HandleOk(s, b, i);
    }
    forall x | x in t.handleOf ensures MapOk(t, x) {
      assert MapOk(s, x);
    }
  }

  // -------------------------------------------------------------------------------- runs

  lemma StepKeeps(s: State, step: Step)
    requires Inv(s) && Enabled(s, step)
    ensures Inv(Next(s, step))
  {
    hide Inv, Entered, Held, Settled, AllSettled, Left;
    match step
    case Create(a, ttl) => CreateKeeps(s, a, ttl);
    case Early(serial, required, isError) => EarlyKeeps(s, serial, required, isError);
    case Decline(serial, required) => DeclineKeeps(s, serial, required);
    case Enter(a, serial, required, callable) => if callable { EnterKeeps(s, a, serial,
        required); } else { DirectKeeps(s, a, serial, required); }
    case HoldStep(a) => HoldKeeps(s, a);
    case SettleStep(a, i, isError) => SettledKeeps(s, a, i, isError);
    case ExpireStep(a, i) => SettledKeeps(s, a, i, true);
    case UnregisterStep(a) => AllSettledKeeps(s, a, false, true);
    case Destroy(a) => AllSettledKeeps(s, a, false, false);
    case Leave(result) => LeaveKeeps(s, result);
    case Finish(isError) => FinishKeeps(s, isError);
  }

  lemma {:induction false} RunKeeps(s: State, run: seq<Step>)
    requires Inv(s) && Possible(s, run)
    ensures Inv(After(s, run))
    decreases |run|
  {
    hide Inv, Next;
    if run != [] {
      StepKeeps(s, run[0]);
      RunKeeps(Next(s, run[0]), run[1..]);
    }
  }

  ghost predicate Reached(s0: State, run: seq<Step>, s: State) {
    Start(s0) && Possible(s0, run) && s == After(s0, run)
  }

  lemma ReachedInv(s0: State, run: seq<Step>, s: State)
    requires Reached(s0, run, s)
    ensures Inv(s)
  {
    EmptyCount();
    assert Inv(s0);
    hide Inv, Start;
    RunKeeps(s0, run);
  }

  predicate Pending(s: State, x: nat) {
    x in s.handleOf && HasHandle(s, s.handleOf[x].0, s.handleOf[x].1)
        && !s.adaptors[s.handleOf[x].0].handles[s.handleOf[x].1].settled
  }

  /** No call is ever answered twice, and one that wants no reply is never answered. */
  lemma AtMostOneReply(s0: State, run: seq<Step>, s: State, x: nat)
    requires Reached(s0, run, s)
    ensures Count(s.sent, x) <= 1
    ensures Count(s.sent, x) == 1 ==> x in s.calls && s.calls[x]
  {
    ReachedInv(s0, run, s);
  }

  /** A call that wants a reply and whose dispatch was reported as handled has been answered
      exactly once, unless exactly one open handle of a living adaptor stands for it. */
  lemma HandledMeansAnswered(s0: State, run: seq<Step>, s: State, x: nat)
    requires Reached(s0, run, s) && x in s.handled && x in s.calls && s.calls[x]
    ensures Count(s.sent, x) == if Pending(s, x) then 0 else 1
    ensures Pending(s, x) ==> s.adaptors[s.handleOf[x].0].alive
    ensures forall a: nat, i: nat :: HasHandle(s, a, i) && s.adaptors[a].handles[i].serial == x ==>
        x in s.handleOf && s.handleOf[x] == (a, i)
  {
    ReachedInv(s0, run, s);
    Deferred(s, x);
    forall a: nat, i: nat | HasHandle(s, a, i) && s.adaptors[a].handles[i].serial == x ensures x in s.handleOf
        && s.handleOf[x] == (a, i) {
      assert HandleOk(s, a, i);
    }
    if Pending(s, x) {
      assert HandleOk(s, s.handleOf[x].0, s.handleOf[x].1);
    }
  }

  /** A call the adaptors declined, or whose dispatch is still running without a handle, has no
      answer yet: whoever answers it is the first. */
  lemma OpenMeansUnanswered(s0: State, run: seq<Step>, s: State, x: nat)
    requires Reached(s0, run, s) && x !in s.handled && x !in s.handleOf
    ensures Count(s.sent, x) == 0
  {
    ReachedInv(s0, run, s);
  }

  lemma CountsAgree(s: State, x: nat)
    requires Inv(s)
    ensures Count(s.sent, x) == Due(s, x)
  {
  }

  /** Every way of settling an open handle answers its call, once. */
  lemma SettlingAnswers(s0: State, run: seq<Step>, s: State, x: nat, step: Step)
    requires Reached(s0, run, s) && Pending(s, x) && x in s.calls && s.calls[x] && Enabled(s, step)
    requires var (a, i) := s.handleOf[x];
             (step.SettleStep? && step.a == a && step.i == i) || step == ExpireStep(a, i)
                 || step == UnregisterStep(a) || step == Destroy(a)
             || (step == Leave(Threw) && Top(s).serial == x)
    ensures !Pending(Next(s, step), x) && Count(Next(s, step).sent, x) == Count(s.sent, x) + 1 == 1
  {
    hide Inv, Count, ContextOk;
    ReachedInv(s0, run, s);
    StepKeeps(s, step);
    Deferred(s, x);
    if step.Leave? {
      TopIsCurrent(s);
    }
    var t := Next(s, step);
    CountsAgree(s, x);
    CountsAgree(t, x);
    assert t.handleOf == s.handleOf && t.calls == s.calls;
  }

  /** An adaptor leaves nobody waiting: after it is gone, every call deferred to it is settled. */
  lemma DeadAdaptorOwesNothing(s0: State, run: seq<Step>, s: State, a: nat, i: nat)
    requires Reached(s0, run, s) && HasHandle(s, a, i) && !s.adaptors[a].alive
    ensures s.adaptors[a].handles[i].settled
  {
    ReachedInv(s0, run, s);
    assert HandleOk(s, a, i);
  }

  /** The innermost scope can always be left: its adaptor is alive, a saved context is there to go
      back to, and a held call has its handle. */
  lemma LeaveIsAlwaysPossible(s0: State, run: seq<Step>, s: State, result: Result)
    requires Reached(s0, run, s) && s.control != [] && Top(s).Scoped?
    ensures Enabled(s, Leave(result))
  {
    ReachedInv(s0, run, s);
    TopIsCurrent(s);
    Deferred(s, Top(s).serial);
  }

  // ---------------------------------------------------------------------- nested dispatch

  /** From here on the control stack never falls to `n` frames. */
  predicate Deeper(s: State, run: seq<Step>, n: nat)
    decreases |run|
  {
    |s.control| > n && (run == [] || (Enabled(s, run[0]) && Deeper(Next(s, run[0]), run[1..], n)))
  }

  /** Frame `n` is a scope of adaptor `a`, and `below` are the contexts under it. */
  predicate Nested(s: State, n: nat, a: nat, below: seq<Context>) {
    && n < |s.control| && Scopes(s.control[n], a) && a in s.adaptors
    && |below| == Depth(s.control[..n], a) + 1 <= |s.adaptors[a].stack|
    && Contexts(s.adaptors[a])[..|below|] == below
  }

  /** A step keeps the frames and the contexts under a scope that stays open. */
  lemma StepKeepsBelow(s: State, step: Step, n: nat, a: nat, below: seq<Context>)
    requires Inv(s) && Enabled(s, step) && Nested(s, n, a, below) && |Next(s, step).control| > n
    ensures Nested(Next(s, step), n, a, below) && Next(s, step).control[..n + 1] == s.control[..n + 1]
  {
    assert step.Leave? ==> |Next(s, step).control| == |s.control| - 1;
    hide Inv, Entered, Held, Settled, AllSettled, Left, Nested;
    match step {
      case Enter(b, serial, required, callable) => EnterKeepsBelow(s, b, serial, required, callable, n, a, below);
      case HoldStep(b) => HoldKeepsBelow(s, b, n, a, below);
      case Leave(result) => LeaveKeepsBelow(s, result, n, a, below);
      case Create(b, _) => SameBelow(s, Next(s, step), n, a, below);
      case SettleStep(b, i, isError) => SettledKeepsBelow(s, b, i, isError, n, a, below);
      case ExpireStep(b, i) => SettledKeepsBelow(s, b, i, true, n, a, below);
      case UnregisterStep(b) => AllSettledKeepsBelow(s, b, false, true, n, a, below);
      case Destroy(b) => AllSettledKeepsBelow(s, b, false, false, n, a, below);
      case _ => SameBelow(s, Next(s, step), n, a, below);
    }
  }

  lemma SameBelow(s: State, t: State, n: nat, a: nat, below: seq<Context>)
    requires Nested(s, n, a, below)
    requires t.control == s.control || (t.control == s.control[..|s.control| - 1] && |t.control| > n)
    requires forall b :: b in s.adaptors ==>
               && b in t.adaptors && t.adaptors[b].stack == s.adaptors[b].stack
               && t.adaptors[b].current == s.adaptors[b].current
    ensures Nested(t, n, a, below) && t.control[..n + 1] == s.control[..n + 1]
  {
    assert t.control[..n + 1] == s.control[..n + 1];
    assert t.control[..n] == s.control[..n] && t.control[n] == s.control[n];
    hide Depth;
  }

  lemma SettledKeepsBelow(s: State, b: nat, i: nat, isError: bool, n: nat, a: nat, below: seq<Context>)
    requires Nested(s, n, a, below) && HasHandle(s, b, i)
    ensures Nested(Settled(s, b, i, isError), n, a, below) && Settled(s, b, i, isError).control == s.control
  {
    hide Nested;
    SameBelow(s, Settled(s, b, i, isError), n, a, below);
  }

  lemma AllSettledKeepsBelow(s: State, b: nat, attached: bool, alive: bool, n: nat, a: nat, below: seq<Context>)
    requires Nested(s, n, a, below) && b in s.adaptors
    ensures Nested(AllSettled(s, b, attached, alive), n, a, below) && AllSettled(s, b, attached, alive).control == s.control
  {
    hide Nested;
    SameBelow(s, AllSettled(s, b, attached, alive), n, a, below);
  }

  lemma EnterKeepsBelow(s: State, b: nat, serial: nat, required: bool, callable: bool, n: nat, a: nat, below: seq<Context>)
    requires Nested(s, n, a, below) && Alive(s, b)
    ensures Nested(Entered(s, b, serial, required, callable), n, a, below)
    ensures Entered(s, b, serial, required, callable).control[..n + 1] == s.control[..n + 1]
  {
    var t := Entered(s, b, serial, required, callable);
    PopPush(s.adaptors[b], serial, required);
    assert t.control[..n + 1] == s.control[..n + 1];
    assert t.control[..n] == s.control[..n] && t.control[n] == s.control[n];
    hide Depth;
    assert Contexts(t.adaptors[a])[..|below|] == Contexts(s.adaptors[a])[..|below|];
  }

  lemma HoldKeepsBelow(s: State, b: nat, n: nat, a: nat, below: seq<Context>)
    requires Nested(s, n, a, below) && Alive(s, b)
    ensures Nested(Held(s, b), n, a, below) && Held(s, b).control == s.control
  {
    var t := Held(s, b);
    hide Depth;
    assert Contexts(t.adaptors[a])[..|below|] == Contexts(s.adaptors[a])[..|below|];
  }

  lemma LeaveKeepsBelow(s: State, result: Result, n: nat, a: nat, below: seq<Context>)
    requires Inv(s) && Enabled(s, Leave(result)) && Nested(s, n, a, below) && |s.control| > n + 1
    ensures Nested(Left(s, result), n, a, below) && Left(s, result).control[..n + 1] == s.control[..n + 1]
  {
    var t := Left(s, result);
    assert t.control[..n + 1] == s.control[..n + 1];
    assert t.control[..n] == s.control[..n] && t.control[n] == s.control[n];
    DepthBefore(t.control, n, a);
    assert t.control + [Top(s)] == s.control;
    DepthPush(t.control, Top(s), a);
    assert |s.adaptors[a].stack| == Depth(s.control, a);
    LeftContexts(s, result);
    hide Inv, Depth, Left, Contexts;
    if a == Top(s).adaptor {
      ContextsEnd(s.adaptors[a], below);
    }
  }

  /** Leaving drops the innermost context of one adaptor. */
  lemma LeftContexts(s: State, result: Result)
    requires Enabled(s, Leave(result))
    ensures var t := Left(s, result);
            && t.control == s.control[..|s.control| - 1]
            && (forall b :: b in s.adaptors && b != Top(s).adaptor ==>
                  && b in t.adaptors && Contexts(t.adaptors[b]) == Contexts(s.adaptors[b])
                  && t.adaptors[b].stack == s.adaptors[b].stack)
            && Top(s).adaptor in t.adaptors && Contexts(t.adaptors[Top(s).adaptor]) == s.adaptors[Top(s).adaptor].stack
            && |t.adaptors[Top(s).adaptor].stack| == |s.adaptors[Top(s).adaptor].stack| - 1
            && t.adaptors[Top(s).adaptor].inDispatch == Top(s).saved
  {
  }

  lemma ContextsEnd(ad: Adaptor, below: seq<Context>)
    requires |below| <= |ad.stack|
    ensures Contexts(ad)[..|below|] == ad.stack[..|below|]
  {
  }

  lemma {:induction false} RunKeepsBelow(s: State, run: seq<Step>, n: nat, a: nat, below: seq<Context>)
    requires Inv(s) && Nested(s, n, a, below) && Possible(s, run) && Deeper(s, run, n)
    ensures Inv(After(s, run)) && Nested(After(s, run), n, a, below) && After(s, run).control[..n + 1] == s.control[..n + 1]
    decreases |run|
  {
    hide Inv, Next, Nested;
    if run != [] {
      StepKeeps(s, run[0]);
      StepKeepsBelow(s, run[0], n, a, below);
      RunKeepsBelow(Next(s, run[0]), run[1..], n, a, below);
    }
  }

  lemma EnterNests(s: State, a: nat, serial: nat, required: bool)
    requires Inv(s) && Alive(s, a)
    ensures var t := Entered(s, a, serial, required, true);
            && t.control == s.control + [Scoped(a, serial, required, s.adaptors[a].inDispatch)]
            && Nested(t, |s.control|, a, Contexts(s.adaptors[a]))
  {
    hide Count, Due, Depth, HandleOk, MapOk, FrameOk, ContextOk;
    var t := Entered(s, a, serial, required, true);
    assert t.control[..|s.control|] == s.control;
  }

  /** Once the scope is the innermost one again, what it saved is all there is beneath it. */
  lemma InnermostAgain(v: State, n: nat, a: nat, below: seq<Context>)
    requires Inv(v) && Nested(v, n, a, below) && |v.control| == n + 1
    ensures v.adaptors[a].stack == below
  {
    hide Count, Due, Depth, HandleOk, MapOk, FrameOk, ContextOk;
    assert v.control == v.control[..n] + [v.control[n]];
    DepthPush(v.control[..n], v.control[n], a);
  }

  /** Whatever a handler does, nested dispatches on the same adaptor included, when its scope
      closes the outer call is current again, with its own handle or none, and everything under it is
      as it was. */
  lemma ContextRestored(s0: State, run0: seq<Step>, s: State, a: nat, serial: nat, required: bool, run: seq<Step>,
      result: Result)
    requires Reached(s0, run0, s) && Enabled(s, Enter(a, serial, required, true))
    requires var t := Entered(s, a, serial, required, true);
             && Possible(t, run) && Deeper(t, run, |s.control|)
             && Enabled(After(t, run), Leave(result)) && |After(t, run).control| == |s.control| + 1
    ensures var u := Left(After(Entered(s, a, serial, required, true), run), result);
            && u.control == s.control && a in u.adaptors && serial in u.handled
            && u.adaptors[a].current == s.adaptors[a].current && u.adaptors[a].stack == s.adaptors[a].stack
            && u.adaptors[a].inDispatch == s.adaptors[a].inDispatch
  {
    hide Inv, Entered, Nested, Depth;
    var n := |s.control|;
    var t := Entered(s, a, serial, required, true);
    ReachedInv(s0, run0, s);
    EnterKeeps(s, a, serial, required);
    EnterNests(s, a, serial, required);
    var below := Contexts(s.adaptors[a]);
    RunKeepsBelow(t, run, n, a, below);
    var v := After(t, run);
    assert v.control == t.control by {
      assert v.control[..n + 1] == v.control && t.control[..n + 1] == t.control;
    }
    TopIsCurrent(v);
    InnermostAgain(v, n, a, below);
    assert Left(v, result).control == s.control;
    LeaveUncovers(v, result, s.adaptors[a]);
  }

  lemma LeaveUncovers(v: State, result: Result, was: Adaptor)
    requires Enabled(v, Leave(result)) && v.adaptors[Top(v).adaptor].stack == Contexts(was)
    ensures var ad := Left(v, result).adaptors[Top(v).adaptor];
            ad.current == was.current && ad.stack == was.stack && ad.inDispatch == Top(v).saved
  {
    LeftContexts(v, result);
    hide Left, Pop;
    SameContexts(Left(v, result).adaptors[Top(v).adaptor], was);
  }

  lemma SameContexts(a: Adaptor, b: Adaptor)
    requires Contexts(a) == Contexts(b)
    ensures a.current == b.current && a.stack == b.stack
  {
    assert Contexts(a)[|a.stack|] == a.current && Contexts(b)[|b.stack|] == b.current;
    assert Contexts(a)[..|a.stack|] == a.stack && Contexts(b)[..|b.stack|] == b.stack;
  }
}
