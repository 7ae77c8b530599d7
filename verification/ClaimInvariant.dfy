/** What every step of the claim protocol keeps. */
module ClaimInvariant {
  import opened Options
  import opened Sequences
  import opened Claims
  import opened ClaimProtocol

  // ------------------------------------------------------------- the daemon's queue

  lemma {:induction false} WithoutHolds(d: seq<Seat>, who: string, other: string)
    ensures !Holds(Without(d, who), who)
    ensures other != who ==> (Holds(Without(d, who), other) <==> Holds(d, other))
  {
    if d != [] {
      WithoutHolds(d[1..], who, other);
      assert ([d[0]] + Without(d[1..], who))[1..] == Without(d[1..], who);
    }
  }

  lemma {:induction false} EnqueueHolds(d: seq<Seat>, seat: Seat, other: string)
    requires other != seat.conn
    ensures Enqueue(d, seat) != []
    ensures Holds(Enqueue(d, seat), other) <==> Holds(d, other)
  {
    if d != [] {
      EnqueueHolds(d[1..], seat, other);
      assert ([d[0]] + Enqueue(d[1..], seat))[1..] == Enqueue(d[1..], seat);
      assert ([seat] + d[1..])[1..] == d[1..];
    }
  }

  /** We hold nothing beyond, perhaps, a head seat nobody can take from us. */
  predicate Settled(d: seq<Seat>, who: string) {
    d != [] ==> !Holds(d[1..], who) && (d[0].conn == who ==> !d[0].allows)
  }

  lemma OtherRequestKeeps(d: seq<Seat>, seat: Seat, replace: bool, who: string)
    requires seat.conn != who && who != ""
    ensures var d' := RequestName(d, seat, replace).0;
            && (Settled(d, who) ==>
                  && Settled(d', who) && (Owner(d') == who <==> Owner(d) == who)
                  && (d != [] && Owner(d) == who ==> d' != [] && d'[0] == d[0]))
            && (!Holds(d, who) ==> !Holds(d', who))
  {
    if d != [] {
      var rest := Without(d[1..], seat.conn);
      WithoutHolds(d[1..], seat.conn, who);
      EnqueueHolds(d[1..], seat, who);
      assert ([seat] + d[1..])[1..] == d[1..];
      assert ([d[0]] + rest)[1..] == rest;
      assert ([seat] + [] + rest)[1..] == rest;
      assert ([seat] + [d[0]] + rest)[1..] == [d[0]] + rest;
      assert ([d[0]] + rest)[1..] == rest;
      assert ([d[0]] + Enqueue(d[1..], seat))[1..] == Enqueue(d[1..], seat);
    }
  }

  lemma OtherLeaveKeeps(d: seq<Seat>, conn: string, who: string)
    requires conn != who && who != ""
    ensures var d' := Without(d, conn);
            && (Settled(d, who) ==>
                  && Settled(d', who) && (Owner(d') == who <==> Owner(d) == who)
                  && (d != [] && Owner(d) == who ==> d' != [] && d'[0] == d[0]))
            && (!Holds(d, who) ==> !Holds(d', who))
  {
    WithoutHolds(d, conn, who);
    if d != [] {
      WithoutHolds(d[1..], conn, who);
      assert ([d[0]] + Without(d[1..], conn))[1..] == Without(d[1..], conn);
      var d' := Without(d, conn);
      if !Holds(d[1..], who) && d[0].conn == conn {
        NotOwnerUnlessHolds(d', who);
      }
    }
  }

  lemma NotOwnerUnlessHolds(d: seq<Seat>, who: string)
    ensures who != "" && !Holds(d, who) ==> Owner(d) != who && Settled(d, who) && (d != [] ==> !Holds(d[1..], who))
  {
  }

  /** The blocking registration: on success the head seat is ours for good, on failure
      we hold nothing. */
  lemma RegisterOutcome(d: seq<Seat>, who: string)
    requires who != "" && Settled(d, who)
    ensures var (d', code) := RequestName(d, Seat(who, false, true), false);
            && Settled(d', who)
            && (code == 1 || code == 4 ==> d' != [] && d'[0] == Seat(who, false, true))
            && (code != 1 && code != 4 ==> !Holds(d', who))
  {
    if d != [] {
      var seat := Seat(who, false, true);
      WithoutHolds(d[1..], who, who);
      assert ([seat] + d[1..])[1..] == d[1..];
      assert ([d[0]] + Without(d[1..], who))[1..] == Without(d[1..], who);
    }
  }

  /** What a code says about the owner. */
  lemma CodeTellsOwner(d: seq<Seat>, seat: Seat, replace: bool)
    requires seat.conn != ""
    ensures var (d', code) := RequestName(d, seat, replace);
            && (code == 1 || code == 4 <==> Owner(d') == seat.conn)
            && (code == 4 <==> Owner(d) == seat.conn)
  {
  }

  // -------------------------------------------------------------------- the streams

  /** Whether the last ownership event in the stream says the name is ours. */
  function Verdict(inb: seq<Incoming>, me: string): Option<bool> {
    if inb == [] then None
    else
      var later := Verdict(inb[1..], me);
      if later.Some? then later
      else match inb[0]
           case Reply(_, _) => None
           case OwnerChanged(newOwner) => Some(newOwner == me)
           case Disconnected => Some(false)
  }

  predicate Grant(m: Incoming) {
    m.Reply? && (m.code == 1 || m.code == 4)
  }

  /** Every granting reply is still true, or an event behind it corrects it. */
  predicate Truthful(inb: seq<Incoming>, me: string, owns: bool) {
    inb == [] || (Truthful(inb[1..], me, owns) && (Grant(inb[0]) && Verdict(inb[1..], me) == None ==> owns))
  }

  lemma {:induction false} VerdictAppend(a: seq<Incoming>, b: seq<Incoming>, me: string)
    ensures Verdict(a + b, me) == if Verdict(b, me).Some? then Verdict(b, me) else Verdict(a, me)
  {
    if a == [] {
      assert a + b == b;
    } else {
      assert (a + b)[1..] == a[1..] + b;
      VerdictAppend(a[1..], b, me);
    }
  }

  /** The stream tells nothing about the name that is not so. */
  predicate Agrees(inb: seq<Incoming>, me: string, owns: bool) {
    Truthful(inb, me, owns) && (Verdict(inb, me).Some? ==> Verdict(inb, me).value == owns)
  }

  lemma {:induction false} TruthfulAppend(a: seq<Incoming>, e: Incoming, me: string, was: bool, now: bool)
    requires Truthful(a, me, was)
    requires Verdict([e], me).Some? || ((was ==> now) && (Grant(e) ==> now))
    ensures Truthful(a + [e], me, now)
  {
    assert [e][1..] == [];
    if a == [] {
      assert a + [e] == [e];
      assert Verdict([], me) == None && Truthful([], me, now);
      OneVerdict(e, me);
    } else {
      assert (a + [e])[1..] == a[1..] + [e];
      TruthfulAppend(a[1..], e, me, was, now);
      VerdictAppend(a[1..], [e], me);
    }
  }

  /** One more message. */
  lemma Arrives(a: seq<Incoming>, e: Incoming, me: string, was: bool, now: bool)
    requires Agrees(a, me, was)
    requires if e.Reply? then was == now && (Grant(e) ==> now) else now == (e.OwnerChanged? && e.newOwner == me)
    ensures Agrees(a + [e], me, now)
    ensures Verdict(a + [e], me) == if e.Reply? then Verdict(a, me) else Some(now)
  {
    assert [e][1..] == [];
    TruthfulAppend(a, e, me, was, now);
    VerdictAppend(a, [e], me);
  }

  /** The signal, if any, about the daemon's move. */
  lemma SignalArrives(s: State, d: seq<Seat>)
    requires Agrees(s.inb, s.me, Owns(s))
    requires (s.armed && !s.dead) || s.inb == [] || (Owns(s) <==> Owner(d) == s.me)
    ensures Agrees(s.inb + Signal(s, d), s.me, Owner(d) == s.me)
    ensures Verdict(s.inb + Signal(s, d), s.me) == if Signal(s, d) == [] then Verdict(s.inb,
        s.me) else Some(Owner(d) == s.me)
  {
    hide Agrees, Verdict;
    if Signal(s, d) != [] {
      Arrives(s.inb, OwnerChanged(Owner(d)), s.me, Owns(s), Owner(d) == s.me);
    } else {
      assert s.inb + Signal(s, d) == s.inb;
      EmptyAgrees(s.me, Owner(d) == s.me);
    }
  }

  /** The daemon's answer to an asynchronous request and the signal it may cause, in either order. */
  lemma AnswerArrives(s: State, d: seq<Seat>, reply: Incoming, replyFirst: bool)
    requires s.armed && !s.dead && reply.Reply? && (Grant(reply) ==> Owner(d) == s.me)
    requires Agrees(s.inb, s.me, Owns(s))
    ensures var inb := s.inb + (if replyFirst then [reply] + Signal(s, d) else Signal(s, d) + [reply]);
            && Agrees(inb, s.me, Owner(d) == s.me) && reply in inb && (forall m :: m in s.inb ==> m in inb)
            && Verdict(inb, s.me) == if Signal(s, d) == [] then Verdict(s.inb, s.me) else Some(Owner(d) == s.me)
  {
    var owns := Owner(d) == s.me;
    var signal := Signal(s, d);
    if signal == [] {
      assert [reply] + signal == [reply] == signal + [reply];
      Arrives(s.inb, reply, s.me, owns, owns);
    } else if replyFirst {
      var e := OwnerChanged(Owner(d));
      assert s.inb + ([reply] + signal) == (s.inb + [reply]) + [e];
      OneVerdict(reply, s.me);
      OneVerdict(e, s.me);
      TruthfulAppend(s.inb, reply, s.me, Owns(s), true);
      TruthfulAppend(s.inb + [reply], e, s.me, true, owns);
      VerdictAppend(s.inb + [reply], [e], s.me);
    } else {
      assert s.inb + (signal + [reply]) == (s.inb + signal) + [reply];
      SignalArrives(s, d);
      Arrives(s.inb + signal, reply, s.me, owns, owns);
    }
  }

  lemma OneVerdict(e: Incoming, me: string)
    ensures Verdict([e], me) == if e.Reply? then None else Some(e.OwnerChanged? && e.newOwner == me)
  {
    assert [e][1..] == [];
  }

  lemma EmptyAgrees(me: string, owns: bool)
    ensures Agrees([], me, owns) && Verdict([], me) == None
  {
  }

  predicate NoRequest(out: seq<Outgoing>) {
    forall m :: m in out ==> m == AddMatch
  }

  /** Nothing but match rules and asynchronous requests. */
  predicate Plain(out: seq<Outgoing>) {
    forall m :: m in out ==> m.AddMatch? || m.Request?
  }

  /** The message `call` is on its way with no request behind it. */
  predicate Awaits(out: seq<Outgoing>, call: Outgoing) {
    out != [] && if out[0] == call then NoRequest(out[1..]) else (out[0].AddMatch? || out[0].Request?) && Awaits(out[1..], call)
  }

  /** Every asynchronous request reaches a daemon that has our match rule. */
  predicate Watched(out: seq<Outgoing>, armed: bool) {
    out == [] || ((out[0].Request? ==> armed) && Watched(out[1..], armed || out[0] == AddMatch))
  }

  lemma {:induction false} AwaitsAppend(out: seq<Outgoing>, call: Outgoing, m: Outgoing)
    requires call == BlockingRequest || call == Release
    ensures Plain(out) && m == call ==> Awaits(out + [m], call)
    ensures Awaits(out, call) && m == AddMatch ==> Awaits(out + [m], call)
  {
    assert out != [] ==> (out + [m])[1..] == out[1..] + [m];
    if out != [] {
      AwaitsAppend(out[1..], call, m);
    }
  }

  lemma {:induction false} WatchedAppend(out: seq<Outgoing>, armed: bool, m: Outgoing)
    requires Watched(out, armed) && (m.Request? ==> armed || AddMatch in out)
    ensures Watched(out + [m], armed)
  {
    if out != [] {
      assert (out + [m])[1..] == out[1..] + [m];
      WatchedAppend(out[1..], armed || out[0] == AddMatch, m);
    }
  }

  lemma {:induction false} WatchedOnceArmed(out: seq<Outgoing>)
    ensures Watched(out, true)
  {
    if out != [] {
      WatchedOnceArmed(out[1..]);
    }
  }

  predicate NoAsync(out: seq<Outgoing>) {
    forall m :: m in out ==> !m.Request?
  }

  // ------------------------------------------------------------------ the invariant

  predicate Shape(s: State) {
    && s.me != ""
    && (s.claim.Some? ==>
          var c := s.claim.value;
          && c.refs == |c.holders| && Distinct(c.holders) && (c.tearingDown <==> c.refs == 0)
          && c.baseService == s.me && (c.pending <==> s.phase.Registering?))
    && (s.phase.Registering? ==> Live(s) && s.claim.value.holders == [s.phase.holder])
    && (s.phase.Releasing? ==> s.claim.Some? && s.claim.value.tearingDown && s.claim.value.requestToken == s.phase.token)
  }

  /** The streams agree with the daemon. */
  predicate Stream(s: State) {
    && Agrees(s.inb, s.me, Owns(s))
    && Watched(s.out, s.armed)
    && (!s.dead && s.subscribed ==> s.armed || AddMatch in s.out)
    && (!s.armed ==> Settled(s.daemon, s.me))
    && (!s.armed && !s.dead ==> s.inb == [])
    && (s.dead ==> s.out == [] && !Holds(s.daemon, s.me))
    && (Disconnected in s.inb ==> s.dead)
  }

  /** A blocking call is on its way exactly while somebody waits for it. */
  predicate Calls(s: State) {
    match s.phase
    case Idle => Plain(s.out)
    case Registering(_, answer) => if answer.Some? then Plain(s.out) else s.dead || Awaits(s.out, BlockingRequest)
    case Releasing(_, done) => if done then Plain(s.out) else s.dead || Awaits(s.out, Release)
  }

  /** What the record says the daemon may hold for us. */
  predicate Tenure(s: State) {
    && (s.claim.None? ==> !Holds(s.daemon, s.me) && NoAsync(s.out))
    && (s.claim.Some? && !s.claim.value.requestSent ==> Settled(s.daemon, s.me) && NoAsync(s.out))
    && (s.claim.Some? && s.claim.value.requestSent ==> !s.phase.Registering? && (s.phase == Idle ==> Live(s)))
    && (s.claim.Some? && s.claim.value.flagged && !s.dead ==> s.claim.value.requestSent)
    && (s.phase.Releasing? && s.phase.done ==> !Holds(s.daemon, s.me) && NoAsync(s.out))
    && (s.phase.Registering? && s.phase.answer == Some(true) ==> Owns(s) || Disconnected in s.inb)
    && (s.phase.Registering? && s.phase.answer == Some(false) ==> !Holds(s.daemon, s.me))
  }

  /** The answer that will tell the record it owns the name is on its way. */
  predicate GrantComing(out: seq<Outgoing>, inb: seq<Incoming>, token: nat) {
    || (exists m :: m in out && m.Request? && m.token == token)
    || (exists m :: m in inb && Grant(m) && m.token == token)
  }

  /** With no ownership event under way the record knows who owns the name. */
  predicate Knows(s: State) {
    Live(s) && Verdict(s.inb, s.me) == None ==>
      var c := s.claim.value;
      if c.pending then c.owned ==> Owns(s)
      else c.owned == Owns(s) || (Owns(s) && !c.lostSinceSend && GrantComing(s.out, s.inb, c.requestToken))
  }

  predicate Inv(s: State) {
    Shape(s) && Stream(s) && Calls(s) && Tenure(s) && Knows(s)
  }

  lemma StartInv(s: State)
    requires Start(s)
    ensures Inv(s)
  {
    NotOwnerUnlessHolds(s.daemon, s.me);
  }

  // ---------------------------------------------------------------- the other clients

  /** The daemon moves without changing what it owes us. */
  lemma MoveKeeps(s: State, d: seq<Seat>)
    requires Inv(s)
    requires Settled(s.daemon, s.me) ==> Settled(d, s.me) && (Owner(d) == s.me <==> Owns(s))
    requires !Holds(s.daemon, s.me) ==> !Holds(d, s.me)
    ensures Inv(Move(s, d))
  {
    NotOwnerUnlessHolds(s.daemon, s.me);
    NotOwnerUnlessHolds(d, s.me);
    EmptyAgrees(s.me, false);
    SignalArrives(s, d);
    if Signal(s, d) == [] {
      assert s.inb + Signal(s, d) == s.inb;
      SilentMoveKeeps(s, d);
    } else {
      SignalledMoveKeeps(s, d);
    }
  }

  lemma SilentMoveKeeps(s: State, d: seq<Seat>)
    requires Inv(s) && (Owner(d) == s.me <==> Owns(s))
    requires Settled(s.daemon, s.me) ==> Settled(d, s.me)
    requires !Holds(s.daemon, s.me) ==> !Holds(d, s.me)
    ensures Inv(s.(daemon := d))
  {
    hide Holds, Agrees, Verdict, Settled, Watched, Awaits, GrantComing;
    assert Owns(s.(daemon := d)) == Owns(s);
  }

  lemma SignalledMoveKeeps(s: State, d: seq<Seat>)
    requires Inv(s) && s.armed && !s.dead
    requires Settled(s.daemon, s.me) ==> Settled(d, s.me) && (Owner(d) == s.me <==> Owns(s))
    requires !Holds(s.daemon, s.me) ==> !Holds(d, s.me)
    requires Signal(s, d) != [] && Agrees(s.inb + Signal(s, d), s.me, Owner(d) == s.me)
    requires Verdict(s.inb + Signal(s, d), s.me).Some?
    ensures Inv(Move(s, d))
  {
    assert Signal(s, d) == [OwnerChanged(Owner(d))];
    hide Holds, Agrees, Verdict, Settled, Watched, Awaits, GrantComing, Signal;
    var t := Move(s, d);
    assert forall m :: m in s.inb ==> m in t.inb;
    assert forall m :: m in t.inb ==> m in s.inb || m == OwnerChanged(Owner(d));
    assert Knows(t);
  }

  lemma OthersKeep(s: State, step: Step)
    requires Inv(s) && (step.OtherRequests? || step.OtherLeaves?) && Enabled(s, step)
    ensures Inv(Next(s, step))
  {
    match step
    case OtherRequests(seat, replace) =>
      OtherRequestKeeps(s.daemon, seat, replace, s.me);
      MoveKeeps(s, RequestName(s.daemon, seat, replace).0);
    case OtherLeaves(conn) =>
      OtherLeaveKeeps(s.daemon, conn, s.me);
      MoveKeeps(s, Without(s.daemon, conn));
  }

  // --------------------------------------------------------------------- our messages

  lemma ServeMatchKeeps(s: State)
    requires Inv(s) && s.out != [] && s.out[0] == AddMatch
    ensures Inv(Served(s, false)) && Served(s, true) == Served(s, false)
  {
    hide Holds, Truthful, Verdict;
    WatchedOnceArmed(s.out[1..]);
  }

  /** Our own blocking call reaches the daemon, which moves to `d`. */
  lemma CallServed(s: State, d: seq<Seat>)
    requires Inv(s) && s.out != [] && (s.out[0] == Release || s.out[0] == BlockingRequest) && Settled(d, s.me)
    ensures var inb := s.inb + Signal(s, d);
            && !s.dead && NoRequest(s.out[1..]) && Watched(s.out[1..], s.armed) && Agrees(inb, s.me, Owner(d) == s.me)
            && (s.subscribed ==> s.armed || AddMatch in s.out[1..])
            && (!s.armed ==> inb == []) && Disconnected !in inb
            && (Verdict(inb, s.me) == None ==> Verdict(s.inb, s.me) == None)
    ensures s.out[0] == BlockingRequest ==> s.phase.Registering? && s.phase.answer == None && s.claim.value.pending
    ensures s.out[0] == Release ==> s.phase.Releasing? && !s.phase.done
  {
    assert s.out[0] in s.out;
    assert forall m :: m in s.out ==> m == s.out[0] || m in s.out[1..];
    SignalArrives(s, d);
    hide Holds, Agrees, Verdict, Settled, Knows;
  }

  lemma ServeReleaseKeeps(s: State)
    requires Inv(s) && s.out != [] && s.out[0] == Release
    ensures Inv(Served(s, false)) && Served(s, true) == Served(s, false)
  {
    var d := Without(s.daemon, s.me);
    WithoutHolds(s.daemon, s.me, s.me);
    NotOwnerUnlessHolds(d, s.me);
    CallServed(s, d);
    hide Holds, Agrees, Verdict, Settled, Watched, Awaits, Without, Signal;
    var t := Served(s, false);
    assert Stream(t);
  }

  lemma ServeRegisterKeeps(s: State)
    requires Inv(s) && s.out != [] && s.out[0] == BlockingRequest
    ensures Inv(Served(s, false)) && Served(s, true) == Served(s, false)
  {
    assert s.out[0] in s.out;
    assert s.phase.Registering? && s.phase.answer == None;
    var (d, code) := RequestName(s.daemon, Seat(s.me, false, true), false);
    RegisterOutcome(s.daemon, s.me);
    CodeTellsOwner(s.daemon, Seat(s.me, false, true), false);
    CallServed(s, d);
    hide Holds, Agrees, Verdict, RequestName, Settled, Watched, Awaits, Signal;
    var t := Served(s, false);
    assert Stream(t);
    assert Knows(t);
  }

  /** The daemon's turn on an asynchronous request. */
  lemma RequestServed(s: State, replyFirst: bool)
    requires Inv(s) && s.out != [] && s.out[0].Request?
    ensures var t := Served(s, replyFirst);
            var Request(token, allow, replace, noQueue) := s.out[0];
            var (d, code) := RequestName(s.daemon, Seat(s.me, allow, noQueue), replace);
            var reply := Reply(token, code);
            && s.armed && !s.dead && t == s.(out := s.out[1..], daemon := d, inb := t.inb)
            && Agrees(t.inb, s.me, Owns(t)) && (Grant(reply) <==> Owns(t))
            && (forall m :: m in s.inb || m == reply ==> m in t.inb)
            && (forall m :: m in t.inb ==> m in s.inb || m == reply || m.OwnerChanged?)
            && (Verdict(t.inb, s.me) == None ==> Verdict(s.inb, s.me) == None && Owns(t) == Owns(s))
  {
    hide Holds, Agrees, Verdict, RequestName, Settled, Calls, Tenure, Knows;
    var Request(token, allow, replace, noQueue) := s.out[0];
    var seat := Seat(s.me, allow, noQueue);
    var (d, code) := RequestName(s.daemon, seat, replace);
    CodeTellsOwner(s.daemon, seat, replace);
    AnswerArrives(s, d, Reply(token, code), replyFirst);
  }

  lemma RequestFrame(s: State, replyFirst: bool)
    requires Inv(s) && s.out != [] && s.out[0].Request?
    ensures var t := Served(s, replyFirst); Shape(t) && Stream(t) && Calls(t) && Tenure(t)
  {
    hide Holds, Agrees, Verdict, RequestName, Settled, Signal, Knows, Served;
    assert s.out[0] in s.out;
    RequestServed(s, replyFirst);
    assert s.claim.Some? && s.claim.value.requestSent;
  }

  lemma ServeRequestKeeps(s: State, replyFirst: bool)
    requires Inv(s) && s.out != [] && s.out[0].Request?
    ensures Inv(Served(s, replyFirst))
  {
    hide Holds, Agrees, Verdict, RequestName, Settled, Signal, Served, Shape, Stream, Calls, Tenure;
    RequestServed(s, replyFirst);
    RequestFrame(s, replyFirst);
    assert forall m :: m in s.out ==> m == s.out[0] || m in s.out[1..];
  }

  // ----------------------------------------------------------------- what arrives

  /** Taking the first message off the stream. */
  lemma Arrived(inb: seq<Incoming>, me: string, owns: bool)
    requires inb != [] && Agrees(inb, me, owns)
    ensures Agrees(inb[1..], me, owns)
    ensures inb[0].Reply? ==> Verdict(inb[1..], me) == Verdict(inb, me)
    ensures Verdict(inb[1..], me) == None ==>
              match inb[0]
              case Reply(_, _) => Grant(inb[0]) ==> owns
              case OwnerChanged(newOwner) => owns <==> newOwner == me
              case Disconnected => !owns
  {
  }

  /** What an event may do to a record. */
  predicate Touched(c: Claim, c': Claim) {
    && c'.refs == c.refs && c'.holders == c.holders && c'.tearingDown == c.tearingDown && c'.pending == c.pending
    && c'.baseService == c.baseService && c'.requestToken == c.requestToken && c'.flagged == c.flagged
    && c'.lastNotifiedOwned == c.lastNotifiedOwned
  }

  lemma ReplyEffect(c: Claim, code: nat, token: nat)
    ensures var c' := OnReply(c, code, token).0;
            && Touched(c, c') && c'.requestSent == c.requestSent && (c'.lostSinceSend ==> c.lostSinceSend)
            && (c.owned ==> c'.owned) && (c'.owned && !c.owned ==> Grant(Reply(token, code)))
            && (token == c.requestToken && Grant(Reply(token, code)) && !c.tearingDown && c.refs > 0 && !c.lostSinceSend ==> c'.owned)
            && (c'.lostSinceSend != c.lostSinceSend ==> c'.owned == c.owned)
  {
  }

  lemma SignalEffect(c: Claim, newOwner: string)
    ensures var c' := OnOwnerChange(c, newOwner).0;
            Touched(c, c') && c'.requestSent == c.requestSent && c'.owned == (newOwner == c.baseService)
  {
  }

  /** Whatever a reply or a signal does to the record, all but its knowledge is kept. */
  lemma DeliverFrame(s: State)
    requires Inv(s) && s.inb != [] && s.inb[0] != Disconnected
    requires s.claim.Some? ==>
               && Touched(s.claim.value, Delivered(s).claim.value)
               && Delivered(s).claim.value.requestSent == s.claim.value.requestSent
    ensures var t := Delivered(s); Shape(t) && Stream(t) && Calls(t) && Tenure(t) && Owns(t) == Owns(s)
    ensures Live(Delivered(s)) == Live(s)
  {
    var t := Delivered(s);
    Arrived(s.inb, s.me, Owns(s));
    assert Owns(t) == Owns(s);
    hide Holds, Agrees, Verdict, Settled, Watched, Awaits, Owns, OnReply, OnOwnerChange, Knows;
    assert forall m :: m in s.inb ==> m == s.inb[0] || m in s.inb[1..];
    assert forall m :: m in t.inb ==> m in s.inb;
    assert t.claim.Some? == s.claim.Some?;
  }

  lemma DeliverReplyKeeps(s: State)
    requires Inv(s) && s.inb != [] && s.inb[0].Reply?
    ensures Inv(Delivered(s))
  {
    var t := Delivered(s);
    Arrived(s.inb, s.me, Owns(s));
    if s.claim.Some? {
      ReplyEffect(s.claim.value, s.inb[0].code, s.inb[0].token);
    }
    DeliverFrame(s);
    hide Stream, Calls, Tenure, Agrees, Verdict, Owns, OnReply;
    assert forall m :: m in s.inb ==> m == s.inb[0] || m in s.inb[1..];
    assert s.claim.Some? ==> forall k :: GrantComing(s.out, s.inb, k) && !GrantComing(t.out, t.inb, k) ==>
        k == s.inb[0].token && Grant(s.inb[0]);
  }

  lemma DeliverSignalKeeps(s: State)
    requires Inv(s) && s.inb != [] && s.inb[0].OwnerChanged?
    ensures Inv(Delivered(s))
  {
    var t := Delivered(s);
    Arrived(s.inb, s.me, Owns(s));
    if s.claim.Some? {
      SignalEffect(s.claim.value, s.inb[0].newOwner);
    }
    DeliverFrame(s);
    hide Stream, Calls, Tenure, Agrees, Verdict, Owns, OnOwnerChange, GrantComing;
  }

  lemma DeliverLossKeeps(s: State)
    requires Inv(s) && Enabled(s, Deliver) && s.inb[0].Disconnected?
    ensures Inv(Delivered(s))
  {
    var t := Delivered(s);
    Arrived(s.inb, s.me, Owns(s));
    NotOwnerUnlessHolds(s.daemon, s.me);
    hide Holds, Agrees, Verdict, Watched, Awaits, Owns;
    assert Owns(t) == Owns(s);
    assert s.dead;
  }

  lemma {:induction false} LossIsAnEvent(inb: seq<Incoming>, me: string)
    requires Disconnected in inb
    ensures Verdict(inb, me).Some?
  {
    if inb[0] != Disconnected {
      LossIsAnEvent(inb[1..], me);
    }
  }

  // -------------------------------------------------------------------- our own steps

  lemma SendKeeps(s: State, m: Outgoing)
    requires Watched(s.out, s.armed) && (m.Request? && !s.dead ==> s.armed || AddMatch in s.out)
    ensures Watched(Send(s, [m]).out, s.armed)
    ensures !s.dead && Plain(s.out) && (m == BlockingRequest || m == Release) ==> Awaits(Send(s, [m]).out, m)
    ensures !s.dead && m == AddMatch ==>
              (Awaits(s.out, BlockingRequest) ==> Awaits(Send(s, [m]).out, BlockingRequest))
                  && (Awaits(s.out, Release) ==> Awaits(Send(s, [m]).out, Release))
    ensures forall x :: x in Send(s, [m]).out <==> x in s.out || (x == m && !s.dead)
  {
    if !s.dead {
      WatchedAppend(s.out, s.armed, m);
    }
    AwaitsAppend(s.out, BlockingRequest, m);
    AwaitsAppend(s.out, Release, m);
  }

  lemma SubscribeKeeps(s: State)
    requires Inv(s)
    ensures Inv(Subscribe(s))
  {
    SendKeeps(s, AddMatch);
    hide Holds, Agrees, Verdict, Settled, Watched, Awaits;
  }

  lemma JoinKeeps(s: State, h: nat, how: How)
    requires Inv(s) && Enabled(s, AttachStep(h, how)) && s.claim.Some? && s.claim.value.refs > 0
    ensures Inv(Attached(s, h, how))
  {
    hide Holds, Agrees, Verdict, Settled, Watched, Awaits, GrantComing;
    var t := Attached(s, h, how);
    assert Owns(t) == Owns(s);
  }

  /** A start: there is no record, or a tombstone that had nothing to release. */
  lemma StartClaim(s: State, h: nat, flagged: bool)
    requires Shape(s) && Tenure(s) && s.phase == Idle && (s.claim.Some? ==> s.claim.value.refs == 0)
    ensures var (c, n, action) := Attach(s.claim, h, s.me, flagged, s.nextToken);
            && c.refs == 1 && c.holders == [h] && !c.tearingDown && c.baseService == s.me && c.pending == !flagged
                && !c.owned
            && (if flagged then action == SendRequest && c.requestSent && !c.lostSinceSend && c.requestToken == n
                && c.flagged
                else action == Register && !c.requestSent && (s.claim.None? ==> !c.flagged) && (s.claim.Some? ==>
                    c.flagged == s.claim.value.flagged && !s.claim.value.requestSent))
            && !c.notifyQueued && !c.lastNotifiedOwned
  {
    hide Holds, Settled, Owns;
    assert [] + [h] == [h];
  }

  lemma StartFlaggedFrame(s: State, h: nat, how: How)
    requires s.phase == Idle && how.Flagged? && Attach(s.claim, h, s.me, true, s.nextToken).2 == SendRequest
    ensures var t := Attached(s, h, how);
            var (c, n, _) := Attach(s.claim, h, s.me, true, s.nextToken);
            var u := Subscribe(s);
            && t.claim == Some(c) && t.phase == Idle && t.subscribed == u.subscribed
            && t.out == Send(u, [Request(n, how.allow, how.replace, !how.queue)]).out
            && t.me == s.me && t.daemon == s.daemon && t.inb == s.inb && t.armed == s.armed && t.dead == s.dead
  {
    hide Attach, OutOfStep, LossComesFirst;
  }

  lemma StartFlaggedKeeps(s: State, h: nat, how: How)
    requires Inv(s) && Enabled(s, AttachStep(h, how)) && how.Flagged? && (s.claim.Some? ==> s.claim.value.refs == 0)
    ensures Inv(Attached(s, h, how))
  {
    hide Attached, Attach, Send, Subscribe, GrantComing, Holds, Agrees, Verdict, Settled, Watched, Awaits;
    StartClaim(s, h, true);
    NotOwnerUnlessHolds(s.daemon, s.me);
    StartFlaggedFrame(s, h, how);
    var (c, n, _) := Attach(s.claim, h, s.me, true, s.nextToken);
    FlaggedSends(s, Request(n, how.allow, how.replace, !how.queue));
  }

  /** The match rule, if it is new, and the request behind it. */
  lemma FlaggedSends(s: State, m: Outgoing)
    requires Inv(s) && s.phase == Idle && m.Request?
    ensures var u := Subscribe(s);
            var out := Send(u, [m]).out;
            && Plain(out) && Watched(out, s.armed) && (s.dead ==> out == [])
            && (!s.dead ==> GrantComing(out, s.inb, m.token) && (s.armed || AddMatch in out))
  {
    SubscribeKeeps(s);
    SendKeeps(Subscribe(s), m);
    assert !s.dead ==> m in Send(Subscribe(s), [m]).out;
    hide Holds, Agrees, Verdict, Settled, Watched, Awaits, Knows, Tenure;
  }

  lemma StartPlainKeeps(s: State, h: nat)
    requires Inv(s) && Enabled(s, AttachStep(h, Unflagged)) && (s.claim.Some? ==> s.claim.value.refs == 0)
    ensures Inv(Attached(s, h, Unflagged))
  {
    hide Agrees, Verdict, Watched, Awaits, Attach, Holds, Settled, GrantComing;
    StartClaim(s, h, false);
    NotOwnerUnlessHolds(s.daemon, s.me);
    var t := Attached(s, h, Unflagged);
    SendKeeps(s, BlockingRequest);
    assert Owns(t) == Owns(s);
  }

  lemma ResolveKeeps(s: State)
    requires Inv(s) && Enabled(s, ResolveStep)
    ensures Inv(Resolved(s))
  {
    if Disconnected in s.inb {
      LossIsAnEvent(s.inb, s.me);
    }
    NotOwnerUnlessHolds(s.daemon, s.me);
    hide Holds, Agrees, Verdict, Settled, Watched, Awaits;
    var t := Resolved(s);
    assert Owns(t) == Owns(s);
  }

  lemma LeaveKeeps(s: State, h: nat)
    requires Inv(s) && Enabled(s, DetachStep(h)) && s.claim.value.refs > 1
    ensures Inv(Detached(s, h))
  {
    hide Holds, Agrees, Verdict, Settled, Watched, Awaits, GrantComing, RemoveFirst;
    RemoveFirstKeeps(s.claim.value.holders, h);
    assert Owns(Detached(s, h)) == Owns(s);
  }

  lemma LastLeaveKeeps(s: State, h: nat)
    requires Inv(s) && Enabled(s, DetachStep(h)) && s.claim.value.refs == 1
    ensures Inv(Detached(s, h))
  {
    hide Holds, Agrees, Verdict, Settled, Watched, Awaits, GrantComing, RemoveFirst;
    SendKeeps(s, Release);
    var t := Detached(s, h);
    assert Owns(t) == Owns(s);
    if s.claim.value.owned || s.claim.value.requestSent {
      assert Stream(t) && Calls(t);
    }
  }

  lemma DetachKeeps(s: State, h: nat)
    requires Inv(s) && Enabled(s, DetachStep(h))
    ensures Inv(Detached(s, h))
  {
    if s.claim.value.refs > 1 {
      LeaveKeeps(s, h);
    } else {
      LastLeaveKeeps(s, h);
    }
  }

  lemma FinishKeeps(s: State)
    requires Inv(s) && Enabled(s, FinishDetachStep)
    ensures Inv(Next(s, FinishDetachStep)) && Next(s, FinishDetachStep).claim == None
  {
    hide Holds, Agrees, Verdict, Settled, Watched, Awaits;
    var t := Next(s, FinishDetachStep);
    assert Owns(t) == Owns(s);
  }

  lemma CutKeeps(s: State)
    requires Inv(s) && !s.dead
    ensures Inv(Severed(s))
  {
    WithoutHolds(s.daemon, s.me, s.me);
    var d := Without(s.daemon, s.me);
    NotOwnerUnlessHolds(d, s.me);
    Arrives(s.inb, Disconnected, s.me, Owns(s), false);
    LossIsAnEvent(s.inb + [Disconnected], s.me);
    hide Holds, Agrees, Verdict;
    assert Disconnected in s.inb + [Disconnected];
  }

  lemma FailKeeps(s: State)
    requires Inv(s) && Enabled(s, FailBlocked)
    ensures Inv(Failed(s))
  {
    NotOwnerUnlessHolds(s.daemon, s.me);
    hide Holds, Agrees, Verdict, Settled, Watched;
    assert Owns(Failed(s)) == Owns(s);
  }

  /** A step that changes nothing of the above but a record's notes. */
  lemma NotesKeep(s: State, t: State)
    requires Inv(s)
    requires t == s.(claim := t.claim, posting := t.posting, notes := t.notes, pass := t.pass, heard := t.heard,
        rejoined := t.rejoined, gap := t.gap)
    requires t.claim == s.claim || (s.claim.Some? && t.claim.Some? && t.claim.value
                == s.claim.value.(notifyQueued := t.claim.value.notifyQueued,
                    lastNotifiedOwned := t.claim.value.lastNotifiedOwned))
    ensures Inv(t)
  {
    hide Holds, Agrees, Verdict, Settled, Watched, Awaits, GrantComing;
    assert Owns(t) == Owns(s);
  }

  lemma DrainKeeps(s: State)
    requires Inv(s) && s.notes > 0
    ensures Inv(Drained(s))
  {
    hide Inv;
    NotesKeep(s, Drained(s));
  }

  lemma TellKeeps(s: State, alive: bool)
    requires Inv(s) && s.pass.Some?
    ensures Inv(ToldNext(s, alive))
  {
    hide Inv;
    NotesKeep(s, ToldNext(s, alive));
  }

  lemma StepKeeps(s: State, step: Step)
    requires Inv(s) && Enabled(s, step)
    ensures Inv(Next(s, step))
  {
    hide Inv, Served, Delivered, Attached, Move, RequestName, Resolved, Detached, Drained, ToldNext, Severed, Failed,
        Subscribe, FinishDetach;
    match step
    case AttachStep(h, how) => AttachKeeps(s, h, how);
    case ResolveStep => ResolveKeeps(s);
    case DetachStep(h) => DetachKeeps(s, h);
    case FinishDetachStep => FinishKeeps(s);
    case Serve(replyFirst) => ServeKeeps(s, replyFirst);
    case OtherRequests(_, _) => OthersKeep(s, step);
    case OtherLeaves(_) => OthersKeep(s, step);
    case Deliver => DeliverKeeps(s);
    case Post => NotesKeep(s, Next(s, step));
    case DrainNote => DrainKeeps(s);
    case TellNext(alive) => TellKeeps(s, alive);
    case SubscribeElsewhere => SubscribeKeeps(s);
    case Cut => CutKeeps(s);
    case FailBlocked => FailKeeps(s);
  }

  lemma AttachKeeps(s: State, h: nat, how: How)
    requires Inv(s) && Enabled(s, AttachStep(h, how))
    ensures Inv(Attached(s, h, how))
  {
    if s.claim.Some? && s.claim.value.refs > 0 {
      JoinKeeps(s, h, how);
    } else if how.Flagged? {
      StartFlaggedKeeps(s, h, how);
    } else {
      StartPlainKeeps(s, h);
    }
  }

  lemma ServeKeeps(s: State, replyFirst: bool)
    requires Inv(s) && s.out != []
    ensures Inv(Served(s, replyFirst))
  {
    match s.out[0]
    case AddMatch => ServeMatchKeeps(s);
    case Request(_, _, _, _) => ServeRequestKeeps(s, replyFirst);
    case BlockingRequest => ServeRegisterKeeps(s);
    case Release => ServeReleaseKeeps(s);
  }

  lemma DeliverKeeps(s: State)
    requires Inv(s) && Enabled(s, Deliver)
    ensures Inv(Delivered(s))
  {
    match s.inb[0]
    case Reply(_, _) => DeliverReplyKeeps(s);
    case OwnerChanged(_) => DeliverSignalKeeps(s);
    case Disconnected => DeliverLossKeeps(s);
  }

}
