/** What the holders of a claim hear, and which replies a record listens to. */
module ClaimNotes {
  import opened Options
  import opened Sequences
  import opened Claims
  import opened ClaimProtocol
  import opened ClaimInvariant

  // ------------------------------------------------------------------------- tokens

  predicate Numbered(out: seq<Outgoing>, inb: seq<Incoming>, next: nat) {
    && (forall m :: m in out && m.Request? ==> 0 < m.token <= next)
    && (forall m :: m in inb && m.Reply? ==> 0 < m.token <= next)
  }

  predicate Mentions(out: seq<Outgoing>, inb: seq<Incoming>, token: nat) {
    || (exists m :: m in out && m.Request? && m.token == token)
    || (exists m :: m in inb && m.Reply? && m.token == token)
  }

  /** Tokens are never reused: a record without a request of its own carries a token that no
      reply on its way carries. */
  predicate Tokens(s: State) {
    && Numbered(s.out, s.inb, s.nextToken)
    && (s.claim.Some? ==> s.claim.value.requestToken <= s.nextToken)
    && (s.claim.Some? && !s.claim.value.requestSent && !s.dead ==> !Mentions(s.out, s.inb, s.claim.value.requestToken))
  }

  /** Fewer messages mention fewer tokens. */
  lemma FewerMentions(s: State, out: seq<Outgoing>, inb: seq<Incoming>)
    requires Tokens(s)
    requires forall m :: m in out ==> m in s.out || !m.Request?
    requires forall m :: m in inb ==> m in s.inb || (m.Reply? ==> exists k :: k in s.out && k.Request? && k.token == m.token)
    ensures Numbered(out, inb, s.nextToken)
    ensures forall token :: Mentions(out, inb, token) ==> Mentions(s.out, s.inb, token)
  {
  }

  lemma UnusedToken(out: seq<Outgoing>, inb: seq<Incoming>, n: nat)
    requires Numbered(out, inb, n)
    ensures !Mentions(out, inb, n + 1) && !Mentions(out, inb, 0) && Numbered(out, inb, n + 1)
  {
  }

  lemma SignalsOnly(s: State, d: seq<Seat>)
    ensures forall m :: m in Signal(s, d) ==> m.OwnerChanged?
  {
  }

  /** What the daemon's turn leaves alone. */
  lemma ServedFrame(s: State, replyFirst: bool)
    requires s.out != []
    ensures var t := Served(s, replyFirst);
            && t.claim == s.claim && t.pass == s.pass && t.posting == s.posting && t.notes == s.notes
            && t.heard == s.heard && t.rejoined == s.rejoined && t.gap == s.gap
            && (t.phase.Registering? <==> s.phase.Registering?)
            && (t.phase.Registering? ==> t.phase.holder == s.phase.holder)
  {
    hide RequestName, Without, Signal;
    match s.out[0]
    case AddMatch =>
    case Request(_, _, _, _) =>
    case BlockingRequest =>
    case Release =>
  }

  /** Serving takes a message off our stream and adds signals and, for a request, its reply. */
  lemma ServedStreams(s: State, replyFirst: bool)
    requires s.out != []
    ensures var t := Served(s, replyFirst);
            && t.claim == s.claim && t.nextToken == s.nextToken && t.dead == s.dead && t.out == s.out[1..]
            && forall m :: m in t.inb ==> m in s.inb || m.OwnerChanged? || (m.Reply? && s.out[0].Request? && m.token == s.out[0].token)
  {
    hide RequestName, Without, Signal;
    match s.out[0]
    case AddMatch =>
    case Request(token, allow, replace, noQueue) => SignalsOnly(s, RequestName(s.daemon, Seat(s.me, allow, noQueue),
        replace).0);
    case BlockingRequest => SignalsOnly(s.(out := s.out[1..]), RequestName(s.daemon, Seat(s.me, false, true), false).0);
    case Release => SignalsOnly(s.(out := s.out[1..]), Without(s.daemon, s.me));
  }

  lemma ServeKeepsTokens(s: State, replyFirst: bool)
    requires Tokens(s) && s.out != []
    ensures Tokens(Served(s, replyFirst))
  {
    ServedStreams(s, replyFirst);
    hide Served;
    assert s.out[0] in s.out;
    FewerMentions(s, Served(s, replyFirst).out, Served(s, replyFirst).inb);
  }

  lemma DeliverKeepsTokens(s: State)
    requires Tokens(s) && Inv(s) && Enabled(s, Deliver)
    ensures Tokens(Delivered(s))
  {
    var t := Delivered(s);
    assert s.inb[0] in s.inb;
    FewerMentions(s, t.out, t.inb);
    if s.claim.Some? {
      match s.inb[0] {
        case Reply(token, code) => ReplyEffect(s.claim.value, code, token);
        case OwnerChanged(newOwner) => SignalEffect(s.claim.value, newOwner);
        case Disconnected =>
      }
    }
    hide OnReply, OnOwnerChange, Shape, Calls, Tenure, Knows, Holds, Agrees, Settled, Watched, Numbered, Mentions;
  }

  lemma AttachKeepsTokens(s: State, h: nat, how: How)
    requires Tokens(s)
    ensures Tokens(Attached(s, h, how))
  {
    UnusedToken(s.out, s.inb, s.nextToken);
    hide Left;
  }

  lemma OneMore(out: seq<Outgoing>, inb: seq<Incoming>, m: Outgoing, n: nat, token: nat)
    requires Numbered(out, inb, n) && !m.Request?
    ensures Numbered(out + [m], inb, n) && (Mentions(out + [m], inb, token) ==> Mentions(out, inb, token))
  {
  }

  lemma DetachKeepsTokens(s: State, h: nat)
    requires Tokens(s) && s.claim.Some?
    ensures Tokens(Detached(s, h))
  {
    hide Numbered, Mentions, RemoveFirst;
    var token := s.nextToken + 1;
    UnusedToken(s.out, s.inb, s.nextToken);
    OneMore(s.out, s.inb, Release, token, token);
    if s.claim.value.refs > 1 {
      assert Detached(s, h).out == s.out;
    } else if s.claim.value.owned || s.claim.value.requestSent {
      assert Detached(s, h).out == Send(s, [Release]).out;
    } else {
      assert Detached(s, h).out == s.out;
    }
  }

  lemma NoRecordKeepsTokens(s: State)
    requires Tokens(s)
    ensures Tokens(s.(claim := None))
  {
  }

  lemma QuietStepKeepsTokens(s: State, t: State)
    requires Tokens(s) && t.nextToken == s.nextToken && t.dead == (s.dead || t.dead)
    requires t.claim == s.claim || (s.claim.Some? && t.claim.Some?
        && t.claim.value.requestToken == s.claim.value.requestToken
        && t.claim.value.requestSent == s.claim.value.requestSent)
    requires t.out == s.out || t.out == s.out + [AddMatch] || t.out == []
    requires forall m :: m in t.inb ==> m in s.inb || !m.Reply?
    ensures Tokens(t)
  {
    FewerMentions(s, t.out, t.inb);
    hide Numbered, Mentions;
  }

  lemma MoveKeepsTokens(s: State, d: seq<Seat>)
    requires Tokens(s)
    ensures Tokens(Move(s, d))
  {
    SignalsOnly(s, d);
    hide Signal, Tokens;
    QuietStepKeepsTokens(s, Move(s, d));
  }

  lemma DrainFrame(s: State)
    requires s.notes > 0
    ensures var t := Drained(s);
            && t.out == s.out && t.inb == s.inb && t.nextToken == s.nextToken && t.dead == s.dead
            && t.heard == s.heard && t.rejoined == s.rejoined && t.gap == s.gap && t.phase == s.phase
            && (if s.claim.None? then t.claim == None && t.pass == s.pass else
                var c, c' := s.claim.value, Drain(s.claim.value).0;
                var tell := Drain(c).1;
                && t.claim == Some(c') && c'.holders == c.holders
                && c'.requestToken == c.requestToken && c'.requestSent == c.requestSent
                && t.pass == (if tell.Some? then Some(Pass(tell.value, c.holders)) else None)
                && c'.lastNotifiedOwned == (if tell.Some? then tell.value else c.lastNotifiedOwned)
                && (tell.Some? ==> tell.value == c.owned != c.lastNotifiedOwned))
  {
  }

  lemma ResolveKeepsTokens(s: State)
    requires Tokens(s) && Enabled(s, ResolveStep)
    ensures Tokens(Resolved(s))
  {
    hide Tokens, Left, Heard;
    QuietStepKeepsTokens(s, Resolved(s));
  }

  lemma RelayKeepsTokens(s: State, step: Step)
    requires Tokens(s) && Enabled(s, step) && (step.Post? || step.DrainNote? || step.TellNext? || step.ResolveStep?)
    ensures Tokens(Next(s, step))
  {
    hide Tokens, Left, Heard, Drained, Resolved;
    match step {
      case ResolveStep => ResolveKeepsTokens(s);
      case Post => QuietStepKeepsTokens(s, Next(s, step));
      case DrainNote =>
        DrainFrame(s);
        QuietStepKeepsTokens(s, Drained(s));
      case TellNext(alive) => QuietStepKeepsTokens(s, ToldNext(s, alive));
    }
  }

  lemma LineKeepsTokens(s: State, step: Step)
    requires Tokens(s) && Enabled(s, step) && (step.SubscribeElsewhere? || step.Cut? || step.FailBlocked?)
    ensures Tokens(Next(s, step))
  {
    hide Tokens, Without;
    match step {
      case SubscribeElsewhere => QuietStepKeepsTokens(s, Subscribe(s));
      case Cut => QuietStepKeepsTokens(s, Severed(s));
      case FailBlocked => QuietStepKeepsTokens(s, Failed(s));
    }
  }

  lemma StepKeepsTokens(s: State, step: Step)
    requires Inv(s) && Tokens(s) && Enabled(s, step)
    ensures Tokens(Next(s, step))
  {
    if step.FinishDetachStep? {
      FinishKeeps(s);
      NoRecordKeepsTokens(s);
    }
    hide Inv, Attached, Detached, Served, Delivered, RequestName, Without, FinishDetach, Signal, Move, Numbered, Mentions;
    hide Resolved, Drained, ToldNext, Severed, Failed, Subscribe;
    match step {
      case AttachStep(h, how) => AttachKeepsTokens(s, h, how);
      case DetachStep(h) => DetachKeepsTokens(s, h);
      case FinishDetachStep =>
      case Serve(replyFirst) => ServeKeepsTokens(s, replyFirst);
      case OtherRequests(seat, replace) => MoveKeepsTokens(s, RequestName(s.daemon, seat, replace).0);
      case OtherLeaves(conn) => MoveKeepsTokens(s, Without(s.daemon, conn));
      case Deliver => DeliverKeepsTokens(s);
      case SubscribeElsewhere => LineKeepsTokens(s, step);
      case Cut => LineKeepsTokens(s, step);
      case FailBlocked => LineKeepsTokens(s, step);
      case _ => RelayKeepsTokens(s, step);
    }
  }

  // -------------------------------------------------------------------------- notes

  /** A live record has told its holders what it knows, or a note is on the way. */
  predicate Announced(s: State) {
    && (Live(s) ==> Told(s.claim.value))
    && (s.claim.Some? && s.claim.value.notifyQueued ==> s.posting + s.notes > 0)
  }

  predicate Alternates(bs: seq<bool>) {
    forall i :: 0 < i < |bs| ==> bs[i] != bs[i - 1]
  }

  /** Nothing heard yet, or `b` heard last. */
  predicate LastHeard(bs: seq<bool>, b: bool) {
    bs != [] ==> bs[|bs| - 1] == b
  }

  predicate Holder(s: State, h: nat) {
    s.claim.Some? && h in s.claim.value.holders
  }

  /** What adaptor `h` heard since it attached, unless it attached with an older delivery due
      that did not fit. */
  predicate HeardOk(s: State, h: nat) {
    h !in s.rejoined ==>
      && Alternates(Heard(s, h))
      && (h in Left(s) ==> LastHeard(Heard(s, h), !s.pass.value.acquired))
      && (Holder(s, h) && h in Left(s) ==> s.claim.value.lastNotifiedOwned == s.pass.value.acquired)
      && (Holder(s, h) && h !in Left(s) ==> LastHeard(Heard(s, h), s.claim.value.lastNotifiedOwned))
  }

  /** What any adaptor hears first was settled when it attached. */
  predicate FirstOk(s: State, h: nat) {
    var bs := Heard(s, h);
    && (bs != [] ==> (bs[0] <==> h !in s.gap))
    && (bs == [] && h in Left(s) ==> (s.pass.value.acquired <==> h !in s.gap))
    && (bs == [] && Holder(s, h) && h !in Left(s) ==> (s.claim.value.lastNotifiedOwned <==> h in s.gap))
    && (s.phase.Registering? && s.phase.holder == h ==> bs == [])
  }

  ghost predicate HeardInv(s: State) {
    && Distinct(Left(s))
    && (s.phase.Registering? ==> !s.claim.Some? || !s.claim.value.lastNotifiedOwned)
    && (forall h :: HeardOk(s, h))
    && (forall h :: FirstOk(s, h))
  }

  /** Steps that leave deliveries, holders and baselines alone. */
  predicate Unheard(s: State, t: State) {
    && t.pass == s.pass && t.heard == s.heard && t.rejoined == s.rejoined && t.gap == s.gap
    && (t.phase.Registering? ==> s.phase.Registering? && t.phase.holder == s.phase.holder)
    && (t.claim.Some? ==>
          && s.claim.Some? && t.claim.value.holders == s.claim.value.holders
          && t.claim.value.lastNotifiedOwned == s.claim.value.lastNotifiedOwned)
  }

  lemma UnheardKeeps(s: State, t: State)
    requires HeardInv(s) && Unheard(s, t)
    ensures HeardInv(t)
  {
    hide HeardOk, FirstOk;
    forall h ensures HeardOk(t, h) && FirstOk(t, h) {
      assert HeardOk(s, h) && FirstOk(s, h);
      UnheardOne(s, t, h);
    }
  }

  lemma UnheardOne(s: State, t: State, h: nat)
    requires HeardOk(s, h) && FirstOk(s, h) && Unheard(s, t)
    ensures HeardOk(t, h) && FirstOk(t, h)
  {
  }

  lemma OneMoreHeard(bs: seq<bool>, b: bool)
    requires Alternates(bs) && LastHeard(bs, !b)
    ensures Alternates(bs + [b]) && LastHeard(bs + [b], b)
  {
  }

  /** What attaching changes for those who listen. */
  predicate Listens(s: State, t: State, h: nat, direct: bool) {
    && t.pass == s.pass && t.claim.Some?
    && t.heard == s.heard[h := if direct then [true] else []]
    && t.rejoined == (if OutOfStep(s, h, t.claim.value, direct) then s.rejoined + {h} else s.rejoined - {h})
    && t.gap == (if LossComesFirst(s, h, t.claim.value, direct) then s.gap + {h} else s.gap - {h})
    && (t.phase.Registering? ==> t.phase.holder == h && !direct && !t.claim.value.lastNotifiedOwned)
    && (direct ==> t.claim.value.lastNotifiedOwned)
  }

  /** Joining a claim. */
  lemma JoinFacts(s: State, h: nat, how: How)
    requires Shape(s) && Enabled(s, AttachStep(h, how)) && s.claim.Some? && s.claim.value.refs > 0
    ensures var c, t := s.claim.value, Attached(s, h, how);
            && Listens(s, t, h, c.owned && c.lastNotifiedOwned) && t.claim.value.holders == c.holders + [h]
            && t.claim.value.lastNotifiedOwned == c.lastNotifiedOwned
  {
    assert !s.claim.value.tearingDown;
    hide Shape, Left, OutOfStep, LossComesFirst;
  }

  /** Starting one. */
  lemma StartFacts(s: State, h: nat, how: How)
    requires Shape(s) && Tenure(s) && Enabled(s, AttachStep(h, how)) && (s.claim.Some? ==> s.claim.value.refs == 0)
    ensures var t := Attached(s, h, how);
            Listens(s, t, h, false) && t.claim.value.holders == [h] && !t.claim.value.lastNotifiedOwned
  {
    StartClaim(s, h, how.Flagged?);
    hide Attach, Tenure, Shape, Left, OutOfStep, LossComesFirst;
  }

  /** Nobody but the adaptor that attaches becomes or stops being a holder. */
  lemma ListenerOk(s: State, t: State, h: nat, direct: bool, x: nat)
    requires HeardOk(s, x) && FirstOk(s, x) && Listens(s, t, h, direct) && Holder(t, h)
    requires x != h ==> (Holder(t, x) ==> Holder(s, x) && t.claim.value.lastNotifiedOwned == s.claim.value.lastNotifiedOwned)
    ensures HeardOk(t, x) && FirstOk(t, x)
  {
  }

  lemma AttachHeard(s: State, h: nat, how: How)
    requires Inv(s) && HeardInv(s) && Enabled(s, AttachStep(h, how))
    ensures HeardInv(Attached(s, h, how))
  {
    var t := Attached(s, h, how);
    var joins := s.claim.Some? && s.claim.value.refs > 0;
    var direct := joins && s.claim.value.owned && s.claim.value.lastNotifiedOwned;
    if joins {
      JoinFacts(s, h, how);
    } else {
      StartFacts(s, h, how);
    }
    hide Inv, HeardOk, FirstOk, Attached, Attach, OutOfStep, LossComesFirst;
    forall x ensures HeardOk(t, x) && FirstOk(t, x) {
      assert HeardOk(s, x) && FirstOk(s, x);
      ListenerOk(s, t, h, direct, x);
    }
  }

  lemma ResolveFacts(s: State)
    requires Shape(s) && Enabled(s, ResolveStep)
    ensures var h, ok, t := s.phase.holder, s.phase.answer.value, Resolved(s);
            && t.pass == s.pass && t.phase == Idle && s.claim.Some? && t.claim.Some?
            && s.claim.value.holders == [h] && t.claim.value.holders == [h]
            && t.claim.value.lastNotifiedOwned == (ok || s.claim.value.lastNotifiedOwned)
            && t.heard == (if ok then s.heard[h := Heard(s, h) + [true]] else s.heard)
            && t.rejoined == (if ok && h in Left(s) then s.rejoined + {h} else s.rejoined)
            && t.gap == (if ok then s.gap - {h} else s.gap)
  {
    hide Left, Heard;
  }

  lemma ResolveHeard(s: State)
    requires Inv(s) && HeardInv(s) && Enabled(s, ResolveStep)
    ensures HeardInv(Resolved(s))
  {
    hide Stream, Calls, Tenure, Knows, Resolved;
    ResolveFacts(s);
    forall x ensures HeardOk(Resolved(s), x) && FirstOk(Resolved(s), x) {
      assert HeardOk(s, x) && FirstOk(s, x);
    }
  }

  lemma DetachFrame(s: State, h: nat)
    requires s.claim.Some?
    ensures var t := Detached(s, h);
            && t.claim.Some? && t.pass == s.pass && t.heard == s.heard && t.rejoined == s.rejoined && t.gap == s.gap
            && t.posting == s.posting && t.notes == s.notes && (t.phase == s.phase || t.phase.Releasing?)
            && t.claim.value.holders == (if s.claim.value.refs <= 1 then [] else RemoveFirst(s.claim.value.holders, h))
            && t.claim.value.lastNotifiedOwned == s.claim.value.lastNotifiedOwned
            && t.claim.value.notifyQueued == s.claim.value.notifyQueued
            && (Live(t) ==> Live(s) && t.claim.value.owned == s.claim.value.owned)
  {
    hide RemoveFirst;
  }

  lemma DetachHeard(s: State, h: nat)
    requires Inv(s) && HeardInv(s) && Enabled(s, DetachStep(h))
    ensures HeardInv(Detached(s, h))
  {
    hide Stream, Calls, Tenure, Knows, Detached, RemoveFirst, Alternates, LastHeard;
    DetachFrame(s, h);
    RemoveFirstKeeps(s.claim.value.holders, h);
    var t := Detached(s, h);
    forall x ensures HeardOk(t, x) && FirstOk(t, x) {
      assert HeardOk(s, x) && FirstOk(s, x);
      assert Holder(t, x) ==> Holder(s, x);
    }
  }

  lemma DrainHeard(s: State)
    requires Inv(s) && HeardInv(s) && Enabled(s, DrainNote)
    ensures HeardInv(Drained(s))
  {
    hide Stream, Calls, Tenure, Knows, Alternates, LastHeard, Drained;
    DrainFrame(s);
    forall x ensures HeardOk(Drained(s), x) && FirstOk(Drained(s), x) {
      assert HeardOk(s, x) && FirstOk(s, x);
    }
  }

  lemma TellHeard(s: State, alive: bool)
    requires HeardInv(s) && Enabled(s, TellNext(alive))
    ensures HeardInv(ToldNext(s, alive))
  {
    var t := ToldNext(s, alive);
    if Left(s) != [] {
      DistinctTail(Left(s));
    }
    hide HeardOk, FirstOk;
    forall x ensures HeardOk(t, x) && FirstOk(t, x) {
      assert HeardOk(s, x) && FirstOk(s, x);
      TellOne(s, alive, x);
    }
  }

  lemma TellOne(s: State, alive: bool, x: nat)
    requires Distinct(Left(s)) && HeardOk(s, x) && FirstOk(s, x) && Enabled(s, TellNext(alive))
    ensures HeardOk(ToldNext(s, alive), x) && FirstOk(ToldNext(s, alive), x)
  {
    if Left(s) == [] || x != Left(s)[0] {
      NotTold(s, alive, x);
    } else {
      DistinctTail(Left(s));
      TellHead(s, alive, x);
    }
  }

  lemma NotTold(s: State, alive: bool, x: nat)
    requires Distinct(Left(s)) && HeardOk(s, x) && FirstOk(s, x) && Enabled(s, TellNext(alive))
    requires Left(s) == [] || x != Left(s)[0]
    ensures HeardOk(ToldNext(s, alive), x) && FirstOk(ToldNext(s, alive), x)
  {
    var t := ToldNext(s, alive);
    if Left(s) != [] {
      DistinctTail(Left(s));
    }
    assert t.claim == s.claim && t.phase == s.phase && t.gap == s.gap && t.rejoined == s.rejoined;
    assert Heard(t, x) == Heard(s, x) && (x in Left(t) <==> x in Left(s));
    hide Distinct, Alternates, LastHeard, ToldNext;
  }

  lemma TellHead(s: State, alive: bool, x: nat)
    requires HeardOk(s, x) && FirstOk(s, x) && Enabled(s, TellNext(alive))
    requires Left(s) != [] && x == Left(s)[0] && x !in Left(s)[1..]
    ensures HeardOk(ToldNext(s, alive), x) && FirstOk(ToldNext(s, alive), x)
  {
    var t := ToldNext(s, alive);
    if x !in s.rejoined {
      OneMoreHeard(Heard(s, x), s.pass.value.acquired);
    }
    assert t.claim == s.claim && t.phase == s.phase && t.gap == s.gap && t.rejoined == s.rejoined;
    assert x !in Left(t) && Heard(t, x) == if alive then Heard(s, x) + [s.pass.value.acquired] else Heard(s, x);
    hide Alternates, LastHeard, ToldNext;
  }

  lemma StepKeepsHeard(s: State, step: Step)
    requires Inv(s) && HeardInv(s) && Enabled(s, step)
    ensures HeardInv(Next(s, step))
  {
    match step {
      case AttachStep(h, how) => AttachHeard(s, h, how);
      case ResolveStep => ResolveHeard(s);
      case DetachStep(h) => DetachHeard(s, h);
      case DrainNote => DrainHeard(s);
      case TellNext(alive) => TellHeard(s, alive);
      case _ =>
        AsideUnheard(s, step);
        UnheardKeeps(s, Next(s, step));
    }
  }

  /** Everything but attaching, resolving, detaching and the relay leaves the listeners alone. */
  predicate Aside(step: Step) {
    step.Serve? || step.Deliver? || step.FinishDetachStep? || step.OtherRequests? || step.OtherLeaves? || step.Post?
    || step.SubscribeElsewhere? || step.Cut? || step.FailBlocked?
  }

  lemma ServeUnheard(s: State, replyFirst: bool)
    requires s.out != []
    ensures Unheard(s, Served(s, replyFirst))
  {
    hide Served;
    ServedFrame(s, replyFirst);
  }

  lemma DeliverFrameNotes(s: State)
    requires s.inb != []
    ensures var t := Delivered(s);
            && t.pass == s.pass && t.heard == s.heard && t.rejoined == s.rejoined && t.gap == s.gap
                && t.phase == s.phase && t.notes == s.notes
            && t.claim.Some? == s.claim.Some? && (s.claim.Some? ==> Touched(s.claim.value, t.claim.value))
  {
    if s.claim.Some? {
      match s.inb[0]
      case Reply(token, code) => ReplyEffect(s.claim.value, code, token);
      case OwnerChanged(newOwner) => SignalEffect(s.claim.value, newOwner);
      case Disconnected =>
    }
    hide OnReply, OnOwnerChange;
  }

  /** An event that changes what a record knows queues a note. */
  lemma EventsAnnounce(c: Claim, m: Incoming)
    ensures var (c', post) := match m
              case Reply(token, code) => OnReply(c, code, token)
              case OwnerChanged(newOwner) => OnOwnerChange(c, newOwner)
              case Disconnected => OnConnectionLost(c);
            && (Told(c) ==> Told(c')) && (c'.notifyQueued ==> c.notifyQueued || post)
  {
  }

  lemma DeliverAnnounced(s: State)
    requires Announced(s) && s.inb != []
    ensures Announced(Delivered(s))
  {
    DeliverFrameNotes(s);
    if s.claim.Some? {
      EventsAnnounce(s.claim.value, s.inb[0]);
    }
    hide OnReply, OnOwnerChange, OnConnectionLost, Told;
  }

  lemma AsideUnheard(s: State, step: Step)
    requires Inv(s) && Enabled(s, step) && Aside(step)
    ensures Unheard(s, Next(s, step))
  {
    hide Inv, Served, Delivered, RequestName, Without, Signal, FinishDetach;
    match step {
      case Serve(replyFirst) => ServeUnheard(s, replyFirst);
      case Deliver => DeliverFrameNotes(s);
      case FinishDetachStep => FinishKeeps(s);
      case _ =>
    }
  }

  lemma AttachAnnounced(s: State, h: nat, how: How)
    requires Shape(s) && Tenure(s) && Announced(s) && Enabled(s, AttachStep(h, how))
    ensures Announced(Attached(s, h, how))
  {
    if !(s.claim.Some? && s.claim.value.refs > 0) {
      StartClaim(s, h, how.Flagged?);
    }
    hide Left;
  }

  lemma SameAnnounced(s: State, t: State)
    requires Announced(s) && t.claim == s.claim && t.posting == s.posting && t.notes == s.notes
    ensures Announced(t)
  {
  }

  lemma DrainAnnounced(s: State)
    requires Announced(s) && s.notes > 0
    ensures Announced(Drained(s))
  {
  }

  lemma ResolveAnnounced(s: State)
    requires Announced(s) && Enabled(s, ResolveStep)
    ensures Announced(Resolved(s))
  {
    hide Heard;
  }

  lemma StepKeepsAnnounced(s: State, step: Step)
    requires Inv(s) && Announced(s) && Enabled(s, step)
    ensures Announced(Next(s, step))
  {
    hide Stream, Calls, Knows, Attached, Detached, Served, Delivered, Resolved, Drained, FinishDetach, Announced;
    hide RequestName, Without, Signal;
    match step {
      case AttachStep(h, how) => AttachAnnounced(s, h, how);
      case DetachStep(h) => DetachAnnounced(s, h);
      case Serve(replyFirst) => ServeAnnounced(s, replyFirst);
      case Deliver => DeliverAnnounced(s);
      case FinishDetachStep =>
        FinishKeeps(s);
        NoRecordAnnounced(s);
      case OtherRequests(_, _) => SameAnnounced(s, Next(s, step));
      case OtherLeaves(_) => SameAnnounced(s, Next(s, step));
      case SubscribeElsewhere => SameAnnounced(s, Next(s, step));
      case Cut => SameAnnounced(s, Next(s, step));
      case FailBlocked => SameAnnounced(s, Next(s, step));
      case ResolveStep => ResolveAnnounced(s);
      case Post => PostAnnounced(s);
      case DrainNote => DrainAnnounced(s);
      case TellNext(alive) => SameAnnounced(s, ToldNext(s, alive));
    }
  }

  lemma PostAnnounced(s: State)
    requires Announced(s) && s.posting > 0
    ensures Announced(Next(s, Post))
  {
  }

  lemma NoRecordAnnounced(s: State)
    ensures Announced(s.(claim := None, phase := Idle))
  {
  }

  lemma DetachAnnounced(s: State, h: nat)
    requires Announced(s) && s.claim.Some?
    ensures Announced(Detached(s, h))
  {
    DetachFrame(s, h);
    hide Detached, RemoveFirst;
  }

  lemma ServeAnnounced(s: State, replyFirst: bool)
    requires Announced(s) && s.out != []
    ensures Announced(Served(s, replyFirst))
  {
    hide Served, Announced;
    ServedFrame(s, replyFirst);
    SameAnnounced(s, Served(s, replyFirst));
  }

  // ---------------------------------------------------------------------------- runs

  ghost predicate Good(s: State) {
    Inv(s) && Tokens(s) && Announced(s) && HeardInv(s)
  }

  lemma StartGood(s: State)
    requires Start(s)
    ensures Good(s)
  {
    StartInv(s);
  }

  lemma {:induction false} RunGood(s: State, run: seq<Step>)
    requires Good(s) && Possible(s, run)
    ensures Good(After(s, run))
    decreases |run|
  {
    hide Inv, Tokens, Announced, HeardInv, Next;
    if run != [] {
      StepKeeps(s, run[0]);
      StepKeepsTokens(s, run[0]);
      StepKeepsAnnounced(s, run[0]);
      StepKeepsHeard(s, run[0]);
      RunGood(Next(s, run[0]), run[1..]);
    }
  }
}
