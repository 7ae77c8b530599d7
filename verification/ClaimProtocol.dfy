/** One well-known name over whole runs: the claim record, our side of the connection, the
    bus daemon's queue for the name, and the two FIFO streams between them.

    Attach and detach of one name are serialized and run on one thread, which also runs
    the relay; a blocking call blocks that thread. Signals and replies may arrive at any
    moment, loss of the connection only between two activities of that thread. Other
    clients of the daemon do whatever they like. */
module ClaimProtocol {
  import opened Options
  import opened Claims

  // ------------------------------------------------------------------ the daemon
  // D-Bus Specification, section "Message Bus Messages": RequestName, ReleaseName. RequestName answers
  // 1 (primary owner), 2 (in queue), 3 (exists) or 4 (already owner).

  /** A connection in the queue for the name; the head of the queue owns it. */
  datatype Seat = Seat(conn: string, allows: bool, noQueue: bool)

  function Without(d: seq<Seat>, who: string): seq<Seat> {
    if d == [] then [] else if d[0].conn == who then Without(d[1..], who) else [d[0]] + Without(d[1..], who)
  }

  predicate Holds(d: seq<Seat>, who: string) {
    d != [] && (d[0].conn == who || Holds(d[1..], who))
  }

  function Owner(d: seq<Seat>): string {
    if d == [] then "" else d[0].conn
  }

  /** A connection that already waits keeps its place and gets its new flags. */
  function Enqueue(d: seq<Seat>, seat: Seat): seq<Seat> {
    if d == [] then [seat] else if d[0].conn == seat.conn then [seat] + d[1..] else [d[0]] + Enqueue(d[1..], seat)
  }

  function RequestName(d: seq<Seat>, seat: Seat, replace: bool): (seq<Seat>, nat) {
    if d == [] then ([seat], 1)
    else if d[0].conn == seat.conn then ([seat] + d[1..], 4)
    else if replace && d[0].allows then
      ([seat] + (if d[0].noQueue then [] else [d[0]]) + Without(d[1..], seat.conn), 1)
    else if seat.noQueue then ([d[0]] + Without(d[1..], seat.conn), 3)
    else ([d[0]] + Enqueue(d[1..], seat), 2)
  }

  // ------------------------------------------------------------------- the state

  datatype Outgoing =
    | AddMatch
    | Request(token: nat, allow: bool, replace: bool, noQueue: bool)
    | BlockingRequest // registerService: do not queue, do not allow replacement
    | Release

  datatype Incoming =
    | Reply(token: nat, code: nat)
    | OwnerChanged(newOwner: string)
    | Disconnected

  datatype Phase =
    | Idle
    | Registering(holder: nat, answer: Option<bool>)
    | Releasing(token: nat, done: bool)

  /** A note being delivered: the holders copied from the record that have not heard yet. */
  datatype Pass = Pass(acquired: bool, left: seq<nat>)

  datatype State = State(
    me: string,
    claim: Option<Claim>,
    nextToken: nat,
    phase: Phase,
    out: seq<Outgoing>,
    inb: seq<Incoming>,
    daemon: seq<Seat>,
    armed: bool,      // the daemon has our match rule
    subscribed: bool, // the connection has a receiver
    dead: bool,
    posting: nat,     // notes about to be posted
    notes: nat,       // notes in the mailbox
    pass: Option<Pass>,
    heard: map<nat, seq<bool>>, // what each adaptor heard since it attached
    rejoined: set<nat>,         // adaptors that attached with an older delivery due that does not fit
    gap: set<nat>)              // adaptors whose first news, as they attached, was bound to be a loss

  predicate Start(s: State) {
    && s.me != "" && s.claim == None && s.nextToken == 0 && s.phase == Idle && s.out == [] && s.inb == []
    && !Holds(s.daemon, s.me) && !s.armed && !s.subscribed && !s.dead && s.posting == 0 && s.notes == 0
    && s.pass == None && s.heard == map[] && s.rejoined == {} && s.gap == {}
  }

  predicate Owns(s: State) {
    Owner(s.daemon) == s.me
  }

  predicate Live(s: State) {
    s.claim.Some? && !s.claim.value.tearingDown
  }

  function Left(s: State): seq<nat> {
    if s.pass.Some? then s.pass.value.left else []
  }

  function Heard(s: State, h: nat): seq<bool> {
    if h in s.heard then s.heard[h] else []
  }

  // ------------------------------------------------------------------- the steps

  datatype How = Unflagged | Flagged(allow: bool, replace: bool, queue: bool)

  datatype Step =
    | AttachStep(h: nat, how: How)
    | ResolveStep
    | DetachStep(h: nat)
    | FinishDetachStep
    | Serve(replyFirst: bool)               // the daemon takes our next message
    | OtherRequests(seat: Seat, replace: bool)
    | OtherLeaves(conn: string)
    | Deliver                               // the next signal, reply or the loss arrives
    | Post
    | DrainNote
    | TellNext(alive: bool)
    | SubscribeElsewhere                    // a flagged attach of another name
    | Cut                                   // the connection breaks
    | FailBlocked                           // a blocking call on a broken connection returns

  predicate Enabled(s: State, step: Step) {
    match step
    case AttachStep(h, how) =>
      s.phase == Idle && (s.claim.Some? ==> h !in s.claim.value.holders) && (how.Flagged? ==> how.allow || how.replace || how.queue)
    case ResolveStep => s.phase.Registering? && s.phase.answer.Some?
    case DetachStep(h) => s.phase == Idle && s.claim.Some? && h in s.claim.value.holders
    case FinishDetachStep => s.phase.Releasing? && s.phase.done
    case Serve(_) => s.out != []
    case OtherRequests(seat, _) => seat.conn != s.me && seat.conn != ""
    case OtherLeaves(conn) => conn != s.me
    case Deliver => s.inb != [] && (s.inb[0] == Disconnected ==> s.phase == Idle && s.pass == None)
    case Post => s.posting > 0
    case DrainNote => s.phase == Idle && s.pass == None && s.notes > 0
    // destruction detaches an adaptor
    case TellNext(alive) => s.phase == Idle && s.pass.Some? && (!alive && Left(s) != [] && s.claim.Some? ==>
        Left(s)[0] !in s.claim.value.holders)
    case SubscribeElsewhere => true
    case Cut => !s.dead
    case FailBlocked => s.dead && ((s.phase.Registering? && s.phase.answer == None) || (s.phase.Releasing? && !s.phase.done))
  }

  function Send(s: State, ms: seq<Outgoing>): State {
    if s.dead then s else s.(out := s.out + ms)
  }

  /** ensureOwnerChangeReceiver. */
  function Subscribe(s: State): State {
    if s.subscribed then s else Send(s, [AddMatch]).(subscribed := true)
  }

  /** The daemon moves to a new queue; a match rule makes it tell us about a new owner. */
  function Signal(s: State, d: seq<Seat>): seq<Incoming> {
    if s.armed && !s.dead && Owner(d) != Owner(s.daemon) then [OwnerChanged(Owner(d))] else []
  }

  function Move(s: State, d: seq<Seat>): State {
    s.(daemon := d, inb := s.inb + Signal(s, d))
  }

  /** An adaptor attaches while a delivery copied before is still due to it, and that delivery will
      not fit what it is told now or what the record last delivered. */
  predicate OutOfStep(s: State, h: nat, c: Claim, direct: bool) {
    h in Left(s) && (direct || c.lastNotifiedOwned != s.pass.value.acquired)
  }

  /** An adaptor attaches that is told nothing now, and what it will hear next is a loss. */
  predicate LossComesFirst(s: State, h: nat, c: Claim, direct: bool) {
    !direct && if h in Left(s) then !s.pass.value.acquired else c.lastNotifiedOwned
  }

  function Attached(s: State, h: nat, how: How): State {
    var (c, n, action) := Attach(s.claim, h, s.me, how.Flagged?, s.nextToken);
    var direct := action == TellJoiner;
    var t := s.(claim := Some(c), nextToken := n, heard := s.heard[h := if direct then [true] else []],
                rejoined := if OutOfStep(s, h, c, direct) then s.rejoined + {h} else s.rejoined - {h},
                gap := if LossComesFirst(s, h, c, direct) then s.gap + {h} else s.gap - {h});
    match action
    case SendRequest =>
      var Flagged(allow, replace, queue) := if how.Flagged? then how else Flagged(false, false, false);
      Send(Subscribe(t), [Request(n, allow, replace, !queue)])
    case Register => Send(t, [BlockingRequest]).(phase := Registering(h, None))
    case _ => t
  }

  function Served(s: State, replyFirst: bool): State
    requires s.out != []
  {
    var t := s.(out := s.out[1..]);
    match s.out[0]
    case AddMatch => t.(armed := true)
    case Request(token, allow, replace, noQueue) =>
      var (d, code) := RequestName(s.daemon, Seat(s.me, allow, noQueue), replace);
      var signal := Signal(s, d);
      t.(daemon := d, inb := s.inb + (if replyFirst then [Reply(token, code)] + signal else signal + [Reply(token, code)]))
    case BlockingRequest =>
      var (d, code) := RequestName(s.daemon, Seat(s.me, false, true), false);
      var u := Move(t, d);
      if s.phase.Registering? then u.(phase := s.phase.(answer := Some(code == 1 || code == 4))) else u
    case Release =>
      var u := Move(t, Without(s.daemon, s.me));
      if s.phase.Releasing? then u.(phase := s.phase.(done := true)) else u
  }

  function Delivered(s: State): State
    requires s.inb != []
  {
    var t := s.(inb := s.inb[1..], subscribed := s.subscribed && s.inb[0] != Disconnected);
    if s.claim.None? then t
    else
      var (c, post) := match s.inb[0]
        case Reply(token, code) => OnReply(s.claim.value, code, token)
        case OwnerChanged(newOwner) => OnOwnerChange(s.claim.value, newOwner)
        case Disconnected => OnConnectionLost(s.claim.value);
      t.(claim := Some(c), posting := s.posting + if post then 1 else 0)
  }

  function Resolved(s: State): State
    requires Enabled(s, ResolveStep)
  {
    if !Live(s) then s
    else
      var h, ok := s.phase.holder, s.phase.answer.value;
      s.(claim := Some(Resolve(s.claim.value, ok)), phase := Idle,
         heard := if ok then s.heard[h := Heard(s, h) + [true]] else s.heard,
         rejoined := if ok && h in Left(s) then s.rejoined + {h} else s.rejoined,
         gap := if ok then s.gap - {h} else s.gap)
  }

  function Detached(s: State, h: nat): State
    requires s.claim.Some?
  {
    var (c, n, release) := Detach(s.claim.value, h, s.nextToken);
    var t := s.(claim := Some(c), nextToken := n);
    if release then Send(t, [Release]).(phase := Releasing(c.requestToken, false)) else t
  }

  function Drained(s: State): State
    requires s.notes > 0
  {
    var t := s.(notes := s.notes - 1);
    if s.claim.None? then t
    else
      var (c, tell) := Drain(s.claim.value);
      t.(claim := Some(c), pass := if tell.Some? then Some(Pass(tell.value, c.holders)) else None)
  }

  function ToldNext(s: State, alive: bool): State
    requires s.pass.Some?
  {
    if Left(s) == [] then s.(pass := None)
    else
      var h := Left(s)[0];
      s.(pass := Some(s.pass.value.(left := Left(s)[1..])),
         heard := if alive then s.heard[h := Heard(s, h) + [s.pass.value.acquired]] else s.heard)
  }

  function Severed(s: State): State {
    s.(daemon := Without(s.daemon, s.me), out := [], inb := s.inb + [Disconnected], dead := true)
  }

  function Failed(s: State): State
    requires Enabled(s, FailBlocked)
  {
    if s.phase.Registering? then s.(phase := s.phase.(answer := Some(false))) else s.(phase := s.phase.(done := true))
  }

  function Next(s: State, step: Step): State
    requires Enabled(s, step)
  {
    match step
    case AttachStep(h, how) => Attached(s, h, how)
    case ResolveStep => Resolved(s)
    case DetachStep(h) => Detached(s, h)
    case FinishDetachStep => s.(claim := FinishDetach(s.claim, s.phase.token), phase := Idle)
    case Serve(replyFirst) => Served(s, replyFirst)
    case OtherRequests(seat, replace) => Move(s, RequestName(s.daemon, seat, replace).0)
    case OtherLeaves(conn) => Move(s, Without(s.daemon, conn))
    case Deliver => Delivered(s)
    case Post => s.(posting := s.posting - 1, notes := s.notes + 1)
    case DrainNote => Drained(s)
    case TellNext(alive) => ToldNext(s, alive)
    case SubscribeElsewhere => Subscribe(s)
    case Cut => Severed(s)
    case FailBlocked => Failed(s)
  }

  predicate Possible(s: State, run: seq<Step>)
    decreases |run|
  {
    run == [] || (Enabled(s, run[0]) && Possible(Next(s, run[0]), run[1..]))
  }

  function After(s: State, run: seq<Step>): State
    requires Possible(s, run)
    decreases |run|
  {
    if run == [] then s else After(Next(s, run[0]), run[1..])
  }
}
