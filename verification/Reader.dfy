/** The reader's methods: a cursor over a body's events, the failure state that is
    shared by every recursive call, and the process's table of owned descriptors. */
module Reader {
  import opened Options
  import opened Signature
  import opened Values
  import opened Wire
  import opened Decode
  import Sequences

  /** fdDecodeBudget: a quarter of the descriptor limit, between 64 and 1024; the cap
      when there is no usable limit. */
  function FdDecodeBudget(limit: Option<nat>): (n: nat)
    ensures limit.None? ==> n == 1024
    ensures limit.Some? && limit.value < 256 ==> n == 64
    ensures limit.Some? && limit.value >= 4096 ==> n == 1024
    ensures limit.Some? && 256 <= limit.value < 4096 ==> 4 * n <= limit.value < 4 * n + 4
  {
    if limit.None? then 1024
    else if limit.value / 4 < 64 then 64
    else if limit.value / 4 > 1024 then 1024
    else limit.value / 4
  }

  /** The process-wide descriptors held by UnixFd values, counted as they come and go. */
  class FdTable {
    var open: set<nat>
    var next: nat
    var live: nat

    ghost predicate Valid()
      reads this
    {
      live == |open| && forall h :: h in open ==> h < next
    }

    constructor ()
      ensures Valid() && open == {} && next == 0
    {
      open, next, live := {}, 0, 0;
    }

    /** adoptReceivedDescriptor: a fresh owner; only a valid descriptor counts. */
    method Adopt(r: FdRef) returns (h: nat)
      requires Valid()
      modifies this
      ensures Valid() && h == old(next) && next == h + 1
      ensures open == if r.Live? then old(open) + {h} else old(open)
    {
      h := next;
      next := next + 1;
      if r.Live? {
        open := open + {h};
        live := live + 1;
      }
    }

    /** UnixFd::close, idempotent. */
    method Close(h: nat)
      requires Valid()
      modifies this
      ensures Valid() && open == old(open) - {h} && next == old(next)
    {
      if h in open {
        open := open - {h};
        live := live - 1;
      }
    }
  }

  lemma NoElements(xs: seq<nat>)
    ensures Elements(xs[..0]) == {}
  {
  }

  lemma OneMore(xs: seq<nat>, i: nat)
    requires i < |xs|
    ensures Elements(xs[..i + 1]) == Elements(xs[..i]) + {xs[i]}
  {
    assert xs[..i + 1] == xs[..i] + [xs[i]];
  }

  lemma ReleaseOne(open: set<nat>, done: set<nat>, h: nat, kept: set<nat>)
    ensures open - (done + {h} - kept) == if h in kept then open - (done - kept) else open - (done - kept) - {h}
  {
  }

  class DecodeState {
    const fds: FdTable
    var ok: bool
    var remaining: nat
    var received: seq<nat>

    ghost predicate Valid()
      reads this, fds
    {
      fds.Valid()
    }

    ghost function View(): State
      reads this, fds
    {
      State(ok, remaining, received, fds.open, fds.next)
    }

    constructor (fds: FdTable, limit: nat)
      requires fds.Valid()
      ensures this.fds == fds && Valid()
      ensures View() == State(true, limit, [], fds.open, fds.next)
    {
      this.fds := fds;
      ok, remaining, received := true, limit, [];
    }

    method Refuse()
      requires Valid()
      modifies this
      ensures Valid() && View() == Decode.Refuse(old(View()))
    {
      ok := false;
    }

    method CloseAllBut(kept: set<nat>)
      requires fds.Valid()
      modifies fds
      ensures fds.Valid() && fds.next == old(fds.next)
      ensures fds.open == old(fds.open) - (Elements(received) - kept)
    {
      var i := 0;
      hide Elements;
      NoElements(received);
      while i < |received|
        invariant i <= |received| && fds.Valid() && fds.next == old(fds.next)
        invariant fds.open == old(fds.open) - (Elements(received[..i]) - kept)
      {
        OneMore(received, i);
        ReleaseOne(old(fds.open), Elements(received[..i]), received[i], kept);
        if received[i] !in kept {
          fds.Close(received[i]);
        }
        i := i + 1;
      }
      assert received[..i] == received;
    }

    /** rollbackFds: closes every received descriptor. */
    method RollbackFds()
      requires Valid()
      modifies this, fds
      ensures Valid() && View() == Rollback(old(View()))
    {
      CloseAllBut({});
      received := [];
    }

    /** The end of the state's life after a successful decode: descriptors that are in
        no delivered value close with their last copy. */
    method ReleaseUndelivered(values: seq<Value>)
      requires Valid()
      modifies fds
      ensures Valid() && View() == Release(old(View()), values)
    {
      CloseAllBut(HandlesIn(values));
    }

    /** failReceivedFd. */
    method FailReceivedFd()
      requires Valid()
      modifies this, fds
      ensures Valid() && View() == Fail(old(View()))
    {
      ok := false;
      RollbackFds();
    }

    /** canReceiveFd, duplication and takeReceivedFd. */
    method ReceiveFd(r: FdRef) returns (v: Value)
      requires Valid() && ok
      modifies this, fds
      ensures Valid() && (v, View()) == ReadFd(old(View()), r)
    {
      if remaining == 0 {
        FailReceivedFd();
        return Invalid;
      }
      if r.Live? && !r.dupOk {
        FailReceivedFd();
        return Invalid;
      }
      remaining := remaining - 1;
      var h := fds.Adopt(r);
      received := received + [h];
      return Owned(h, r);
    }

    /** enterDecodeContainer. */
    method EnterContainer(depth: Depth, kind: char) returns (inside: Depth)
      requires Valid() && ok && depth.total <= 2 * MAX_TYPE_RECURSION
      modifies this
      ensures Valid() && inside == Enter(depth, kind)
      ensures View() == if Within(inside) then old(View()) else Decode.Refuse(old(View()))
    {
      inside := Enter(depth, kind);
      ok := ok && Within(inside);
    }
  }

  /** A QDBusArgument in reading position. */
  class Body {
    const events: seq<Event>
    var pos: nat

    constructor (events: seq<Event>)
      ensures this.events == events && pos == 0
    {
      this.events := events;
      pos := 0;
    }

    /** The body continues with the value `w` and then `rest`. */
    ghost predicate At(w: Tree, rest: seq<Event>)
      reads this
    {
      pos <= |events| && events[pos..] == Flatten(w) + rest
    }

    /** The body continues with the values `ws`, the end of their container, and `rest`. */
    ghost predicate AtAll(ws: seq<Tree>, stop: Event, rest: seq<Event>)
      reads this
    {
      pos <= |events| && events[pos..] == FlattenAll(ws) + ([stop] + rest)
    }

    ghost predicate After(rest: seq<Event>)
      reads this
    {
      pos <= |events| && events[pos..] == rest
    }

    /** currentSignature: the type of the value at the cursor. */
    function CurrentSignature(): string
      requires pos <= |events|
      reads this
    {
      var r := Parse(events[pos..]);
      if r.None? then "" else SignatureOf(r.value.0)
    }

    function AtEnd(): bool
      requires pos <= |events|
      reads this
    {
      pos == |events| || IsEnd(events[pos])
    }

    /** operator>>: takes one whole value. */
    method Take(ghost w: Tree, ghost rest: seq<Event>) returns (got: Tree)
      requires At(w, rest)
      modifies this
      ensures got == w && After(rest)
    {
      ParseFlatten(w, rest);
      var r := Parse(events[pos..]);
      Sequences.Drop(Flatten(w), rest);
      assert events[pos..][r.value.1..] == events[pos + r.value.1..];
      pos := pos + r.value.1;
      return r.value.0;
    }

    /** begin and end of a container: one event. */
    method Step(ghost rest: seq<Event>)
      requires pos < |events| && events[pos + 1..] == rest
      modifies this
      ensures After(rest)
    {
      pos := pos + 1;
    }
  }

  /** libdbus only hands over bodies it has validated: every value has some type. */
  ghost predicate Readable(w: Tree) {
    exists t :: WellFormed(t) && Typed(w, t)
  }

  ghost predicate AllReadable(ws: seq<Tree>) {
    forall i :: 0 <= i < |ws| ==> Readable(ws[i])
  }

  ghost predicate AllPairsReadable(ws: seq<Tree>) {
    forall i :: 0 <= i < |ws| ==> ws[i].Pair? && Readable(ws[i].first) && Readable(ws[i].second)
  }

  lemma {:induction false} TypedItemsReadable(ws: seq<Tree>, t: Type)
    requires WellFormed(t) && AllTyped(ws, t)
    ensures AllReadable(ws)
  {
    if ws != [] {
      TypedItemsReadable(ws[1..], t);
      forall i | 0 <= i < |ws| ensures Readable(ws[i]) {
        if i > 0 { assert ws[i] == ws[1..][i - 1]; }
      }
    }
  }

  lemma {:induction false} TypedMembersReadable(ws: seq<Tree>, ts: seq<Type>)
    requires |ws| == |ts| && AllWellFormed(ts) && AllTypedBy(ws, ts)
    ensures AllReadable(ws)
  {
    if ws != [] {
      TypedMembersReadable(ws[1..], ts[1..]);
      forall i | 0 <= i < |ws| ensures Readable(ws[i]) {
        if i > 0 { assert ws[i] == ws[1..][i - 1]; }
      }
    }
  }

  lemma {:induction false} TypedEntriesReadable(ws: seq<Tree>, key: char, t: Type)
    requires key in BASIC_CODES && WellFormed(t) && EntriesTyped(ws, key, t)
    ensures AllPairsReadable(ws)
  {
    if ws != [] {
      TypedEntriesReadable(ws[1..], key, t);
      assert WellFormed(Type.Basic(key));
      forall i | 0 <= i < |ws| ensures ws[i].Pair? && Readable(ws[i].first) && Readable(ws[i].second) {
        if i > 0 { assert ws[i] == ws[1..][i - 1]; }
      }
    }
  }

  /** What the text at the cursor says about the value there. */
  lemma AtCursor(b: Body, w: Tree, rest: seq<Event>, t: Type)
    requires b.At(w, rest) && WellFormed(t) && Typed(w, t)
    ensures b.CurrentSignature() == Print(t) != ""
    ensures BasicText(Print(t)) <==> w.Leaf?
    ensures Print(t) == "v" <==> w.Box?
    ensures Print(t)[0] == '(' <==> w.Record?
    ensures w.Table? <==> |Print(t)| > 1 && Print(t)[0] == 'a' && Print(t)[1] == '{'
    ensures Print(t)[0] == 'a' <==> w.Sequence? || w.Table?
    ensures w.Sequence? ==> Print(t) == "a" + w.elem && w.elem == Print(t.elem)
  {
    ParseFlatten(w, rest);
    TypedSignature(w, t);
    TextTellsKind(t);
  }

  // --------------------------------------------------------------- the item loop

  /** How far a walk over items has come. */
  ghost predicate ReadingItems(q: Qt, all: seq<Tree>, d: Depth, s0: State, left: seq<Tree>, got: seq<Value>, s: State)
    requires d.total <= 2 * MAX_TYPE_RECURSION
  {
    && s.ok
    && var (vs, end) := ReadItems(q, left, d, s);
       ReadItems(q, all, d, s0).1 == end && (end.ok ==> ReadItems(q, all, d, s0).0 == got + vs)
  }

  lemma ReadingItemsStarts(q: Qt, all: seq<Tree>, d: Depth, s0: State)
    requires d.total <= 2 * MAX_TYPE_RECURSION && s0.ok
    ensures ReadingItems(q, all, d, s0, all, [], s0)
  {
    assert [] + ReadItems(q, all, d, s0).0 == ReadItems(q, all, d, s0).0;
  }

  lemma ReadingItemsStep(q: Qt, all: seq<Tree>, d: Depth, s0: State, left: seq<Tree>, got: seq<Value>, s: State)
    requires d.total <= 2 * MAX_TYPE_RECURSION && ReadingItems(q, all, d, s0, left, got, s) && left != []
    ensures var (v, s') := Read(q, left[0], d, s);
            if s'.ok then ReadingItems(q, all, d, s0, left[1..], got + [v], s') else ReadItems(q, all, d, s0).1 == s'
  {
    hide Read;
    var (v, s') := Read(q, left[0], d, s);
    if s'.ok {
      var rest := ReadItems(q, left[1..], d, s');
      Sequences.Assoc(got, [v], rest.0);
    }
  }

  ghost predicate ReadingEntries(q: Qt, all: seq<Tree>, d: Depth, s0: State, left: seq<Tree>, m: seq<Entry>, s: State)
    requires d.total <= 2 * MAX_TYPE_RECURSION
  {
    s.ok && ReadEntries(q, all, d, s0, []) == ReadEntries(q, left, d, s, m)
  }

  /** The bulk readers for arrays of plain scalars take what the item walk would. */
  function ScalarValues(ws: seq<Tree>): seq<Value> {
    if ws == [] then [] else [if ws[0].Leaf? then ReadBasic(ws[0].code, ws[0].payload) else Invalid] + ScalarValues(ws[1..])
  }

  lemma {:induction false} BulkIsItems(q: Qt, ws: seq<Tree>, c: char, d: Depth, s: State)
    requires AllTyped(ws, Type.Basic(c)) && c != 'h' && d.total <= 2 * MAX_TYPE_RECURSION && s.ok
    ensures ReadItems(q, ws, d, s) == (ScalarValues(ws), s)
  {
    if ws != [] {
      BulkIsItems(q, ws[1..], c, d, s);
    }
  }

  // ------------------------------------------------------------------ the readers

  lemma Opening(b: Body, w: Tree, rest: seq<Event>)
    requires b.At(w, rest)
    ensures b.pos < |b.events|
    ensures w.Sequence? ==> b.events[b.pos + 1..] == FlattenAll(w.items) + ([EndArray] + rest)
    ensures w.Record? ==> b.events[b.pos + 1..] == FlattenAll(w.members) + ([EndStruct] + rest)
    ensures w.Table? ==> b.events[b.pos + 1..] == FlattenAll(w.entries) + ([EndMap] + rest)
  {
    var ev := Flatten(w) + rest;
    assert b.events[b.pos..][1..] == b.events[b.pos + 1..];
    if w.Sequence? {
      assert ev[1..] == FlattenAll(w.items) + ([EndArray] + rest);
    } else if w.Record? {
      assert ev[1..] == FlattenAll(w.members) + ([EndStruct] + rest);
    } else if w.Table? {
      assert ev[1..] == FlattenAll(w.entries) + ([EndMap] + rest);
    }
  }

  lemma NextItem(b: Body, ws: seq<Tree>, stop: Event, rest: seq<Event>)
    requires b.AtAll(ws, stop, rest) && IsEnd(stop)
    ensures b.AtEnd() <==> ws == []
    ensures ws != [] ==> b.At(ws[0], FlattenAll(ws[1..]) + ([stop] + rest))
    ensures ws == [] ==> b.pos < |b.events| && b.events[b.pos + 1..] == rest
  {
    var tail := [stop] + rest;
    assert b.events[b.pos..][0] == b.events[b.pos];
    if ws == [] {
      assert FlattenAll(ws) + tail == tail;
      assert b.events[b.pos..][1..] == b.events[b.pos + 1..];
    } else {
      Sequences.Assoc(Flatten(ws[0]), FlattenAll(ws[1..]), tail);
    }
  }

  /** readBySignature: dispatches on the text at the cursor. While nothing has failed
      it consumes exactly the value there; what it yields and what it does to the
      failure state is `Read`. */
  method ReadBySignature(q: Qt, b: Body, state: DecodeState, depth: Depth, ghost w: Tree,
      ghost rest: seq<Event>) returns (v: Value)
    requires state.Valid() && b.At(w, rest) && Readable(w) && depth.total <= 2 * MAX_TYPE_RECURSION
    modifies b, state, state.fds
    ensures state.Valid() && (v, state.View()) == Read(q, w, depth, old(state.View()))
    ensures state.ok ==> b.After(rest)
    decreases 2 * MAX_TYPE_RECURSION - depth.total, 0
  {
    if !state.ok {
      return Invalid;
    }
    ghost var t :| WellFormed(t) && Typed(w, t);
    AtCursor(b, w, rest, t);
    var sig := b.CurrentSignature();
    if BasicText(sig) {
      var leaf := b.Take(w, rest);
      if sig == "h" {
        v := state.ReceiveFd(leaf.payload.fd);
        return;
      }
      return ReadBasic(leaf.code, leaf.payload);
    }
    var inside := state.EnterContainer(depth, sig[0]);
    if !state.ok {
      return Invalid;
    }
    if sig == "v" {
      v := ReadVariant(q, b, state, inside, w, rest);
    } else if sig[0] == '(' {
      v := ReadStruct(q, b, state, inside, w, rest);
    } else if sig[1] == '{' {
      v := ReadMap(q, b, state, inside, w, rest);
    } else {
      v := ReadArray(q, b, state, inside, sig, w, rest);
    }
  }

  /** The variant branch: Qt demarshals scalar payloads itself, so a failed duplication
      has to be noticed here. */
  method ReadVariant(q: Qt, b: Body, state: DecodeState, inside: Depth, ghost w: Tree,
      ghost rest: seq<Event>) returns (v: Value)
    requires state.Valid() && state.ok && b.At(w, rest) && w.Box? && Readable(w) && Within(inside)
    modifies b, state, state.fds
    ensures state.Valid()
    ensures (v, state.View()) == if EagerDupFailed(w.inner) then (Invalid, Fail(old(state.View())))
                                 else Unwrap(q, CarrierOf(w.inner), inside, old(state.View()))
    ensures state.ok ==> b.After(rest)
    decreases 2 * MAX_TYPE_RECURSION - inside.total, 3
  {
    var box := b.Take(w, rest);
    if EagerDupFailed(box.inner) {
      state.FailReceivedFd();
      return Invalid;
    }
    assert Readable(w.inner);
    ReadableCarriers(w.inner);
    v := UnwrapDbus(q, CarrierOf(box.inner), state, inside);
  }

  method ReadStruct(q: Qt, b: Body, state: DecodeState, inside: Depth, ghost w: Tree,
      ghost rest: seq<Event>) returns (v: Value)
    requires state.Valid() && state.ok && b.At(w, rest) && w.Record? && Readable(w) && Within(inside)
    modifies b, state, state.fds
    ensures state.Valid()
    ensures (v, state.View()) == ListIfOk(ReadItems(q, w.members, inside, old(state.View())))
    ensures state.ok ==> b.After(rest)
    decreases 2 * MAX_TYPE_RECURSION - inside.total, 3
  {
    RecordReadable(w);
    Opening(b, w, rest);
    b.Step(FlattenAll(w.members) + ([EndStruct] + rest));
    var members := ReadElements(q, b, state, inside, w.members, EndStruct, rest);
    return if state.ok then List(members) else Invalid;
  }

  lemma RecordReadable(w: Tree)
    requires Readable(w)
    ensures w.Record? ==> AllReadable(w.members)
    ensures w.Sequence? ==> AllReadable(w.items)
    ensures w.Table? ==> AllPairsReadable(w.entries)
  {
    var t :| WellFormed(t) && Typed(w, t);
    match w {
      case Record(ms) => TypedMembersReadable(ms, t.members);
      case Sequence(_, items) => TypedItemsReadable(items, t.elem);
      case Table(_, _, entries) => TypedEntriesReadable(entries, t.key, t.value);
      case _ =>
    }
  }

  /** The array branches: byte arrays, string lists and plain scalars in bulk; descriptors,
      structs, arrays and variants one by one. */
  method ReadArray(q: Qt, b: Body, state: DecodeState, inside: Depth, sig: string, ghost w: Tree,
      ghost rest: seq<Event>) returns (v: Value)
    requires state.Valid() && state.ok && b.At(w, rest) && w.Sequence? && Readable(w) && Within(inside)
        && sig == "a" + w.elem
    modifies b, state, state.fds
    ensures state.Valid()
    ensures (v, state.View()) == if w.elem == "y" then (ByteArray(BytesOf(w.items)), old(state.View()))
                                 else if w.elem == "s" then (StringList(Decode.TextsOf(w.items)), old(state.View()))
                                 else ListIfOk(ReadItems(q, w.items, inside, old(state.View())))
    ensures state.ok ==> b.After(rest)
    decreases 2 * MAX_TYPE_RECURSION - inside.total, 3
  {
    assert sig[1..] == w.elem;
    if sig == "ay" {
      var whole := b.Take(w, rest);
      return ByteArray(BytesOf(whole.items));
    }
    if sig == "as" {
      var whole := b.Take(w, rest);
      return StringList(Decode.TextsOf(whole.items));
    }
    if |sig| == 2 && sig[1] in "bnqiuxtdgo" {
      ScalarElements(w, sig[1]);
      BulkIsItems(q, w.items, sig[1], inside, state.View());
      var whole := b.Take(w, rest);
      return List(ScalarValues(whole.items));
    }
    RecordReadable(w);
    Opening(b, w, rest);
    b.Step(FlattenAll(w.items) + ([EndArray] + rest));
    var items := ReadElements(q, b, state, inside, w.items, EndArray, rest);
    return if state.ok then List(items) else Invalid;
  }

  lemma ScalarElements(w: Tree, c: char)
    requires Readable(w) && w.Sequence? && w.elem == [c] && c in BASIC_CODES
    ensures AllTyped(w.items, Type.Basic(c))
  {
    var t :| WellFormed(t) && Typed(w, t);
    TextTellsKind(t.elem);
  }

  /** The loop over members or elements. */
  method ReadElements(q: Qt, b: Body, state: DecodeState, inside: Depth, ghost ws: seq<Tree>, ghost stop: Event,
      ghost rest: seq<Event>) returns (got: seq<Value>)
    requires state.Valid() && state.ok && b.AtAll(ws, stop, rest) && IsEnd(stop) && AllReadable(ws) && Within(inside)
    modifies b, state, state.fds
    ensures state.Valid() && state.View() == ReadItems(q, ws, inside, old(state.View())).1
    ensures state.ok ==> got == ReadItems(q, ws, inside, old(state.View())).0 && b.After(rest)
    decreases 2 * MAX_TYPE_RECURSION - inside.total, 1
  {
    got := [];
    ghost var left := ws;
    ReadingItemsStarts(q, ws, inside, state.View());
    NextItem(b, left, stop, rest);
    while !b.AtEnd()
      invariant state.Valid() && b.AtAll(left, stop, rest) && AllReadable(left)
      invariant b.AtEnd() <==> left == []
      invariant ReadingItems(q, ws, inside, old(state.View()), left, got, state.View())
      decreases |left|
    {
      NextItem(b, left, stop, rest);
      ReadingItemsStep(q, ws, inside, old(state.View()), left, got, state.View());
      var v := ReadBySignature(q, b, state, inside, left[0], FlattenAll(left[1..]) + ([stop] + rest));
      if !state.ok {
        return;
      }
      got := got + [v];
      left := left[1..];
      NextItem(b, left, stop, rest);
    }
    NextItem(b, [], stop, rest);
    b.Step(rest);
    assert got + [] == got;
  }

  /** The map branch. */
  method ReadMap(q: Qt, b: Body, state: DecodeState, inside: Depth, ghost w: Tree, ghost rest: seq<Event>) returns (v: Value)
    requires state.Valid() && state.ok && b.At(w, rest) && w.Table? && Readable(w) && Within(inside)
    modifies b, state, state.fds
    ensures state.Valid()
    ensures (v, state.View()) == MapIfOk(ReadEntries(q, w.entries, inside, old(state.View()), []))
    ensures state.ok ==> b.After(rest)
    decreases 2 * MAX_TYPE_RECURSION - inside.total, 3
  {
    RecordReadable(w);
    Opening(b, w, rest);
    b.Step(FlattenAll(w.entries) + ([EndMap] + rest));
    var m: seq<Entry> := [];
    ghost var left := w.entries;
    NextItem(b, left, EndMap, rest);
    while !b.AtEnd()
      invariant state.Valid() && b.AtAll(left, EndMap, rest) && AllPairsReadable(left)
      invariant b.AtEnd() <==> left == []
      invariant ReadingEntries(q, w.entries, inside, old(state.View()), left, m, state.View())
      decreases |left|
    {
      NextItem(b, left, EndMap, rest);
      ghost var before := state.View();
      var key, value;
      key, value := ReadEntry(q, b, state, inside, left[0], FlattenAll(left[1..]) + ([EndMap] + rest));
      if !state.ok {
        return Invalid;
      }
      m := Insert(m, q.toText(key), value);
      left := left[1..];
      NextItem(b, left, EndMap, rest);
    }
    NextItem(b, [], EndMap, rest);
    b.Step(rest);
    return Map(m);
  }

  /** What one round of the map loop does to the failure state. */
  function EntryRead(q: Qt, w: Tree, inside: Depth, s: State): (Value, Value, State)
    requires w.Pair? && inside.total <= 2 * MAX_TYPE_RECURSION
  {
    var entryDepth := Enter(inside, '{');
    if !Within(entryDepth) then (Invalid, Invalid, Decode.Refuse(s))
    else
      var key := Read(q, w.first, entryDepth, s);
      var value := Read(q, w.second, entryDepth, key.1);
      (key.0, value.0, value.1)
  }

  method ReadEntry(q: Qt, b: Body, state: DecodeState, inside: Depth, ghost w: Tree,
      ghost rest: seq<Event>) returns (key: Value, value: Value)
    requires state.Valid() && state.ok && b.At(w, rest) && w.Pair? && Readable(w.first) && Readable(w.second)
        && Within(inside)
    modifies b, state, state.fds
    ensures state.Valid() && state.View() == EntryRead(q, w, inside, old(state.View())).2
    ensures state.ok ==> (key, value, state.View()) == EntryRead(q, w, inside, old(state.View())) && b.After(rest)
    decreases 2 * MAX_TYPE_RECURSION - inside.total, 1
  {
    key, value := Invalid, Invalid;
    var entryDepth := state.EnterContainer(inside, '{');
    if !state.ok {
      return;
    }
    ghost var tail := Flatten(w.second) + ([EndMapEntry] + rest);
    EntryOpening(b, w, rest);
    b.Step(Flatten(w.first) + tail);
    key := ReadBySignature(q, b, state, entryDepth, w.first, tail);
    if !state.ok {
      FailedReadStays(q, w.second, entryDepth, state.View());
      return;
    }
    value := ReadBySignature(q, b, state, entryDepth, w.second, [EndMapEntry] + rest);
    if !state.ok {
      return;
    }
    assert b.events[b.pos..][0] == EndMapEntry && b.events[b.pos..][1..] == b.events[b.pos + 1..] == rest;
    b.Step(rest);
  }

  lemma FailedReadStays(q: Qt, w: Tree, d: Depth, s: State)
    requires !s.ok && d.total <= 2 * MAX_TYPE_RECURSION
    ensures Read(q, w, d, s) == (Invalid, s)
  {
  }

  lemma EntryOpening(b: Body, w: Tree, rest: seq<Event>)
    requires b.At(w, rest) && w.Pair?
    ensures b.pos < |b.events|
    ensures b.events[b.pos + 1..] == Flatten(w.first) + (Flatten(w.second) + ([EndMapEntry] + rest))
  {
    var fa, fb := Flatten(w.first), Flatten(w.second);
    Regroup(BeginMapEntry, fa, fb, EndMapEntry, rest);
    assert b.events[b.pos..][1..] == b.events[b.pos + 1..];
  }

  // -------------------------------------------------------------------- unwrapDbus

  ghost predicate ReadableCarrier(c: Carrier) {
    match c
    case Argument(w) => Readable(w)
    case VariantOf(x) => ReadableCarrier(x)
    case NativeList(items) => forall i :: 0 <= i < |items| ==> ReadableCarrier(items[i])
    case NativeMap(entries) => forall i :: 0 <= i < |entries| ==> ReadableCarrier(entries[i].c)
    case _ => true
  }

  lemma {:induction false} ReadableCarriers(w: Tree)
    requires Readable(w)
    ensures ReadableCarrier(CarrierOf(w))
  {
    if w.Box? {
      var t :| WellFormed(t) && Typed(w, t);
      assert Readable(w.inner);
      ReadableCarriers(w.inner);
    }
  }

  /** unwrapDbus. */
  method UnwrapDbus(q: Qt, c: Carrier, state: DecodeState, depth: Depth) returns (v: Value)
    requires state.Valid() && ReadableCarrier(c) && depth.total <= 2 * MAX_TYPE_RECURSION
    modifies state, state.fds
    ensures state.Valid() && (v, state.View()) == Unwrap(q, c, depth, old(state.View()))
    decreases 2 * MAX_TYPE_RECURSION - depth.total, 2
  {
    if !state.ok {
      return Invalid;
    }
    match c {
      case Argument(w) =>
        var b := new Body(Flatten(w));
        assert b.events[0..] == Flatten(w) + [];
        v := ReadBySignature(q, b, state, depth, w, []);
      case VariantOf(inner) =>
        var inside := state.EnterContainer(depth, 'v');
        if !state.ok {
          return Invalid;
        }
        v := UnwrapDbus(q, inner, state, inside);
      case NativeList(items) =>
        var inside := state.EnterContainer(depth, 'a');
        if !state.ok {
          return Invalid;
        }
        var got := UnwrapList(q, items, state, inside);
        return if state.ok then List(got) else Invalid;
      case NativeMap(entries) =>
        var inside := state.EnterContainer(depth, 'a');
        if !state.ok {
          return Invalid;
        }
        var got := UnwrapMap(q, entries, state, inside);
        return if state.ok then Map(got) else Invalid;
      case NativeFd(r) =>
        v := state.ReceiveFd(r);
      case NativeBytes(bytes) =>
        var inside := state.EnterContainer(depth, 'a');
        return if state.ok then ByteArray(bytes) else Invalid;
      case NativeTexts(texts) =>
        var inside := state.EnterContainer(depth, 'a');
        return if state.ok then StringList(texts) else Invalid;
      case NativeScalar(code, p) =>
        return Scalar(code, p);
      case NoValue =>
        state.Refuse();
        return Invalid;
    }
  }

  ghost predicate UnwrappingItems(q: Qt, all: seq<Carrier>, d: Depth, s0: State, left: seq<Carrier>, got: seq<Value>,
      s: State)
    requires d.total <= 2 * MAX_TYPE_RECURSION
  {
    && s.ok
    && var (vs, end) := UnwrapItems(q, left, d, s);
       UnwrapItems(q, all, d, s0).1 == end && (end.ok ==> UnwrapItems(q, all, d, s0).0 == got + vs)
  }

  lemma UnwrappingStep(q: Qt, all: seq<Carrier>, d: Depth, s0: State, left: seq<Carrier>, got: seq<Value>, s: State)
    requires d.total <= 2 * MAX_TYPE_RECURSION && UnwrappingItems(q, all, d, s0, left, got, s) && left != []
    ensures var (v, s') := Unwrap(q, left[0], d, s);
            if s'.ok then UnwrappingItems(q, all, d, s0, left[1..], got + [v], s') else UnwrapItems(q, all, d, s0).1 == s'
  {
    hide Unwrap;
    var (v, s') := Unwrap(q, left[0], d, s);
    if s'.ok {
      var rest := UnwrapItems(q, left[1..], d, s');
      Sequences.Assoc(got, [v], rest.0);
    }
  }

  method UnwrapList(q: Qt, items: seq<Carrier>, state: DecodeState, depth: Depth) returns (got: seq<Value>)
    requires state.Valid() && state.ok && (forall i :: 0 <= i < |items| ==> ReadableCarrier(items[i]))
        && depth.total <= 2 * MAX_TYPE_RECURSION
    modifies state, state.fds
    ensures state.Valid() && state.View() == UnwrapItems(q, items, depth, old(state.View())).1
    ensures state.ok ==> got == UnwrapItems(q, items, depth, old(state.View())).0
    decreases 2 * MAX_TYPE_RECURSION - depth.total, 3
  {
    got := [];
    var i := 0;
    assert items[0..] == items
        && [] + UnwrapItems(q, items, depth, state.View()).0 == UnwrapItems(q, items, depth, state.View()).0;
    while i < |items|
      invariant i <= |items| && state.Valid()
      invariant UnwrappingItems(q, items, depth, old(state.View()), items[i..], got, state.View())
    {
      UnwrappingStep(q, items, depth, old(state.View()), items[i..], got, state.View());
      assert items[i..][1..] == items[i + 1..];
      var v := UnwrapDbus(q, items[i], state, depth);
      if !state.ok {
        return;
      }
      got := got + [v];
      i := i + 1;
    }
    assert items[i..] == [] && got + [] == got;
  }

  method UnwrapMap(q: Qt, entries: seq<NativeEntry>, state: DecodeState, depth: Depth) returns (m: seq<Entry>)
    requires state.Valid() && state.ok && (forall i :: 0 <= i < |entries| ==> ReadableCarrier(entries[i].c)) && Within(depth)
    modifies state, state.fds
    ensures state.Valid() && state.View() == UnwrapEntries(q, entries, depth, old(state.View()), []).1
    ensures state.ok ==> m == UnwrapEntries(q, entries, depth, old(state.View()), []).0
    decreases 2 * MAX_TYPE_RECURSION - depth.total, 3
  {
    m := [];
    var i := 0;
    assert entries[0..] == entries;
    while i < |entries|
      invariant i <= |entries| && state.Valid() && state.ok
      invariant UnwrapEntries(q, entries, depth, old(state.View()), []) == UnwrapEntries(q, entries[i..], depth,
          state.View(), m)
    {
      assert entries[i..][1..] == entries[i + 1..];
      var child := state.EnterContainer(depth, '{');
      if !state.ok {
        return;
      }
      var v := UnwrapDbus(q, entries[i].c, state, child);
      if !state.ok {
        return;
      }
      m := Insert(m, entries[i].key, v);
      i := i + 1;
    }
  }

  /** decodeMessage, together with the end of its DecodeState's life. All arguments are
      delivered, or none and no descriptor stays behind. */
  method DecodeMessage(q: Qt, args: seq<Carrier>, fds: FdTable, limit: nat) returns (r: Option<seq<Value>>)
    requires fds.Valid() && forall i :: 0 <= i < |args| ==> ReadableCarrier(args[i])
    modifies fds
    ensures fds.Valid()
    ensures r == Decode.DecodeMessage(q, args, limit, old(fds.open), old(fds.next)).0
    ensures r.None? ==> fds.open == old(fds.open) && fds.live == old(fds.live)
    ensures r.Some? ==> fds.open == old(fds.open) + LiveHandlesIn(r.value) && fds.live == old(fds.live) + |LiveHandlesIn(r.value)|
  {
    DecodeIsAtomic(q, args, limit, fds.open, fds.next);
    var state := new DecodeState(fds, limit);
    var decoded := UnwrapList(q, args, state, TOP);
    if !state.ok {
      state.RollbackFds();
      return None;
    }
    state.ReleaseUndelivered(decoded);
    return Some(decoded);
  }
}
