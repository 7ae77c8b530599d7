/** The signature-driven reader on the tree of a message body: what it accepts, what
    it delivers, and what happens to received descriptors. */
module Decode {
  import opened Options
  import opened Signature
  import opened Values
  import opened Wire

  const MAX_TYPE_RECURSION := 32

  /** Containers open around the value being read. A variant starts a new signature,
      but it does not reset the body's total depth. */
  datatype Depth = Depth(arrays: nat, structs: nat, total: nat)

  const TOP := Depth(0, 0, 0)

  function Enter(d: Depth, kind: char): Depth {
    match kind
    case 'a' => Depth(d.arrays + 1, d.structs, d.total + 1)
    case '(' => Depth(d.arrays, d.structs + 1, d.total + 1)
    case 'v' => Depth(0, 0, d.total + 1)
    case _ => Depth(d.arrays, d.structs, d.total + 1)
  }

  predicate Within(d: Depth) {
    d.arrays <= MAX_TYPE_RECURSION && d.structs <= MAX_TYPE_RECURSION && d.total <= 2 * MAX_TYPE_RECURSION
  }

  /** The failure state that crosses all recursive readers, with the process-wide
      table of owned descriptors: `open` are the handles that hold one. */
  datatype State = State(ok: bool, remaining: nat, received: seq<nat>, open: set<nat>, next: nat)

  function Elements(s: seq<nat>): set<nat> { set x | x in s }

  /** rollbackFds: close everything received so far, wherever copies of it are. */
  function Rollback(s: State): State {
    s.(open := s.open - Elements(s.received), received := [])
  }

  /** failReceivedFd. */
  function Fail(s: State): State {
    Rollback(s).(ok := false)
  }

  function Refuse(s: State): State { s.(ok := false) }

  /** takeReceivedFd: account for one reference, valid or not, and own it. */
  function TakeFd(s: State, r: FdRef): (Value, State)
    requires s.ok
  {
    if s.remaining == 0 then (Invalid, Fail(s))
    else (Owned(s.next, r), State(true, s.remaining - 1, s.received + [s.next],
        if r.Live? then s.open + {s.next} else s.open, s.next + 1))
  }

  /** readReceivedFd, and the native-carrier branch of unwrapDbus: the budget is
      checked before the duplication is even tried. */
  function ReadFd(s: State, r: FdRef): (Value, State)
    requires s.ok
  {
    if s.remaining > 0 && r.Live? && !r.dupOk then (Invalid, Fail(s)) else TakeFd(s, r)
  }

  /** A basic value: object paths and signatures arrive as plain strings. */
  function ReadBasic(c: char, p: Payload): Value {
    Scalar(if c in "og" then 's' else c, p)
  }

  function BytesOf(ws: seq<Tree>): seq<int> {
    if ws == [] then [] else [if ws[0].Leaf? && ws[0].payload.Num? then ws[0].payload.n else 0] + BytesOf(ws[1..])
  }

  function TextsOf(ws: seq<Tree>): seq<string> {
    if ws == [] then [] else [if ws[0].Leaf? && ws[0].payload.Str? then ws[0].payload.s else ""] + TextsOf(ws[1..])
  }

  /** A QVariant as Qt hands it over: an undecoded container, a variant, a descriptor,
      or a value that is native already (containers only for messages that never left
      the process). */
  datatype Carrier =
    | Argument(w: Tree)
    | VariantOf(c: Carrier)
    | NativeMap(entries: seq<NativeEntry>)
    | NativeList(items: seq<Carrier>)
    | NativeFd(fd: FdRef)
    | NativeBytes(bytes: seq<int>)
    | NativeTexts(texts: seq<string>)
    | NativeScalar(code: char, payload: Payload)
    | NoValue

  datatype NativeEntry = NativeEntry(key: string, c: Carrier)

  /** What Qt makes of a variant's payload: scalars, byte arrays, string lists and
      nested variants are demarshalled eagerly, other containers are not. A descriptor
      that cannot be duplicated then looks like an invalid one. */
  function CarrierOf(w: Tree): Carrier {
    match w
    case Leaf(c, p) => if p.Fd? then NativeFd(if p.fd.Live? && !p.fd.dupOk then Bad else p.fd) else NativeScalar(c, p)
    case Box(_, inner) => VariantOf(CarrierOf(inner))
    case Sequence(e, items) =>
      if e == "y" then NativeBytes(BytesOf(items))
      else if e == "s" then NativeTexts(TextsOf(items))
      else Argument(w)
    case _ => Argument(w)
  }

  /** The descriptor behind any number of nested variants could not be duplicated. */
  predicate EagerDupFailed(w: Tree) {
    match w
    case Leaf(_, p) => p.Fd? && p.fd.Live? && !p.fd.dupOk
    case Box(_, inner) => EagerDupFailed(inner)
    case _ => false
  }

  /** readBySignature. Every recursive call is one container deeper, and no call is
      made deeper than 64: that bound is the termination measure. */
  function Read(q: Qt, w: Tree, d: Depth, s: State): (Value, State)
    requires d.total <= 2 * MAX_TYPE_RECURSION
    decreases 2 * MAX_TYPE_RECURSION - d.total, 0
  {
    if !s.ok then (Invalid, s)
    else match w
      case Leaf(c, p) => if p.Fd? then ReadFd(s, p.fd) else (ReadBasic(c, p), s)
      case Sequence(e, items) =>
        var d' := Enter(d, 'a');
        if !Within(d') then (Invalid, Refuse(s))
        else if e == "y" then (ByteArray(BytesOf(items)), s)
        else if e == "s" then (StringList(TextsOf(items)), s)
        else ListIfOk(ReadItems(q, items, d', s))
      case Record(ms) =>
        var d' := Enter(d, '(');
        if !Within(d') then (Invalid, Refuse(s)) else ListIfOk(ReadItems(q, ms, d', s))
      case Table(_, _, entries) =>
        var d' := Enter(d, 'a');
        if !Within(d') then (Invalid, Refuse(s)) else MapIfOk(ReadEntries(q, entries, d', s, []))
      case Box(_, inner) =>
        var d' := Enter(d, 'v');
        if !Within(d') then (Invalid, Refuse(s))
        else if EagerDupFailed(inner) then (Invalid, Fail(s))
        else Unwrap(q, CarrierOf(inner), d', s)
      case Pair(_, _) => (Invalid, Refuse(s))
  }

  function ListIfOk(r: (seq<Value>, State)): (Value, State) {
    if r.1.ok then (List(r.0), r.1) else (Invalid, r.1)
  }

  function MapIfOk(r: (seq<Entry>, State)): (Value, State) {
    if r.1.ok then (Map(r.0), r.1) else (Invalid, r.1)
  }

  /** The walk over array elements or struct members; it stops at the first failure. */
  function ReadItems(q: Qt, items: seq<Tree>, d: Depth, s: State): (seq<Value>, State)
    requires d.total <= 2 * MAX_TYPE_RECURSION
    decreases 2 * MAX_TYPE_RECURSION - d.total, 1, |items|
  {
    if items == [] || !s.ok then ([], s)
    else
      var first := Read(q, items[0], d, s);
      if !first.1.ok then ([], first.1)
      else
        var rest := ReadItems(q, items[1..], d, first.1);
        ([first.0] + rest.0, rest.1)
  }

  function ReadEntries(q: Qt, entries: seq<Tree>, d: Depth, s: State, m: seq<Entry>): (seq<Entry>, State)
    requires d.total <= 2 * MAX_TYPE_RECURSION
    decreases 2 * MAX_TYPE_RECURSION - d.total, 1, |entries|
  {
    if entries == [] || !s.ok then (m, s)
    else
      var d' := Enter(d, '{');
      if !Within(d') || !entries[0].Pair? then (m, Refuse(s))
      else
        var key := Read(q, entries[0].first, d', s);
        var value := Read(q, entries[0].second, d', key.1);
        if !value.1.ok then (m, value.1)
        else ReadEntries(q, entries[1..], d, value.1, Insert(m, q.toText(key.0), value.0))
  }

  /** unwrapDbus. */
  function Unwrap(q: Qt, c: Carrier, d: Depth, s: State): (Value, State)
    requires d.total <= 2 * MAX_TYPE_RECURSION
    decreases 2 * MAX_TYPE_RECURSION - d.total, 2
  {
    if !s.ok then (Invalid, s)
    else match c
      case Argument(w) => Read(q, w, d, s)
      case VariantOf(inner) =>
        var d' := Enter(d, 'v');
        if !Within(d') then (Invalid, Refuse(s)) else Unwrap(q, inner, d', s)
      case NativeList(items) =>
        var d' := Enter(d, 'a');
        if !Within(d') then (Invalid, Refuse(s)) else ListIfOk(UnwrapItems(q, items, d', s))
      case NativeMap(entries) =>
        var d' := Enter(d, 'a');
        if !Within(d') then (Invalid, Refuse(s)) else MapIfOk(UnwrapEntries(q, entries, d', s, []))
      case NativeFd(r) => ReadFd(s, r)
      case NativeBytes(bytes) => if Within(Enter(d, 'a')) then (ByteArray(bytes), s) else (Invalid, Refuse(s))
      case NativeTexts(texts) => if Within(Enter(d, 'a')) then (StringList(texts), s) else (Invalid, Refuse(s))
      case NativeScalar(c, p) => (Scalar(c, p), s)
      case NoValue => (Invalid, Refuse(s))
  }

  function UnwrapItems(q: Qt, items: seq<Carrier>, d: Depth, s: State): (seq<Value>, State)
    requires d.total <= 2 * MAX_TYPE_RECURSION
    decreases 2 * MAX_TYPE_RECURSION - d.total, 3, |items|
  {
    if items == [] || !s.ok then ([], s)
    else
      var first := Unwrap(q, items[0], d, s);
      if !first.1.ok then ([], first.1)
      else
        var rest := UnwrapItems(q, items[1..], d, first.1);
        ([first.0] + rest.0, rest.1)
  }

  function UnwrapEntries(q: Qt, entries: seq<NativeEntry>, d: Depth, s: State, m: seq<Entry>): (seq<Entry>, State)
    requires d.total <= 2 * MAX_TYPE_RECURSION
    decreases 2 * MAX_TYPE_RECURSION - d.total, 3, |entries|
  {
    if entries == [] || !s.ok then (m, s)
    else
      var d' := Enter(d, '{');
      if !Within(d') then (m, Refuse(s))
      else
        var value := Unwrap(q, entries[0].c, d', s);
        if !value.1.ok then (m, value.1)
        else UnwrapEntries(q, entries[1..], d, value.1, Insert(m, entries[0].key, value.0))
  }

  /** decodeMessage: all arguments or none. */
  function DecodeAll(q: Qt, args: seq<Carrier>, s: State): (seq<Value>, State) {
    UnwrapItems(q, args, TOP, s)
  }

  /** The DecodeState is gone: descriptors nobody delivered are closed with the last
      copy (a map entry overwritten by a later one with the same key, say). */
  function Release(s: State, values: seq<Value>): State {
    s.(open := s.open - (Elements(s.received) - HandlesIn(values)))
  }

  function DecodeMessage(q: Qt, args: seq<Carrier>, limit: nat, open: set<nat>, next: nat): (Option<seq<Value>>, State) {
    var r := DecodeAll(q, args, State(true, limit, [], open, next));
    if r.1.ok then (Some(r.0), Release(r.1, r.0)) else (None, Rollback(r.1))
  }

  function Handles(v: Value): set<nat>
    decreases v, 1
  {
    match v
    case Owned(h, _) => {h}
    case List(items) => HandlesIn(items)
    case Map(entries) => HandlesInEntries(entries)
    case Boxed(x) => Handles(x)
    case _ => {}
  }

  function HandlesIn(items: seq<Value>): set<nat>
    decreases items, 0
  {
    if items == [] then {} else Handles(items[0]) + HandlesIn(items[1..])
  }

  function HandlesInEntries(entries: seq<Entry>): set<nat>
    decreases entries, 0
  {
    if entries == [] then {} else Handles(entries[0].value) + HandlesInEntries(entries[1..])
  }

  /** The handles of the valid descriptors among them. */
  function LiveHandles(v: Value): set<nat>
    decreases v, 1
  {
    match v
    case Owned(h, r) => if r.Live? then {h} else {}
    case List(items) => LiveHandlesIn(items)
    case Map(entries) => LiveHandlesInEntries(entries)
    case Boxed(x) => LiveHandles(x)
    case _ => {}
  }

  function LiveHandlesIn(items: seq<Value>): set<nat>
    decreases items, 0
  {
    if items == [] then {} else LiveHandles(items[0]) + LiveHandlesIn(items[1..])
  }

  function LiveHandlesInEntries(entries: seq<Entry>): set<nat>
    decreases entries, 0
  {
    if entries == [] then {} else LiveHandles(entries[0].value) + LiveHandlesInEntries(entries[1..])
  }

  // ---------------------------------------------------------------- descriptors

  /** Bookkeeping that every reader keeps, relative to the table it started from:
      budget spent is descriptors received, and the table holds what it held plus
      received ones only. Once refused, nothing else was opened. */
  ghost predicate Accounts(s: State, limit: nat, open: set<nat>, next: nat) {
    && (forall h :: h in open ==> h < next)
    && next <= s.next
    && (forall i :: 0 <= i < |s.received| ==> next <= s.received[i] < s.next)
    && (forall i, j :: 0 <= i < j < |s.received| ==> s.received[i] != s.received[j])
    && open <= s.open <= open + Elements(s.received)
    && (s.ok ==> |s.received| + s.remaining == limit)
  }

  /** A reader only adds descriptors, with fresh handles, unless it fails. */
  ghost predicate Grows(s: State, s': State) {
    && s.next <= s'.next
    && s.received <= s'.received
    && (forall h :: h < s.next ==> (h in s.open <==> h in s'.open))
  }

  /** Every descriptor in a delivered value was received, and it is open exactly if it
      is a valid one. */
  predicate Delivered(s: State, v: Value)
    decreases v, 1
  {
    match v
    case Owned(h, r) => h in s.received && h < s.next && (h in s.open <==> r.Live?)
    case List(items) => AllDelivered(s, items)
    case Map(entries) => EntriesDelivered(s, entries)
    case Boxed(x) => Delivered(s, x)
    case _ => true
  }

  predicate AllDelivered(s: State, items: seq<Value>)
    decreases items, 0
  {
    items == [] || (Delivered(s, items[0]) && AllDelivered(s, items[1..]))
  }

  predicate EntriesDelivered(s: State, entries: seq<Entry>)
    decreases entries, 0
  {
    entries == [] || (Delivered(s, entries[0].value) && EntriesDelivered(s, entries[1..]))
  }

  lemma {:induction false} DeliveredLater(s: State, s': State, v: Value)
    requires Delivered(s, v) && Grows(s, s')
    ensures Delivered(s', v)
    decreases v, 1
  {
    match v {
      case Owned(h, _) => assert h in s'.received;
      case List(items) => AllDeliveredLater(s, s', items);
      case Map(entries) => EntriesDeliveredLater(s, s', entries);
      case Boxed(x) => DeliveredLater(s, s', x);
      case _ =>
    }
  }

  lemma {:induction false} AllDeliveredLater(s: State, s': State, items: seq<Value>)
    requires AllDelivered(s, items) && Grows(s, s')
    ensures AllDelivered(s', items)
    decreases items, 0
  {
    if items != [] {
      DeliveredLater(s, s', items[0]);
      AllDeliveredLater(s, s', items[1..]);
    }
  }

  lemma {:induction false} EntriesDeliveredLater(s: State, s': State, entries: seq<Entry>)
    requires EntriesDelivered(s, entries) && Grows(s, s')
    ensures EntriesDelivered(s', entries)
    decreases entries, 0
  {
    if entries != [] {
      DeliveredLater(s, s', entries[0].value);
      EntriesDeliveredLater(s, s', entries[1..]);
    }
  }

  lemma {:induction false} InsertDelivered(s: State, m: seq<Entry>, key: string, v: Value)
    requires EntriesDelivered(s, m) && Delivered(s, v)
    ensures EntriesDelivered(s, Insert(m, key, v))
  {
    hide Delivered;
    if m != [] {
      InsertDelivered(s, m[1..], key, v);
    }
  }

  lemma GrowsTransitive(a: State, b: State, c: State)
    requires Grows(a, b) && Grows(b, c)
    ensures Grows(a, c)
  {
  }

  lemma FreshAccounts(limit: nat, open: set<nat>, next: nat)
    requires forall h :: h in open ==> h < next
    ensures Accounts(State(true, limit, [], open, next), limit, open, next)
  {
  }

  lemma RollbackAccounts(s: State, limit: nat, open: set<nat>, next: nat)
    requires Accounts(s, limit, open, next)
    ensures Rollback(s).open == open
    ensures Accounts(Fail(s), limit, open, next)
  {
    forall h | h in open ensures h !in s.received {
    }
  }

  lemma RefuseAccounts(s: State, limit: nat, open: set<nat>, next: nat)
    requires Accounts(s, limit, open, next)
    ensures Accounts(Refuse(s), limit, open, next) && Grows(s, s)
  {
  }

  lemma ReadFdAccounts(s: State, r: FdRef, limit: nat, open: set<nat>, next: nat)
    requires s.ok && Accounts(s, limit, open, next)
    ensures var (v, s') := ReadFd(s, r);
            Accounts(s', limit, open, next) && (s'.ok ==> Grows(s, s') && Delivered(s', v))
  {
    if s.remaining == 0 || (r.Live? && !r.dupOk) {
      RollbackAccounts(s, limit, open, next);
    } else {
      var s' := ReadFd(s, r).1;
      assert s'.received[|s.received|] == s.next;
      forall h | h in s'.open ensures h in open + Elements(s'.received) {
        if h != s.next {
          assert h in open + Elements(s.received);
        }
      }
      NewHandleIsFresh(s, limit, open, next);
    }
  }

  lemma NewHandleIsFresh(s: State, limit: nat, open: set<nat>, next: nat)
    requires Accounts(s, limit, open, next)
    ensures s.next !in s.open
  {
    assert s.next !in open + Elements(s.received);
  }

  /** Reading keeps the books, and what it delivers is backed by them. */
  lemma {:induction false} ReadAccounts(q: Qt, w: Tree, d: Depth, s: State, limit: nat, open: set<nat>, next: nat)
    requires d.total <= 2 * MAX_TYPE_RECURSION && Accounts(s, limit, open, next)
    ensures var (v, s') := Read(q, w, d, s);
            Accounts(s', limit, open, next) && (s'.ok ==> s.ok && Grows(s, s') && Delivered(s', v))
    decreases 2 * MAX_TYPE_RECURSION - d.total, 0
  {
    hide Accounts;
    hide Grows;
    RefuseAccounts(s, limit, open, next);
    if s.ok {
      match w {
        case Leaf(_, p) => if p.Fd? { ReadFdAccounts(s, p.fd, limit, open, next); }
        case Sequence(_, items) => if Within(Enter(d, 'a')) { ReadItemsAccounts(q, items, Enter(d, 'a'), s, limit,
            open, next); }
        case Record(ms) => if Within(Enter(d, '(')) { ReadItemsAccounts(q, ms, Enter(d, '('), s, limit, open, next); }
        case Table(_, _, entries) => if Within(Enter(d, 'a')) { ReadEntriesAccounts(q, entries, Enter(d, 'a'), s, [],
            limit, open, next); }
        case Box(_, inner) =>
          RollbackAccounts(s, limit, open, next);
          if Within(Enter(d, 'v')) { UnwrapAccounts(q, CarrierOf(inner), Enter(d, 'v'), s, limit, open, next); }
        case Pair(_, _) =>
      }
    }
  }

  lemma {:induction false} ReadItemsAccounts(q: Qt, items: seq<Tree>, d: Depth, s: State, limit: nat, open: set<nat>,
      next: nat)
    requires d.total <= 2 * MAX_TYPE_RECURSION && Accounts(s, limit, open, next)
    ensures var (vs, s') := ReadItems(q, items, d, s);
            Accounts(s', limit, open, next) && (s'.ok ==> s.ok && Grows(s, s') && AllDelivered(s', vs))
    decreases 2 * MAX_TYPE_RECURSION - d.total, 1, |items|
  {
    hide Accounts;
    hide Grows;
    hide Delivered;
    RefuseAccounts(s, limit, open, next);
    if items != [] && s.ok {
      var first := Read(q, items[0], d, s);
      ReadAccounts(q, items[0], d, s, limit, open, next);
      if first.1.ok {
        var rest := ReadItems(q, items[1..], d, first.1);
        ReadItemsAccounts(q, items[1..], d, first.1, limit, open, next);
        if rest.1.ok {
          GrowsTransitive(s, first.1, rest.1);
          DeliveredLater(first.1, rest.1, first.0);
        }
      }
    }
  }

  lemma {:induction false} ReadEntriesAccounts(q: Qt, entries: seq<Tree>, d: Depth, s: State, m: seq<Entry>,
      limit: nat, open: set<nat>, next: nat)
    requires d.total <= 2 * MAX_TYPE_RECURSION && Accounts(s, limit, open, next) && EntriesDelivered(s, m)
    ensures var (es, s') := ReadEntries(q, entries, d, s, m);
            Accounts(s', limit, open, next) && (s'.ok ==> s.ok && Grows(s, s') && EntriesDelivered(s', es))
    decreases 2 * MAX_TYPE_RECURSION - d.total, 1, |entries|
  {
    hide Accounts;
    hide Grows;
    hide Delivered;
    RefuseAccounts(s, limit, open, next);
    var d' := Enter(d, '{');
    if entries != [] && s.ok && Within(d') && entries[0].Pair? {
      var key := Read(q, entries[0].first, d', s);
      var value := Read(q, entries[0].second, d', key.1);
      ReadAccounts(q, entries[0].first, d', s, limit, open, next);
      ReadAccounts(q, entries[0].second, d', key.1, limit, open, next);
      if value.1.ok {
        GrowsTransitive(s, key.1, value.1);
        EntriesDeliveredLater(s, value.1, m);
        InsertDelivered(value.1, m, q.toText(key.0), value.0);
        var rest := ReadEntries(q, entries[1..], d, value.1, Insert(m, q.toText(key.0), value.0));
        ReadEntriesAccounts(q, entries[1..], d, value.1, Insert(m, q.toText(key.0), value.0), limit, open, next);
        if rest.1.ok { GrowsTransitive(s, value.1, rest.1); }
      }
    }
  }

  lemma {:induction false} UnwrapAccounts(q: Qt, c: Carrier, d: Depth, s: State, limit: nat, open: set<nat>, next: nat)
    requires d.total <= 2 * MAX_TYPE_RECURSION && Accounts(s, limit, open, next)
    ensures var (v, s') := Unwrap(q, c, d, s);
            Accounts(s', limit, open, next) && (s'.ok ==> s.ok && Grows(s, s') && Delivered(s', v))
    decreases 2 * MAX_TYPE_RECURSION - d.total, 2
  {
    hide Accounts;
    hide Grows;
    RefuseAccounts(s, limit, open, next);
    if s.ok {
      match c {
        case Argument(w) => ReadAccounts(q, w, d, s, limit, open, next);
        case VariantOf(inner) => if Within(Enter(d, 'v')) { UnwrapAccounts(q, inner, Enter(d, 'v'), s, limit, open, next); }
        case NativeList(items) => if Within(Enter(d, 'a')) { UnwrapItemsAccounts(q, items, Enter(d, 'a'), s, limit,
            open, next); }
        case NativeMap(entries) => if Within(Enter(d, 'a')) { UnwrapEntriesAccounts(q, entries, Enter(d, 'a'), s, [],
            limit, open, next); }
        case NativeFd(r) => ReadFdAccounts(s, r, limit, open, next);
        case _ =>
      }
    }
  }

  lemma {:induction false} UnwrapItemsAccounts(q: Qt, items: seq<Carrier>, d: Depth, s: State, limit: nat,
      open: set<nat>, next: nat)
    requires d.total <= 2 * MAX_TYPE_RECURSION && Accounts(s, limit, open, next)
    ensures var (vs, s') := UnwrapItems(q, items, d, s);
            Accounts(s', limit, open, next) && (s'.ok ==> s.ok && Grows(s, s') && AllDelivered(s', vs))
    decreases 2 * MAX_TYPE_RECURSION - d.total, 3, |items|
  {
    hide Accounts;
    hide Grows;
    hide Delivered;
    RefuseAccounts(s, limit, open, next);
    if items != [] && s.ok {
      var first := Unwrap(q, items[0], d, s);
      UnwrapAccounts(q, items[0], d, s, limit, open, next);
      if first.1.ok {
        var rest := UnwrapItems(q, items[1..], d, first.1);
        UnwrapItemsAccounts(q, items[1..], d, first.1, limit, open, next);
        if rest.1.ok {
          GrowsTransitive(s, first.1, rest.1);
          DeliveredLater(first.1, rest.1, first.0);
        }
      }
    }
  }

  lemma {:induction false} UnwrapEntriesAccounts(q: Qt, entries: seq<NativeEntry>, d: Depth, s: State, m: seq<Entry>,
      limit: nat, open: set<nat>, next: nat)
    requires d.total <= 2 * MAX_TYPE_RECURSION && Accounts(s, limit, open, next) && EntriesDelivered(s, m)
    ensures var (es, s') := UnwrapEntries(q, entries, d, s, m);
            Accounts(s', limit, open, next) && (s'.ok ==> s.ok && Grows(s, s') && EntriesDelivered(s', es))
    decreases 2 * MAX_TYPE_RECURSION - d.total, 3, |entries|
  {
    hide Accounts;
    hide Grows;
    hide Delivered;
    RefuseAccounts(s, limit, open, next);
    var d' := Enter(d, '{');
    if entries != [] && s.ok && Within(d') {
      var value := Unwrap(q, entries[0].c, d', s);
      UnwrapAccounts(q, entries[0].c, d', s, limit, open, next);
      if value.1.ok {
        EntriesDeliveredLater(s, value.1, m);
        InsertDelivered(value.1, m, entries[0].key, value.0);
        var m' := Insert(m, entries[0].key, value.0);
        var rest := UnwrapEntries(q, entries[1..], d, value.1, m');
        UnwrapEntriesAccounts(q, entries[1..], d, value.1, m', limit, open, next);
        if rest.1.ok { GrowsTransitive(s, value.1, rest.1); }
      }
    }
  }

  lemma {:induction false} DeliveredHandles(s: State, v: Value, h: nat)
    requires Delivered(s, v)
    ensures h in LiveHandles(v) ==> h in Handles(v)
    ensures h in Handles(v) ==> h in s.received && (h in s.open <==> h in LiveHandles(v))
    decreases v, 1
  {
    match v {
      case List(items) => AllDeliveredHandles(s, items, h);
      case Map(entries) => EntriesDeliveredHandles(s, entries, h);
      case Boxed(x) => DeliveredHandles(s, x, h);
      case _ =>
    }
  }

  lemma {:induction false} AllDeliveredHandles(s: State, items: seq<Value>, h: nat)
    requires AllDelivered(s, items)
    ensures h in LiveHandlesIn(items) ==> h in HandlesIn(items)
    ensures h in HandlesIn(items) ==> h in s.received && (h in s.open <==> h in LiveHandlesIn(items))
    decreases items, 0
  {
    if items != [] {
      DeliveredHandles(s, items[0], h);
      AllDeliveredHandles(s, items[1..], h);
    }
  }

  lemma {:induction false} EntriesDeliveredHandles(s: State, entries: seq<Entry>, h: nat)
    requires EntriesDelivered(s, entries)
    ensures h in LiveHandlesInEntries(entries) ==> h in HandlesInEntries(entries)
    ensures h in HandlesInEntries(entries) ==> h in s.received && (h in s.open <==> h in LiveHandlesInEntries(entries))
    decreases entries, 0
  {
    if entries != [] {
      DeliveredHandles(s, entries[0].value, h);
      EntriesDeliveredHandles(s, entries[1..], h);
    }
  }

  /** Atomic decode. A failed message leaves the process's descriptors exactly as they
      were; a decoded one adds exactly the valid descriptors it delivers, all of them
      new and no more than the budget, and spent budget equals references received. */
  lemma DecodeIsAtomic(q: Qt, args: seq<Carrier>, limit: nat, open: set<nat>, next: nat)
    requires forall h :: h in open ==> h < next
    ensures var (result, s) := DecodeMessage(q, args, limit, open, next);
            && (result.None? ==> s.open == open)
            && (result.Some? ==>
                  && s.open == open + LiveHandlesIn(result.value)
                  && open !! LiveHandlesIn(result.value)
                  && |s.open| == |open| + |LiveHandlesIn(result.value)|
                  && |LiveHandlesIn(result.value)| <= limit
                  && |s.received| + s.remaining == limit)
  {
    var start := State(true, limit, [], open, next);
    FreshAccounts(limit, open, next);
    var (values, s) := DecodeAll(q, args, start);
    UnwrapItemsAccounts(q, args, TOP, start, limit, open, next);
    RollbackAccounts(s, limit, open, next);
    if s.ok {
      var live := LiveHandlesIn(values);
      forall h ensures h in HandlesIn(values) ==> h in s.received && (h in s.open <==> h in live)
        ensures h in live ==> h in HandlesIn(values)
      {
        AllDeliveredHandles(s, values, h);
      }
      assert open !! Elements(s.received);
      assert live <= Elements(s.received);
      assert Release(s, values).open == open + live;
      ElementsBound(s.received);
      SubsetSize(live, Elements(s.received));
    }
  }

  lemma {:induction false} ElementsBound(xs: seq<nat>)
    ensures |Elements(xs)| <= |xs|
  {
    if xs == [] {
      assert Elements(xs) == {};
    } else {
      ElementsBound(xs[1..]);
      assert Elements(xs) == {xs[0]} + Elements(xs[1..]);
    }
  }

  lemma {:induction false} SubsetSize(a: set<nat>, b: set<nat>)
    requires a <= b
    ensures |a| <= |b|
  {
    assert b == a + (b - a);
  }
}
