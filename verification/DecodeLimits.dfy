/** Exactly which bodies the reader accepts: its nesting limits, its descriptor budget
    and duplication failures, and nothing else. */
module DecodeLimits {
  import opened Signature
  import opened Values
  import opened Wire
  import opened Decode

  /** Array nesting up to the next variant, whose payload counts afresh. */
  function ArrayHeight(w: Tree): nat
    decreases w, 1
  {
    match w
    case Leaf(_, _) => 0
    case Record(ms) => ArrayHeights(ms)
    case Sequence(_, items) => 1 + ArrayHeights(items)
    case Table(_, _, entries) => 1 + ArrayHeights(entries)
    case Pair(a, b) => Max(ArrayHeight(a), ArrayHeight(b))
    case Box(_, _) => 0
  }

  function ArrayHeights(ws: seq<Tree>): nat
    decreases ws, 0
  {
    if ws == [] then 0 else Max(ArrayHeight(ws[0]), ArrayHeights(ws[1..]))
  }

  /** Struct nesting up to the next variant; the reader does not count dict entries here. */
  function StructHeight(w: Tree): nat
    decreases w, 1
  {
    match w
    case Leaf(_, _) => 0
    case Record(ms) => 1 + StructHeights(ms)
    case Sequence(_, items) => StructHeights(items)
    case Table(_, _, entries) => StructHeights(entries)
    case Pair(a, b) => Max(StructHeight(a), StructHeight(b))
    case Box(_, _) => 0
  }

  function StructHeights(ws: seq<Tree>): nat
    decreases ws, 0
  {
    if ws == [] then 0 else Max(StructHeight(ws[0]), StructHeights(ws[1..]))
  }

  /** All containers, dict entries and variants, payloads included. */
  function TotalHeight(w: Tree): nat
    decreases w, 1
  {
    match w
    case Leaf(_, _) => 0
    case Record(ms) => 1 + TotalHeights(ms)
    case Sequence(_, items) => 1 + TotalHeights(items)
    case Table(_, _, entries) => 1 + TotalHeights(entries)
    case Pair(a, b) => 1 + Max(TotalHeight(a), TotalHeight(b))
    case Box(_, inner) => 1 + TotalHeight(inner)
  }

  function TotalHeights(ws: seq<Tree>): nat
    decreases ws, 0
  {
    if ws == [] then 0 else Max(TotalHeight(ws[0]), TotalHeights(ws[1..]))
  }

  /** Every variant payload keeps the per-kind limits by itself. */
  predicate ShallowPayloads(w: Tree)
    decreases w, 1
  {
    match w
    case Leaf(_, _) => true
    case Record(ms) => AllShallow(ms)
    case Sequence(_, items) => AllShallow(items)
    case Table(_, _, entries) => AllShallow(entries)
    case Pair(a, b) => ShallowPayloads(a) && ShallowPayloads(b)
    case Box(_, inner) => ArrayHeight(inner) <= 32 && StructHeight(inner) <= 32 && ShallowPayloads(inner)
  }

  predicate AllShallow(ws: seq<Tree>)
    decreases ws, 0
  {
    ws == [] || (ShallowPayloads(ws[0]) && AllShallow(ws[1..]))
  }

  function FdCount(w: Tree): nat
    decreases w, 1
  {
    match w
    case Leaf(_, p) => if p.Fd? then 1 else 0
    case Record(ms) => FdCounts(ms)
    case Sequence(_, items) => FdCounts(items)
    case Table(_, _, entries) => FdCounts(entries)
    case Pair(a, b) => FdCount(a) + FdCount(b)
    case Box(_, inner) => FdCount(inner)
  }

  function FdCounts(ws: seq<Tree>): nat
    decreases ws, 0
  {
    if ws == [] then 0 else FdCount(ws[0]) + FdCounts(ws[1..])
  }

  predicate DupsOk(w: Tree)
    decreases w, 1
  {
    match w
    case Leaf(_, p) => p.Fd? && p.fd.Live? ==> p.fd.dupOk
    case Record(ms) => AllDupsOk(ms)
    case Sequence(_, items) => AllDupsOk(items)
    case Table(_, _, entries) => AllDupsOk(entries)
    case Pair(a, b) => DupsOk(a) && DupsOk(b)
    case Box(_, inner) => DupsOk(inner)
  }

  predicate AllDupsOk(ws: seq<Tree>)
    decreases ws, 0
  {
    ws == [] || (DupsOk(ws[0]) && AllDupsOk(ws[1..]))
  }

  /** A value fits below the containers already open. */
  predicate FitsBelow(w: Tree, d: Depth) {
    && d.arrays + ArrayHeight(w) <= 32
    && d.structs + StructHeight(w) <= 32
    && d.total + TotalHeight(w) <= 64
    && ShallowPayloads(w)
  }

  predicate AllFitBelow(ws: seq<Tree>, d: Depth) {
    && d.arrays + ArrayHeights(ws) <= 32
    && d.structs + StructHeights(ws) <= 32
    && d.total + TotalHeights(ws) <= 64
    && AllShallow(ws)
  }

  /** The result of reading something with `n` descriptors that fits or not. */
  ghost predicate AcceptedIff(fits: bool, n: nat, dups: bool, s: State, s': State) {
    && (s'.ok <==> fits && n <= s.remaining && dups)
    && (s'.ok ==> s'.remaining + n == s.remaining)
  }

  lemma {:induction false} PlainItems(ws: seq<Tree>, c: char)
    requires AllTyped(ws, Type.Basic(c)) && c != 'h'
    ensures ArrayHeights(ws) == 0 && StructHeights(ws) == 0 && TotalHeights(ws) == 0
    ensures AllShallow(ws) && FdCounts(ws) == 0 && AllDupsOk(ws)
  {
    if ws != [] {
      PlainItems(ws[1..], c);
    }
  }

  /** The reader accepts a body if and only if it nests within the limits, has no more
      descriptors than the budget and every one of them can be duplicated. */
  lemma {:induction false} ReadAccepts(q: Qt, w: Tree, t: Type, d: Depth, s: State)
    requires Typed(w, t) && s.ok && Within(d)
    ensures AcceptedIff(FitsBelow(w, d), FdCount(w), DupsOk(w), s, Read(q, w, d, s).1)
    decreases w, 1
  {
    match w {
      case Leaf(_, _) =>
      case Sequence(e, items) =>
        var d' := Enter(d, 'a');
        if e == "y" || e == "s" {
          PlainSequence(w, t);
        } else if Within(d') {
          ItemsAccept(q, items, t.elem, d', s);
        }
      case Record(ms) =>
        var d' := Enter(d, '(');
        if Within(d') { MembersAccept(q, ms, t.members, d', s); }
      case Table(_, _, entries) =>
        var d' := Enter(d, 'a');
        if Within(d') { EntriesAccept(q, entries, t.key, t.value, d', s, []); }
      case Box(ty, inner) =>
        var d' := Enter(d, 'v');
        EagerFailureIsRefused(inner);
        if Within(d') && !EagerDupFailed(inner) { PayloadAccepts(q, inner, ty, d', s); }
    }
  }

  lemma PlainSequence(w: Tree, t: Type)
    requires Typed(w, t) && w.Sequence? && (w.elem == "y" || w.elem == "s")
    ensures ArrayHeight(w) == 1 && StructHeight(w) == 0 && TotalHeight(w) == 1
    ensures ShallowPayloads(w) && FdCount(w) == 0 && DupsOk(w)
  {
    BasicElement(t.elem);
    PlainItems(w.items, w.elem[0]);
  }

  lemma BasicElement(t: Type)
    ensures Print(t) == "y" ==> t == Type.Basic('y')
    ensures Print(t) == "s" ==> t == Type.Basic('s')
  {
  }

  lemma EagerFailureIsRefused(w: Tree)
    ensures EagerDupFailed(w) ==> !DupsOk(w)
  {
  }

  lemma {:induction false} PayloadAccepts(q: Qt, w: Tree, t: Type, d: Depth, s: State)
    requires Typed(w, t) && s.ok && Within(d) && !EagerDupFailed(w)
    ensures AcceptedIff(FitsBelow(w, d), FdCount(w), DupsOk(w), s, Unwrap(q, CarrierOf(w), d, s).1)
    decreases w, 2
  {
    match w {
      case Leaf(_, _) =>
      case Sequence(e, items) =>
        if e == "y" || e == "s" { PlainSequence(w, t); } else { ReadAccepts(q, w, t, d, s); }
      case Record(_) => ReadAccepts(q, w, t, d, s);
      case Table(_, _, _) => ReadAccepts(q, w, t, d, s);
      case Box(ty, inner) =>
        var d' := Enter(d, 'v');
        if Within(d') { PayloadAccepts(q, inner, ty, d', s); }
    }
  }

  lemma {:induction false} ItemsAccept(q: Qt, items: seq<Tree>, t: Type, d: Depth, s: State)
    requires AllTyped(items, t) && s.ok && Within(d)
    ensures AcceptedIff(AllFitBelow(items, d), FdCounts(items), AllDupsOk(items), s, ReadItems(q, items, d, s).1)
    decreases items, 0
  {
    if items != [] {
      ReadAccepts(q, items[0], t, d, s);
      var s1 := Read(q, items[0], d, s).1;
      if s1.ok { ItemsAccept(q, items[1..], t, d, s1); }
    }
  }

  lemma {:induction false} MembersAccept(q: Qt, ms: seq<Tree>, ts: seq<Type>, d: Depth, s: State)
    requires |ms| == |ts| && AllTypedBy(ms, ts) && s.ok && Within(d)
    ensures AcceptedIff(AllFitBelow(ms, d), FdCounts(ms), AllDupsOk(ms), s, ReadItems(q, ms, d, s).1)
    decreases ms, 0
  {
    if ms != [] {
      ReadAccepts(q, ms[0], ts[0], d, s);
      var s1 := Read(q, ms[0], d, s).1;
      if s1.ok { MembersAccept(q, ms[1..], ts[1..], d, s1); }
    }
  }

  lemma {:induction false} EntriesAccept(q: Qt, entries: seq<Tree>, key: char, t: Type, d: Depth, s: State, m: seq<Entry>)
    requires EntriesTyped(entries, key, t) && s.ok && Within(d)
    ensures AcceptedIff(AllFitBelow(entries, d), FdCounts(entries), AllDupsOk(entries), s, ReadEntries(q, entries, d,
        s, m).1)
    decreases entries, 0
  {
    if entries != [] {
      var d' := Enter(d, '{');
      PairFits(entries[0], d);
      if Within(d') {
        EntryAccepts(q, entries[0], key, t, d', s);
        var k := Read(q, entries[0].first, d', s);
        var v := Read(q, entries[0].second, d', k.1);
        if v.1.ok { EntriesAccept(q, entries[1..], key, t, d, v.1, Insert(m, q.toText(k.0), v.0)); }
      }
    }
  }

  lemma PairFits(e: Tree, d: Depth)
    requires e.Pair? && Within(d)
    ensures var d' := Enter(d, '{');
            FitsBelow(e, d) <==> Within(d') && FitsBelow(e.first, d') && FitsBelow(e.second, d')
  {
  }

  lemma {:induction false} EntryAccepts(q: Qt, e: Tree, key: char, t: Type, d: Depth, s: State)
    requires EntryTyped(e, key, t) && s.ok && Within(d)
    ensures var k := Read(q, e.first, d, s);
            AcceptedIff(FitsBelow(e.first, d)
                && FitsBelow(e.second, d), FdCount(e), DupsOk(e), s, Read(q, e.second, d, k.1).1)
    decreases e, 2
  {
    ReadAccepts(q, e.first, Type.Basic(key), d, s);
    var k := Read(q, e.first, d, s);
    if k.1.ok { ReadAccepts(q, e.second, t, d, k.1); }
  }

  // ------------------------------------------------- what the validator guarantees

  predicate VariantFree(t: Type)
    decreases t, 1
  {
    match t
    case Basic(_) => true
    case Variant => false
    case Array(e) => VariantFree(e)
    case Struct(ms) => AllVariantFree(ms)
    case Dict(_, v) => VariantFree(v)
  }

  predicate AllVariantFree(ts: seq<Type>)
    decreases ts, 0
  {
    ts == [] || (VariantFree(ts[0]) && AllVariantFree(ts[1..]))
  }

  lemma {:induction false} HeightsOfType(w: Tree, t: Type)
    requires Typed(w, t) && VariantFree(t)
    ensures ArrayHeight(w) <= Arrays(t) && StructHeight(w) <= Structs(t) && TotalHeight(w) <= Arrays(t) + Structs(t)
    ensures ShallowPayloads(w)
    decreases w, 1
  {
    match w {
      case Leaf(_, _) =>
      case Sequence(_, items) => HeightsOfItems(items, t.elem);
      case Record(ms) => HeightsOfMembers(ms, t.members);
      case Table(_, _, entries) => HeightsOfEntries(entries, t.key, t.value);
    }
  }

  lemma {:induction false} HeightsOfItems(ws: seq<Tree>, t: Type)
    requires AllTyped(ws, t) && VariantFree(t)
    ensures ArrayHeights(ws) <= Arrays(t) && StructHeights(ws) <= Structs(t) && TotalHeights(ws) <= Arrays(t) + Structs(t)
    ensures AllShallow(ws)
    decreases ws, 0
  {
    if ws != [] {
      HeightsOfType(ws[0], t);
      HeightsOfItems(ws[1..], t);
    }
  }

  lemma {:induction false} HeightsOfMembers(ws: seq<Tree>, ts: seq<Type>)
    requires |ws| == |ts| && AllTypedBy(ws, ts) && AllVariantFree(ts)
    ensures ArrayHeights(ws) <= ArraysAll(ts) && StructHeights(ws) <= StructsAll(ts)
        && TotalHeights(ws) <= ArraysAll(ts) + StructsAll(ts)
    ensures AllShallow(ws)
    decreases ws, 0
  {
    if ws != [] {
      HeightsOfType(ws[0], ts[0]);
      HeightsOfMembers(ws[1..], ts[1..]);
    }
  }

  lemma {:induction false} HeightsOfEntries(ws: seq<Tree>, key: char, t: Type)
    requires EntriesTyped(ws, key, t) && VariantFree(t)
    ensures ArrayHeights(ws) <= Arrays(t) && StructHeights(ws) <= Structs(t)
        && TotalHeights(ws) <= Arrays(t) + Structs(t) + 1
    ensures AllShallow(ws)
    decreases ws, 0
  {
    if ws != [] {
      HeightsOfEntry(ws[0], key, t);
      HeightsOfEntries(ws[1..], key, t);
    }
  }

  lemma {:induction false} HeightsOfEntry(w: Tree, key: char, t: Type)
    requires EntryTyped(w, key, t) && VariantFree(t)
    ensures ArrayHeight(w) <= Arrays(t) && StructHeight(w) <= Structs(t) && TotalHeight(w) <= Arrays(t) + Structs(t) + 1
    ensures ShallowPayloads(w)
    decreases w, 2
  {
    HeightsOfType(w.first, Type.Basic(key));
    HeightsOfType(w.second, t);
  }

  /** A variant-free value whose signature the validator accepts is never refused for
      its nesting: only descriptors can stop it. */
  lemma ValidatedNeverTooDeep(q: Qt, w: Tree, t: Type, s: State)
    requires Typed(w, t) && Fits(t, 0, 0) && VariantFree(t) && s.ok
    ensures Read(q, w, TOP, s).1.ok <==> FdCount(w) <= s.remaining && DupsOk(w)
  {
    HeightsOfType(w, t);
    ReadAccepts(q, w, t, TOP, s);
  }

  /** For every payload, variants included: whatever is accepted nests at most 64 deep. */
  lemma AcceptedNestsWithinLimit(q: Qt, w: Tree, t: Type, s: State)
    requires Typed(w, t) && s.ok && Read(q, w, TOP, s).1.ok
    ensures TotalHeight(w) <= 64
  {
    ReadAccepts(q, w, t, TOP, s);
  }
}
