/** Exactly which messages are decoded: what Qt hands over, native containers included, under the same
    limits as the bodies behind it. */
module MessageLimits {
  import opened Options
  import opened Signature
  import opened Values
  import opened Wire
  import opened Decode
  import opened DecodeLimits

  /** Undecoded arguments are well typed, and every value is there. */
  ghost predicate Sound(c: Carrier)
    decreases c, 1
  {
    match c
    case Argument(w) => exists t :: Typed(w, t)
    case VariantOf(inner) => Sound(inner)
    case NativeList(items) => AllSound(items)
    case NativeMap(entries) => EntriesSound(entries)
    case _ => true
  }

  ghost predicate AllSound(cs: seq<Carrier>)
    decreases cs, 0
  {
    cs == [] || (Sound(cs[0]) && AllSound(cs[1..]))
  }

  ghost predicate EntriesSound(entries: seq<NativeEntry>)
    decreases entries, 0
  {
    entries == [] || (Sound(entries[0].c) && EntriesSound(entries[1..]))
  }

  /** What a carrier needs: array and struct nesting up to the next variant, all nesting, whether the
      payloads of its variants keep the per-kind limits and every value is there, descriptors, and
      whether they can all be duplicated. */
  datatype Need = Need(arrays: nat, structs: nat, total: nat, shallow: bool, fds: nat, dups: bool)

  const NOTHING := Need(0, 0, 0, true, 0, true)

  /** Side by side. */
  function Both(a: Need, b: Need): Need {
    Need(Max(a.arrays, b.arrays), Max(a.structs, b.structs), Max(a.total, b.total), a.shallow && b.shallow,
         a.fds + b.fds, a.dups && b.dups)
  }

  function OfTree(w: Tree): Need {
    Need(ArrayHeight(w), StructHeight(w), TotalHeight(w), ShallowPayloads(w), FdCount(w), DupsOk(w))
  }

  function Needs(c: Carrier): Need
    decreases c, 1
  {
    match c
    case Argument(w) => OfTree(w)
    case VariantOf(inner) =>
      var n := Needs(inner);
      Need(0, 0, 1 + n.total, n.shallow && n.arrays <= 32 && n.structs <= 32, n.fds, n.dups)
    case NativeList(items) => var n := NeedsAll(items); n.(arrays := 1 + n.arrays, total := 1 + n.total)
    case NativeMap(entries) => var n := NeedsEntries(entries); n.(arrays := 1 + n.arrays, total := 1 + n.total)
    case NativeFd(r) => NOTHING.(fds := 1, dups := r.Live? ==> r.dupOk)
    case NativeBytes(_) => NOTHING.(arrays := 1, total := 1)
    case NativeTexts(_) => NOTHING.(arrays := 1, total := 1)
    case NativeScalar(_, _) => NOTHING
    case NoValue => NOTHING.(shallow := false)
  }

  function NeedsAll(cs: seq<Carrier>): Need
    decreases cs, 0
  {
    if cs == [] then NOTHING else Both(Needs(cs[0]), NeedsAll(cs[1..]))
  }

  /** Each entry is one more container. */
  function NeedsEntries(entries: seq<NativeEntry>): Need
    decreases entries, 0
  {
    if entries == [] then NOTHING
    else
      var n := Needs(entries[0].c);
      Both(n.(total := 1 + n.total), NeedsEntries(entries[1..]))
  }

  /** It fits below the containers already open. */
  predicate Fits(n: Need, d: Depth) {
    d.arrays + n.arrays <= 32 && d.structs + n.structs <= 32 && d.total + n.total <= 64 && n.shallow
  }

  /** Anything Qt hands over is accepted exactly if it nests within the limits, the budget covers its
      descriptors, and they can be duplicated. */
  lemma {:induction false} UnwrapAccepts(q: Qt, c: Carrier, d: Depth, s: State)
    requires Sound(c) && s.ok && Within(d)
    ensures var n := Needs(c); AcceptedIff(Fits(n, d), n.fds, n.dups, s, Unwrap(q, c, d, s).1)
    decreases c, 1
  {
    hide UnwrapItems, UnwrapEntries, Read, Typed, FitsBelow, AcceptedIff;
    match c {
      case Argument(w) => ArgumentAccepts(q, w, d, s);
      case VariantOf(inner) =>
        if Within(Enter(d, 'v')) { UnwrapAccepts(q, inner, Enter(d, 'v'), s); }
        VariantAccepts(q, inner, d, s);
      case NativeList(items) =>
        if Within(Enter(d, 'a')) { UnwrapItemsAccept(q, items, Enter(d, 'a'), s); }
        ListAccepts(q, items, d, s);
      case NativeMap(entries) =>
        if Within(Enter(d, 'a')) { UnwrapEntriesAccept(q, entries, Enter(d, 'a'), s, []); }
        MapAccepts(q, entries, d, s);
      case _ => PlainAccepts(q, c, d, s);
    }
  }

  lemma ArgumentAccepts(q: Qt, w: Tree, d: Depth, s: State)
    requires Sound(Argument(w)) && s.ok && Within(d)
    ensures var n := Needs(Argument(w)); AcceptedIff(Fits(n, d), n.fds, n.dups, s, Unwrap(q, Argument(w), d, s).1)
  {
    var t :| Typed(w, t);
    ReadAccepts(q, w, t, d, s);
  }

  lemma VariantAccepts(q: Qt, c: Carrier, d: Depth, s: State)
    requires s.ok && Within(d)
    requires var d' := Enter(d, 'v');
             Within(d') ==> var n := Needs(c); AcceptedIff(Fits(n, d'), n.fds, n.dups, s, Unwrap(q, c, d', s).1)
    ensures var n := Needs(VariantOf(c)); AcceptedIff(Fits(n, d), n.fds, n.dups, s, Unwrap(q, VariantOf(c), d, s).1)
  {
  }

  lemma ListAccepts(q: Qt, items: seq<Carrier>, d: Depth, s: State)
    requires s.ok && Within(d)
    requires var d' := Enter(d, 'a');
             Within(d') ==>
               var n := NeedsAll(items); AcceptedIff(Fits(n, d'), n.fds, n.dups, s, UnwrapItems(q, items, d', s).1)
    ensures var n := Needs(NativeList(items)); AcceptedIff(Fits(n, d), n.fds, n.dups, s, Unwrap(q, NativeList(items), d, s).1)
  {
    hide UnwrapItems, NeedsAll;
  }

  lemma MapAccepts(q: Qt, entries: seq<NativeEntry>, d: Depth, s: State)
    requires s.ok && Within(d)
    requires var d' := Enter(d, 'a');
             Within(d') ==>
               var n := NeedsEntries(entries);
               AcceptedIff(Fits(n, d'), n.fds, n.dups, s, UnwrapEntries(q, entries, d', s, []).1)
    ensures var n := Needs(NativeMap(entries)); AcceptedIff(Fits(n, d), n.fds, n.dups, s, Unwrap(q, NativeMap(entries), d, s).1)
  {
    hide UnwrapEntries, NeedsEntries;
  }

  lemma PlainAccepts(q: Qt, c: Carrier, d: Depth, s: State)
    requires (c.NativeFd? || c.NativeBytes? || c.NativeTexts? || c.NativeScalar? || c.NoValue?) && s.ok && Within(d)
    ensures var n := Needs(c); AcceptedIff(Fits(n, d), n.fds, n.dups, s, Unwrap(q, c, d, s).1)
  {
  }

  lemma {:induction false} UnwrapItemsAccept(q: Qt, items: seq<Carrier>, d: Depth, s: State)
    requires AllSound(items) && s.ok && Within(d)
    ensures var n := NeedsAll(items); AcceptedIff(Fits(n, d), n.fds, n.dups, s, UnwrapItems(q, items, d, s).1)
    decreases items, 0
  {
    hide Unwrap, Needs, Sound;
    if items != [] {
      UnwrapAccepts(q, items[0], d, s);
      var first := Unwrap(q, items[0], d, s).1;
      if first.ok { UnwrapItemsAccept(q, items[1..], d, first); }
    }
  }

  lemma {:induction false} UnwrapEntriesAccept(q: Qt, entries: seq<NativeEntry>, d: Depth, s: State, m: seq<Entry>)
    requires EntriesSound(entries) && s.ok && Within(d)
    ensures var n := NeedsEntries(entries); AcceptedIff(Fits(n, d), n.fds, n.dups, s, UnwrapEntries(q, entries, d, s, m).1)
    decreases entries, 0
  {
    hide Unwrap, Needs, Sound;
    if entries != [] {
      var d' := Enter(d, '{');
      if Within(d') {
        UnwrapAccepts(q, entries[0].c, d', s);
        var value := Unwrap(q, entries[0].c, d', s);
        if value.1.ok { UnwrapEntriesAccept(q, entries[1..], d, value.1, Insert(m, entries[0].key, value.0)); }
      }
    }
  }

  /** A message is decoded exactly if its arguments nest within 32 arrays, 32 structs and 64 containers
      in all, every value is there, and its descriptors are no more than the budget and can all be
      duplicated. */
  lemma MessageAccepts(q: Qt, args: seq<Carrier>, limit: nat, open: set<nat>, next: nat)
    requires AllSound(args)
    ensures var n := NeedsAll(args);
            DecodeMessage(q, args, limit, open, next).0.Some? <==>
              n.arrays <= 32 && n.structs <= 32 && n.total <= 64 && n.shallow && n.fds <= limit && n.dups
  {
    hide UnwrapItems, NeedsAll, AllSound;
    UnwrapItemsAccept(q, args, TOP, State(true, limit, [], open, next));
  }
}
