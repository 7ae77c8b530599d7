/** What a delivered value has to say about what arrived, whatever the reader does on the way. */
module Carrying {
  import opened Options
  import opened Values
  import opened Wire
  import opened Decode

  // ------------------------------------------------------------------------- the relation

  /** Of equal keys the last entry counts. */
  function Latest(keys: seq<string>, vs: seq<Value>, key: string): Option<Value>
    requires |keys| == |vs|
    decreases |keys|
  {
    if keys == [] then None
    else
      var later := Latest(keys[1..], vs[1..], key);
      if later.Some? then later else if keys[0] == key then Some(vs[0]) else None
  }

  /** A map with exactly these keys, each with its last value. */
  ghost predicate Holds(m: seq<Entry>, keys: seq<string>, vs: seq<Value>)
    requires |keys| == |vs|
  {
    Ascending(m) && forall key :: Lookup(m, key) == Latest(keys, vs, key)
  }

  /** A byte or text array is delivered element by element. */
  predicate BytesBorne(ws: seq<Tree>, bytes: seq<int>) {
    |bytes| == |ws| && forall i :: 0 <= i < |ws| && ws[i].Leaf? && ws[i].payload.Num? ==> bytes[i] == ws[i].payload.n
  }

  predicate TextsBorne(ws: seq<Tree>, texts: seq<string>) {
    |texts| == |ws| && forall i :: 0 <= i < |ws| && ws[i].Leaf? && ws[i].payload.Str? ==> texts[i] == ws[i].payload.s
  }

  /** What a value on the wire is delivered as: scalars as themselves, paths and signatures as plain
      strings, a descriptor as an owned one of the same kind, arrays and structs element by element, a
      dict by its keys' texts, a variant as its payload. */
  ghost predicate Bears(q: Qt, w: Tree, v: Value)
    decreases w, 1
  {
    match w
    case Leaf(c, p) =>
      if p.Fd? then v.Owned? && v.fd == p.fd else v == Scalar(if c == 'o' || c == 'g' then 's' else c, p)
    case Record(ms) => v.List? && AllBear(q, ms, v.items)
    case Sequence(e, items) =>
      if e == "y" then v.ByteArray? && BytesBorne(items, v.bytes)
      else if e == "s" then v.StringList? && TextsBorne(items, v.texts)
      else v.List? && AllBear(q, items, v.items)
    case Table(_, _, entries) =>
      && v.Map?
      && exists keys: seq<string>, vs: seq<Value> :: EntriesBear(q, entries, keys, vs) && Holds(v.entries, keys, vs)
    case Box(_, inner) => BearsInside(q, inner, v)
    case Pair(_, _) => false
  }

  /** In a variant a path or a signature stays what it is. */
  ghost predicate BearsInside(q: Qt, w: Tree, v: Value)
    decreases w, 2
  {
    match w
    case Leaf(c, p) => if p.Fd? then v.Owned? && v.fd == p.fd else v == Scalar(c, p)
    case Box(_, inner) => BearsInside(q, inner, v)
    case _ => Bears(q, w, v)
  }

  ghost predicate AllBear(q: Qt, ws: seq<Tree>, vs: seq<Value>)
    decreases ws, 0
  {
    |ws| == |vs| && (ws == [] || (Bears(q, ws[0], vs[0]) && AllBear(q, ws[1..], vs[1..])))
  }

  ghost predicate EntriesBear(q: Qt, entries: seq<Tree>, keys: seq<string>, vs: seq<Value>)
    decreases entries, 0
  {
    && |entries| == |keys| == |vs|
    && (entries == [] || (EntryBears(q, entries[0], keys[0], vs[0]) && EntriesBear(q, entries[1..], keys[1..], vs[1..])))
  }

  ghost predicate EntryBears(q: Qt, e: Tree, key: string, v: Value)
    decreases e, 2
  {
    e.Pair? && Bears(q, e.second, v) && exists k :: Bears(q, e.first, k) && q.toText(k) == key
  }

  /** The same for whatever Qt hands over. */
  ghost predicate Carries(q: Qt, c: Carrier, v: Value)
    decreases c, 1
  {
    match c
    case Argument(w) => Bears(q, w, v)
    case VariantOf(inner) => Carries(q, inner, v)
    case NativeList(items) => v.List? && AllCarry(q, items, v.items)
    case NativeMap(entries) => v.Map? && exists vs: seq<Value> :: EntriesCarry(q, entries, vs) && Holds(v.entries, Keys(entries), vs)
    case NativeFd(r) => v.Owned? && v.fd == r
    case NativeBytes(bytes) => v == ByteArray(bytes)
    case NativeTexts(texts) => v == StringList(texts)
    case NativeScalar(code, p) => v == Scalar(code, p)
    case NoValue => false
  }

  ghost predicate AllCarry(q: Qt, cs: seq<Carrier>, vs: seq<Value>)
    decreases cs, 0
  {
    |cs| == |vs| && (cs == [] || (Carries(q, cs[0], vs[0]) && AllCarry(q, cs[1..], vs[1..])))
  }

  ghost predicate EntriesCarry(q: Qt, entries: seq<NativeEntry>, vs: seq<Value>)
    decreases entries, 0
  {
    |entries| == |vs| && (entries == [] || (Carries(q, entries[0].c, vs[0]) && EntriesCarry(q, entries[1..], vs[1..])))
  }

  function Keys(entries: seq<NativeEntry>): (keys: seq<string>)
    ensures |keys| == |entries|
  {
    if entries == [] then [] else [entries[0].key] + Keys(entries[1..])
  }

  // ---------------------------------------------------------------------- what is read

  lemma {:induction false} BytesAreBorne(ws: seq<Tree>)
    ensures BytesBorne(ws, BytesOf(ws))
  {
    if ws != [] {
      BytesAreBorne(ws[1..]);
      assert forall i :: 0 < i < |ws| ==> ws[i] == ws[1..][i - 1] && BytesOf(ws)[i] == BytesOf(ws[1..])[i - 1];
    }
  }

  lemma {:induction false} TextsAreBorne(ws: seq<Tree>)
    ensures TextsBorne(ws, Decode.TextsOf(ws))
  {
    if ws != [] {
      TextsAreBorne(ws[1..]);
      assert forall i :: 0 < i < |ws| ==> ws[i] == ws[1..][i - 1] && Decode.TextsOf(ws)[i] == Decode.TextsOf(ws[1..])[i - 1];
    }
  }

  /** The map after some entries have gone in. */
  ghost predicate Gathered(m: seq<Entry>, m': seq<Entry>, keys: seq<string>, vs: seq<Value>)
    requires |keys| == |vs|
  {
    Ascending(m) ==>
      && Ascending(m')
      && forall key :: Lookup(m', key) == if Latest(keys, vs, key).Some? then Latest(keys, vs, key) else Lookup(m, key)
  }

  lemma GatherNone(m: seq<Entry>)
    ensures Gathered(m, m, [], [])
  {
  }

  lemma GatherOne(m: seq<Entry>, key: string, v: Value, m': seq<Entry>, keys: seq<string>, vs: seq<Value>)
    requires |keys| == |vs| && Gathered(Insert(m, key, v), m', keys, vs)
    ensures Gathered(m, m', [key] + keys, [v] + vs)
  {
    assert ([key] + keys)[1..] == keys && ([v] + vs)[1..] == vs;
    if Ascending(m) {
      InsertKeepsMap(m, key, v, key);
      forall other ensures Lookup(Insert(m, key, v), other) == if other == key then Some(v) else Lookup(m, other) {
        InsertKeepsMap(m, key, v, other);
      }
    }
  }

  lemma GatheredAll(m: seq<Entry>, keys: seq<string>, vs: seq<Value>)
    requires |keys| == |vs| && Gathered([], m, keys, vs)
    ensures Holds(m, keys, vs)
  {
  }

  /** What is read is what was there. */
  lemma {:induction false} ReadBears(q: Qt, w: Tree, d: Depth, s: State)
    requires d.total <= 2 * MAX_TYPE_RECURSION
    ensures var (v, s') := Read(q, w, d, s); s'.ok ==> s.ok && Bears(q, w, v)
    decreases 2 * MAX_TYPE_RECURSION - d.total, 0
  {
    hide ReadItems, ReadEntries, Unwrap, AllBear, EntriesBear, Holds, Gathered, CarrierOf, EagerDupFailed;
    if s.ok {
      match w {
        case Leaf(_, _) =>
        case Sequence(e, items) =>
          BytesAreBorne(items);
          TextsAreBorne(items);
          if Within(Enter(d, 'a')) { ReadItemsBear(q, items, Enter(d, 'a'), s); }
        case Record(ms) => if Within(Enter(d, '(')) { ReadItemsBear(q, ms, Enter(d, '('), s); }
        case Table(_, _, entries) =>
          if Within(Enter(d, 'a')) {
            var keys, vs := ReadEntriesBear(q, entries, Enter(d, 'a'), s, []);
            var (m, s') := ReadEntries(q, entries, Enter(d, 'a'), s, []);
            if s'.ok { GatheredAll(m, keys, vs); }
          }
        case Box(_, inner) => if Within(Enter(d, 'v')) && !EagerDupFailed(inner) { UnwrapBearsInside(q, inner, Enter(d, 'v'), s); }
        case Pair(_, _) =>
      }
    }
  }

  lemma {:induction false} UnwrapBearsInside(q: Qt, w: Tree, d: Depth, s: State)
    requires d.total <= 2 * MAX_TYPE_RECURSION && !EagerDupFailed(w)
    ensures var (v, s') := Unwrap(q, CarrierOf(w), d, s); s'.ok ==> s.ok && BearsInside(q, w, v)
    decreases 2 * MAX_TYPE_RECURSION - d.total, 2
  {
    hide Read, Bears;
    match w {
      case Leaf(_, _) =>
      case Box(_, inner) => if Within(Enter(d, 'v')) { UnwrapBearsInside(q, inner, Enter(d, 'v'), s); }
      case Sequence(e, items) =>
        if e == "y" || e == "s" { EagerArray(q, e, items); } else { ReadBears(q, w, d, s); }
      case _ => ReadBears(q, w, d, s);
    }
  }

  lemma EagerArray(q: Qt, e: string, items: seq<Tree>)
    ensures e == "y" ==> Bears(q, Sequence(e, items), ByteArray(BytesOf(items)))
    ensures e == "s" ==> Bears(q, Sequence(e, items), StringList(Decode.TextsOf(items)))
  {
    BytesAreBorne(items);
    TextsAreBorne(items);
  }

  lemma {:induction false} ReadItemsBear(q: Qt, items: seq<Tree>, d: Depth, s: State)
    requires d.total <= 2 * MAX_TYPE_RECURSION
    ensures var (vs, s') := ReadItems(q, items, d, s); s'.ok ==> s.ok && AllBear(q, items, vs)
    decreases 2 * MAX_TYPE_RECURSION - d.total, 1, |items|
  {
    hide Read, Bears;
    if items != [] && s.ok {
      var first := Read(q, items[0], d, s);
      ReadBears(q, items[0], d, s);
      if first.1.ok {
        ReadItemsBear(q, items[1..], d, first.1);
        var rest := ReadItems(q, items[1..], d, first.1);
        assert ([first.0] + rest.0)[1..] == rest.0;
      }
    }
  }

  lemma {:induction false} ReadEntriesBear(q: Qt, entries: seq<Tree>, d: Depth, s: State, m: seq<Entry>)
    returns (keys: seq<string>, vs: seq<Value>)
    requires d.total <= 2 * MAX_TYPE_RECURSION
    ensures |keys| == |vs|
    ensures var (m', s') := ReadEntries(q, entries, d, s, m);
            s'.ok ==> s.ok && EntriesBear(q, entries, keys, vs) && Gathered(m, m', keys, vs)
    decreases 2 * MAX_TYPE_RECURSION - d.total, 1, |entries|
  {
    hide Read, Bears, Gathered, EntryBears;
    keys, vs := [], [];
    var d' := Enter(d, '{');
    if entries == [] {
      GatherNone(m);
    } else if s.ok && Within(d') && entries[0].Pair? {
      var key := Read(q, entries[0].first, d', s);
      var value := Read(q, entries[0].second, d', key.1);
      ReadBears(q, entries[0].first, d', s);
      ReadBears(q, entries[0].second, d', key.1);
      if value.1.ok {
        var text := q.toText(key.0);
        var m' := Insert(m, text, value.0);
        var ks, ws := ReadEntriesBear(q, entries[1..], d, value.1, m');
        var rest := ReadEntries(q, entries[1..], d, value.1, m');
        if rest.1.ok {
          keys, vs := [text] + ks, [value.0] + ws;
          assert keys[1..] == ks && vs[1..] == ws;
          PairBears(q, entries[0], key.0, value.0);
          GatherOne(m, text, value.0, rest.0, ks, ws);
        }
      }
    }
  }

  lemma PairBears(q: Qt, e: Tree, k: Value, v: Value)
    requires e.Pair? && Bears(q, e.first, k) && Bears(q, e.second, v)
    ensures EntryBears(q, e, q.toText(k), v)
  {
  }

  // ---------------------------------------------------------------- what is unwrapped

  lemma {:induction false} UnwrapCarries(q: Qt, c: Carrier, d: Depth, s: State)
    requires d.total <= 2 * MAX_TYPE_RECURSION
    ensures var (v, s') := Unwrap(q, c, d, s); s'.ok ==> s.ok && Carries(q, c, v)
    decreases 2 * MAX_TYPE_RECURSION - d.total, 2
  {
    hide Read, Bears, UnwrapItems, UnwrapEntries, AllCarry, EntriesCarry, Holds, Gathered, Keys;
    if s.ok {
      match c {
        case Argument(w) => ReadBears(q, w, d, s);
        case VariantOf(inner) => if Within(Enter(d, 'v')) { UnwrapCarries(q, inner, Enter(d, 'v'), s); }
        case NativeList(items) => if Within(Enter(d, 'a')) { UnwrapItemsCarry(q, items, Enter(d, 'a'), s); }
        case NativeMap(entries) =>
          if Within(Enter(d, 'a')) {
            var vs := UnwrapEntriesCarry(q, entries, Enter(d, 'a'), s, []);
            var (m, s') := UnwrapEntries(q, entries, Enter(d, 'a'), s, []);
            if s'.ok { GatheredAll(m, Keys(entries), vs); }
          }
        case _ =>
      }
    }
  }

  lemma {:induction false} UnwrapItemsCarry(q: Qt, items: seq<Carrier>, d: Depth, s: State)
    requires d.total <= 2 * MAX_TYPE_RECURSION
    ensures var (vs, s') := UnwrapItems(q, items, d, s); s'.ok ==> s.ok && AllCarry(q, items, vs)
    decreases 2 * MAX_TYPE_RECURSION - d.total, 3, |items|
  {
    hide Unwrap, Carries;
    if items != [] && s.ok {
      var first := Unwrap(q, items[0], d, s);
      UnwrapCarries(q, items[0], d, s);
      if first.1.ok {
        UnwrapItemsCarry(q, items[1..], d, first.1);
        var rest := UnwrapItems(q, items[1..], d, first.1);
        assert ([first.0] + rest.0)[1..] == rest.0;
      }
    }
  }

  lemma {:induction false} UnwrapEntriesCarry(q: Qt, entries: seq<NativeEntry>, d: Depth, s: State, m: seq<Entry>)
    returns (vs: seq<Value>)
    requires d.total <= 2 * MAX_TYPE_RECURSION
    ensures |vs| == |entries|
    ensures var (m', s') := UnwrapEntries(q, entries, d, s, m);
            s'.ok ==> s.ok && EntriesCarry(q, entries, vs) && Gathered(m, m', Keys(entries), vs)
    decreases 2 * MAX_TYPE_RECURSION - d.total, 3, |entries|
  {
    hide Unwrap, Carries, Gathered;
    vs := seq(|entries|, i => Invalid);
    var d' := Enter(d, '{');
    if entries == [] {
      GatherNone(m);
    } else if s.ok && Within(d') {
      var value := Unwrap(q, entries[0].c, d', s);
      UnwrapCarries(q, entries[0].c, d', s);
      if value.1.ok {
        var m' := Insert(m, entries[0].key, value.0);
        var ws := UnwrapEntriesCarry(q, entries[1..], d, value.1, m');
        var rest := UnwrapEntries(q, entries[1..], d, value.1, m');
        if rest.1.ok {
          vs := [value.0] + ws;
          assert vs[1..] == ws;
          GatherOne(m, entries[0].key, value.0, rest.0, Keys(entries[1..]), ws);
        }
      }
    }
  }

  /** Every argument a message delivers is the one that arrived. */
  lemma DeliveredAsArrived(q: Qt, args: seq<Carrier>, limit: nat, open: set<nat>, next: nat)
    ensures var result := DecodeMessage(q, args, limit, open, next).0;
            result.Some? ==> AllCarry(q, args, result.value)
  {
    hide UnwrapItems, AllCarry;
    UnwrapItemsCarry(q, args, TOP, State(true, limit, [], open, next));
  }
}
