/** What is written comes back: reading the events the writer emits for a value yields
    that value in canonical form. */
module RoundTrip {
  import opened Options
  import opened Signature
  import opened Values
  import opened Wire
  import opened Staging
  import opened Decode
  import opened DecodeLimits
  import opened Spelling
  import opened Carrying

  /** The canonical form of a value at a declared type, straight from the value:
      structs and arrays become lists (a short struct value padded), dicts become
      string-keyed maps in which a later entry with the same key wins, paths and
      signatures become strings, descriptors become owned ones. */
  ghost function Canon(q: Qt, t: Type, v: Value): Value
    decreases Size(t), 2
  {
    match t
    case Basic(c) => CanonBasic(c, Produce(q, c, v))
    case Variant => Invalid
    case Struct(ms) => List(CanonMembers(q, ms, ToList(v)))
    case Dict(k, u) => Map(CanonEntries(q, k, u, ToMap(v), []))
    case Array(e) =>
      if e == Type.Basic('y') then ByteArray(ToByteArray(q, v))
      else if e == Type.Basic('s') then StringList(ToStringList(q, v))
      else List(CanonItems(q, e, ToList(v)))
  }

  function CanonBasic(c: char, p: Option<Payload>): Value {
    if p.None? then Invalid
    else if p.value.Fd? then Owned(0, p.value.fd)
    else Scalar(if c == 'o' || c == 'g' then 's' else c, p.value)
  }

  ghost function CanonMembers(q: Qt, ts: seq<Type>, items: seq<Value>): seq<Value>
    decreases SizeAll(ts), 1
  {
    if ts == [] then [] else [Canon(q, ts[0], Child(items))] + CanonMembers(q, ts[1..], Others(items))
  }

  ghost function CanonItems(q: Qt, t: Type, items: seq<Value>): seq<Value>
    decreases Size(t), 3, |items|
  {
    if items == [] then [] else [Canon(q, t, items[0])] + CanonItems(q, t, items[1..])
  }

  ghost function CanonEntries(q: Qt, key: char, t: Type, entries: seq<Entry>, m: seq<Entry>): seq<Entry>
    decreases Size(t), 3, |entries|
  {
    if entries == [] then m
    else
      var k := q.toText(CanonBasic(key, Produce(q, key, Text(entries[0].key))));
      CanonEntries(q, key, t, entries[1..], Insert(m, k, Canon(q, t, entries[0].value)))
  }

  /** The value without the handles its descriptors happened to get. */
  function Erase(v: Value): Value
    decreases v, 1
  {
    match v
    case Owned(_, r) => Owned(0, r)
    case List(items) => List(EraseAll(items))
    case Map(entries) => Map(EraseEntries(entries))
    case Boxed(x) => Boxed(Erase(x))
    case _ => v
  }

  function EraseAll(items: seq<Value>): seq<Value>
    decreases items, 0
  {
    if items == [] then [] else [Erase(items[0])] + EraseAll(items[1..])
  }

  function EraseEntries(entries: seq<Entry>): seq<Entry>
    decreases entries, 0
  {
    if entries == [] then [] else [Entry(entries[0].key, Erase(entries[0].value))] + EraseEntries(entries[1..])
  }

  lemma {:induction false} EraseInsert(m: seq<Entry>, key: string, v: Value)
    ensures EraseEntries(Insert(m, key, v)) == Insert(EraseEntries(m), key, Erase(v))
  {
    hide Erase;
    hide Before;
    if m == [] {
      assert Insert(m, key, v)[1..] == [];
    } else {
      var rest := EraseEntries(m[1..]);
      assert EraseEntries(m) == [Entry(m[0].key, Erase(m[0].value))] + rest;
      assert EraseEntries(m)[1..] == rest;
      EraseInsert(m[1..], key, v);
      if m[0].key == key {
        EraseCons(Entry(key, v), m[1..]);
      } else if Before(key, m[0].key) {
        EraseCons(Entry(key, v), m);
      } else {
        EraseCons(m[0], Insert(m[1..], key, v));
      }
    }
  }

  lemma EraseCons(e: Entry, m: seq<Entry>)
    ensures EraseEntries([e] + m) == [Entry(e.key, Erase(e.value))] + EraseEntries(m)
  {
    assert ([e] + m)[1..] == m;
  }

  lemma EraseAllCons(v: Value, vs: seq<Value>)
    ensures EraseAll([v] + vs) == [Erase(v)] + EraseAll(vs)
  {
    assert ([v] + vs)[1..] == vs;
  }

  lemma {:induction false} BytesComeBack(bytes: seq<int>)
    ensures BytesOf(ByteTrees(bytes)) == bytes
  {
    if bytes != [] {
      BytesComeBack(bytes[1..]);
    }
  }

  lemma {:induction false} TextsComeBack(texts: seq<string>)
    ensures Decode.TextsOf(TextTrees(texts)) == texts
  {
    if texts != [] {
      TextsComeBack(texts[1..]);
    }
  }

  /** If reading what was staged for `v` succeeds at all, it yields the canonical form. */
  lemma {:induction false} ReadsCanon(env: Env, t: Type, v: Value, depth: nat, st: Staged, d: Depth, s: State)
    requires Fits(t, 0, 0) && VariantFree(t) && d.total <= 2 * MAX_TYPE_RECURSION
    requires Stage(env.qt, t, v, depth) == Some(st) && Shaped(env.qt, t, st)
    ensures var (got, s') := Read(env.qt, TreeOf(env, t, st), d, s);
            s'.ok ==> s.ok && Erase(got) == Canon(env.qt, t, v)
    decreases Size(t), 2
  {
    match t {
      case Basic(c) => ReadsCanonBasic(env, c, v, depth, st, d, s);
      case Struct(ms) =>
        var d' := Enter(d, '(');
        if Within(d') { ReadsCanonMembers(env, ms, ToList(v), depth + 1, st.items, d', s); }
        ReadsCanonStruct(env, ms, v, st, d, s);
      case Dict(k, u) =>
        var d' := Enter(d, 'a');
        if Within(d') { ReadsCanonEntries(env, k, u, ToMap(v), depth + 1, st.items, d', s, []); }
        ReadsCanonDict(env, k, u, v, st, d, s);
      case Array(e) =>
        if e == Type.Basic('y') || e == Type.Basic('s') {
          ReadsCanonText(env, e, v, depth, st, d, s);
        } else {
          var d' := Enter(d, 'a');
          if Within(d') { ReadsCanonItems(env, e, ToList(v), depth + 1, st.items, d', s); }
          ReadsCanonArray(env, e, v, st, d, s);
        }
    }
  }

  lemma ReadsCanonBasic(env: Env, c: char, v: Value, depth: nat, st: Staged, d: Depth, s: State)
    requires c in BASIC_CODES && d.total <= 2 * MAX_TYPE_RECURSION
    requires Stage(env.qt, Type.Basic(c), v, depth) == Some(st) && Shaped(env.qt, Type.Basic(c), st)
    ensures var (got, s') := Read(env.qt, TreeOf(env, Type.Basic(c), st), d, s);
            s'.ok ==> s.ok && Erase(got) == Canon(env.qt, Type.Basic(c), v)
  {
  }

  lemma ReadsCanonText(env: Env, e: Type, v: Value, depth: nat, st: Staged, d: Depth, s: State)
    requires (e == Type.Basic('y') || e == Type.Basic('s')) && d.total <= 2 * MAX_TYPE_RECURSION
    requires Stage(env.qt, Array(e), v, depth) == Some(st) && Shaped(env.qt, Array(e), st)
    ensures var (got, s') := Read(env.qt, TreeOf(env, Array(e), st), d, s);
            s'.ok ==> s.ok && Erase(got) == Canon(env.qt, Array(e), v)
  {
    if e == Type.Basic('y') { BytesComeBack(st.bytes); } else { TextsComeBack(st.texts); }
  }

  lemma ReadsCanonStruct(env: Env, ms: seq<Type>, v: Value, st: Staged, d: Depth, s: State)
    requires d.total <= 2 * MAX_TYPE_RECURSION && Shaped(env.qt, Struct(ms), st)
    requires var d' := Enter(d, '(');
             Within(d') ==>
               var (got, s') := ReadItems(env.qt, MemberTrees(env, ms, st.items), d', s);
               s'.ok ==> s.ok && EraseAll(got) == CanonMembers(env.qt, ms, ToList(v))
    ensures var (got, s') := Read(env.qt, TreeOf(env, Struct(ms), st), d, s);
            s'.ok ==> s.ok && Erase(got) == Canon(env.qt, Struct(ms), v)
  {
    hide ReadItems;
    hide MemberTrees;
    hide CanonMembers;
    hide EraseAll;
    hide MembersShaped;
  }

  lemma ReadsCanonArray(env: Env, e: Type, v: Value, st: Staged, d: Depth, s: State)
    requires d.total <= 2 * MAX_TYPE_RECURSION && Shaped(env.qt, Array(e), st)
    requires WellFormed(e) && e != Type.Basic('y') && e != Type.Basic('s')
    requires var d' := Enter(d, 'a');
             Within(d') ==>
               var (got, s') := ReadItems(env.qt, ItemTrees(env, e, st.items), d', s);
               s'.ok ==> s.ok && EraseAll(got) == CanonItems(env.qt, e, ToList(v))
    ensures var (got, s') := Read(env.qt, TreeOf(env, Array(e), st), d, s);
            s'.ok ==> s.ok && Erase(got) == Canon(env.qt, Array(e), v)
  {
    hide ReadItems, ItemTrees, CanonItems, EraseAll, ItemsShaped, Print, TreeOf, Canon, Shaped;
    ElementText(e);
    ArrayParts(env, e, v, st);
  }

  lemma ArrayParts(env: Env, e: Type, v: Value, st: Staged)
    requires Shaped(env.qt, Array(e), st) && e != Type.Basic('y') && e != Type.Basic('s')
    ensures st.Items? && ItemsShaped(env.qt, e, st.items)
    ensures TreeOf(env, Array(e), st) == Sequence(Print(e), ItemTrees(env, e, st.items))
    ensures Canon(env.qt, Array(e), v) == List(CanonItems(env.qt, e, ToList(v)))
  {
  }

  lemma ReadsCanonDict(env: Env, k: char, u: Type, v: Value, st: Staged, d: Depth, s: State)
    requires d.total <= 2 * MAX_TYPE_RECURSION && Shaped(env.qt, Dict(k, u), st)
    requires var d' := Enter(d, 'a');
             Within(d') ==>
               var (got, s') := ReadEntries(env.qt, EntryTrees(env, k, u, st.items), d', s, []);
               s'.ok ==> s.ok && EraseEntries(got) == CanonEntries(env.qt, k, u, ToMap(v), EraseEntries([]))
    ensures var (got, s') := Read(env.qt, TreeOf(env, Dict(k, u), st), d, s);
            s'.ok ==> s.ok && Erase(got) == Canon(env.qt, Dict(k, u), v)
  {
    hide ReadEntries, EntryTrees, CanonEntries, EraseEntries, EntriesShaped, Print;
    EraseNothing();
  }

  lemma EraseNothing()
    ensures EraseEntries([]) == []
  {
  }

  lemma ElementText(e: Type)
    requires WellFormed(e) && e != Type.Basic('y') && e != Type.Basic('s')
    ensures Print(e) != "y" && Print(e) != "s"
  {
    BasicElement(e);
  }

  lemma {:induction false} ReadsCanonMembers(env: Env, ts: seq<Type>, items: seq<Value>, depth: nat,
      sts: seq<Staged>, d: Depth, s: State)
    requires AllFit(ts, 0, 0) && AllVariantFree(ts) && d.total <= 2 * MAX_TYPE_RECURSION
    requires StageMembers(env.qt, ts, items, depth) == Some(sts) && |ts| == |sts| && MembersShaped(env.qt, ts, sts)
    ensures var (got, s') := ReadItems(env.qt, MemberTrees(env, ts, sts), d, s);
            s'.ok ==> s.ok && EraseAll(got) == CanonMembers(env.qt, ts, items)
    decreases SizeAll(ts), 1
  {
    hide Canon;
    hide Stage;
    hide TreeOf;
    if ts != [] && s.ok {
      var q := env.qt;
      var rest := StageMembers(q, ts[1..], Others(items), depth).value;
      assert sts[1..] == rest && sts[0] == Stage(q, ts[0], Child(items), depth).value;
      var ws := MemberTrees(env, ts, sts);
      assert ws[1..] == MemberTrees(env, ts[1..], sts[1..]);
      ReadsCanon(env, ts[0], Child(items), depth, sts[0], d, s);
      var first := Read(q, ws[0], d, s);
      if first.1.ok {
        ReadsCanonMembers(env, ts[1..], Others(items), depth, sts[1..], d, first.1);
        EraseAllCons(first.0, ReadItems(q, ws[1..], d, first.1).0);
      }
    }
  }

  lemma {:induction false} ReadsCanonItems(env: Env, t: Type, items: seq<Value>, depth: nat, sts: seq<Staged>,
      d: Depth, s: State)
    requires Fits(t, 0, 0) && VariantFree(t) && d.total <= 2 * MAX_TYPE_RECURSION
    requires StageItems(env.qt, t, items, depth) == Some(sts) && ItemsShaped(env.qt, t, sts)
    ensures var (got, s') := ReadItems(env.qt, ItemTrees(env, t, sts), d, s);
            s'.ok ==> s.ok && EraseAll(got) == CanonItems(env.qt, t, items)
    decreases Size(t), 3, |items|
  {
    hide Canon;
    hide Stage;
    hide TreeOf;
    if items != [] && s.ok {
      var q := env.qt;
      var rest := StageItems(q, t, items[1..], depth).value;
      assert sts[1..] == rest && sts[0] == Stage(q, t, items[0], depth).value;
      var ws := ItemTrees(env, t, sts);
      assert ws[1..] == ItemTrees(env, t, sts[1..]);
      ReadsCanon(env, t, items[0], depth, sts[0], d, s);
      var first := Read(q, ws[0], d, s);
      if first.1.ok {
        ReadsCanonItems(env, t, items[1..], depth, sts[1..], d, first.1);
        EraseAllCons(first.0, ReadItems(q, ws[1..], d, first.1).0);
      }
    }
  }

  lemma {:induction false} ReadsCanonEntries(env: Env, key: char, t: Type, entries: seq<Entry>, depth: nat,
      sts: seq<Staged>, d: Depth, s: State, m: seq<Entry>)
    requires key in BASIC_CODES && Fits(t, 0, 0) && VariantFree(t)
        && d.total <= 2 * MAX_TYPE_RECURSION
    requires StageEntries(env.qt, key, t, entries, depth) == Some(sts) && EntriesShaped(env.qt, key, t, sts)
    ensures var (got, s') := ReadEntries(env.qt, EntryTrees(env, key, t, sts), d, s, m);
            s'.ok ==> s.ok && EraseEntries(got) == CanonEntries(env.qt, key, t, entries, EraseEntries(m))
    decreases Size(Dict(key, t)), 1, |entries|
  {
    hide Canon;
    hide Stage;
    hide TreeOf;
    var d' := Enter(d, '{');
    if entries != [] && s.ok && Within(d') {
      var q := env.qt;
      var rest := StageEntries(q, key, t, entries[1..], depth).value;
      assert sts[1..] == rest && sts[0] == StageEntry(q, key, t, entries[0], depth).value;
      var ws := EntryTrees(env, key, t, sts);
      assert ws[1..] == EntryTrees(env, key, t, sts[1..]);
      var k := Read(q, ws[0].first, d', s);
      var v := Read(q, ws[0].second, d', k.1);
      ReadsCanonKey(env, key, entries[0].key, depth, sts[0].items[0], d', s);
      ReadsCanon(env, t, entries[0].value, depth, sts[0].items[1], d', k.1);
      if v.1.ok {
        var m' := Insert(m, q.toText(k.0), v.0);
        EraseInsert(m, q.toText(k.0), v.0);
        ReadsCanonEntries(env, key, t, entries[1..], depth, sts[1..], d, v.1, m');
      }
    }
  }

  lemma {:induction false} ReadsCanonKey(env: Env, key: char, text: string, depth: nat, st: Staged, d: Depth, s: State)
    requires key in BASIC_CODES && d.total <= 2 * MAX_TYPE_RECURSION
    requires Stage(env.qt, Type.Basic(key), Text(text), depth) == Some(st) && Shaped(env.qt, Type.Basic(key), st)
    ensures var (got, s') := Read(env.qt, TreeOf(env, Type.Basic(key), st), d, s);
            s'.ok ==> s.ok && env.qt.toText(got) == env.qt.toText(CanonBasic(key, Produce(env.qt, key, Text(text))))
  {
  }

  /** Round trip, for every valid signature and every value the probe accepts: the emitted events are
      one complete value of the declared type that takes all of them and spells the value out; the
      reader accepts it exactly if it nests within the limits and its descriptors can be taken, and
      what it yields is what was spelled. Without variants the nesting never stands in the way, and what
      comes back is the value's canonical form. */
  lemma WrittenValueComesBack(env: Env, t: Type, v: Value, s: State)
    requires Fits(t, 0, 0) && s.ok && (VariantFree(t) || InfersTyped(env))
    requires Stage(env.qt, t, v, 0).Some?
    ensures var st := Stage(env.qt, t, v, 0).value;
            && Shaped(env.qt, t, st)
            && var w := TreeOf(env, t, st);
               && Parse(Flatten(w)) == Some((w, |Flatten(w)|))
               && SignatureOf(w) == Print(t)
               && Spells(env, t, v, w)
               && var (got, s') := Read(env.qt, w, TOP, s);
                  && (s'.ok <==> FitsBelow(w, TOP) && FdCount(w) <= s.remaining && DupsOk(w))
                  && (s'.ok ==> Bears(env.qt, w, got))
                  && (VariantFree(t) ==> FitsBelow(w, TOP) && (s'.ok ==> Erase(got) == Canon(env.qt, t, v)))
  {
    hide Stage, Shaped, TreeOf, Spells, Bears, Read, Canon, Erase, FdCount, DupsOk;
    AcceptsExactly(env, t, v);
    var st := Stage(env.qt, t, v, 0).value;
    var w := TreeOf(env, t, st);
    ParseFlatten(w, []);
    assert Flatten(w) + [] == Flatten(w);
    if VariantFree(t) {
      VariantFreeIsTyped(env, t, st);
      HeightsOfType(w, t);
      ReadsCanon(env, t, v, 0, st, TOP, s);
    } else {
      TreeIsTyped(env, t, st);
    }
    TypedSignature(w, t);
    ReadAccepts(env.qt, w, t, TOP, s);
    ReadBears(env.qt, w, TOP, s);
  }

  /** Without variants the declared type is met whatever Qt's inference does. */
  lemma {:induction false} VariantFreeIsTyped(env: Env, t: Type, st: Staged)
    requires WellFormed(t) && VariantFree(t) && Shaped(env.qt, t, st)
    ensures Typed(TreeOf(env, t, st), t)
    decreases Size(t), 2
  {
    match t {
      case Basic(_) =>
      case Struct(ms) => VariantFreeMembers(env, ms, st.items);
      case Dict(k, u) => VariantFreeEntries(env, k, u, st.items);
      case Array(e) =>
        if e == Type.Basic('y') {
          BytesAreTyped(st.bytes);
        } else if e == Type.Basic('s') {
          TextsAreTyped(st.texts);
        } else {
          VariantFreeItems(env, e, st.items);
        }
    }
  }

  lemma {:induction false} VariantFreeMembers(env: Env, ts: seq<Type>, sts: seq<Staged>)
    requires AllWellFormed(ts) && AllVariantFree(ts) && |ts| == |sts| && MembersShaped(env.qt, ts, sts)
    ensures |MemberTrees(env, ts, sts)| == |ts| && AllTypedBy(MemberTrees(env, ts, sts), ts)
    decreases SizeAll(ts), 1
  {
    if ts != [] {
      VariantFreeIsTyped(env, ts[0], sts[0]);
      VariantFreeMembers(env, ts[1..], sts[1..]);
    }
  }

  lemma {:induction false} VariantFreeItems(env: Env, t: Type, sts: seq<Staged>)
    requires WellFormed(t) && VariantFree(t) && ItemsShaped(env.qt, t, sts)
    ensures AllTyped(ItemTrees(env, t, sts), t)
    decreases Size(t), 3, |sts|
  {
    if sts != [] {
      VariantFreeIsTyped(env, t, sts[0]);
      VariantFreeItems(env, t, sts[1..]);
    }
  }

  lemma {:induction false} VariantFreeEntries(env: Env, key: char, t: Type, sts: seq<Staged>)
    requires key in BASIC_CODES && WellFormed(t) && VariantFree(t) && EntriesShaped(env.qt, key, t, sts)
    ensures EntriesTyped(EntryTrees(env, key, t, sts), key, t)
    decreases Size(Dict(key, t)), 1, |sts|
  {
    if sts != [] {
      VariantFreeIsTyped(env, Type.Basic(key), sts[0].items[0]);
      VariantFreeIsTyped(env, t, sts[0].items[1]);
      VariantFreeEntries(env, key, t, sts[1..]);
    }
  }
}
