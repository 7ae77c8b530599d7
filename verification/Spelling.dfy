/** What the writer has to put on the wire for a value, whatever its two phases do: which values it
    accepts, and how an accepted one is spelled. */
module Spelling {
  import opened Options
  import opened Signature
  import opened Values
  import opened Wire
  import opened ObjectPath
  import opened Staging

  // ------------------------------------------------------------------------- the relation

  /** A basic position of code `c` may send `p` for `v`: a number in the range of the code that agrees
      with Qt's conversion up to that range, the conversion itself, a well-formed path or signature, or
      an explicit open descriptor. */
  ghost predicate Puts(q: Qt, c: char, v: Value, p: Payload) {
    match c
    case 'y' => p.Num? && IsByteOf(p.n, q.toUInt(v))
    case 'q' => p.Num? && 0 <= p.n < 65536 && (p.n - q.toUInt(v)) % 65536 == 0
    case 'n' => p.Num? && -32768 <= p.n < 32768 && (p.n - q.toInt(v)) % 65536 == 0
    case 'i' => p == Num(q.toInt(v))
    case 'u' => p == Num(q.toUInt(v))
    case 'x' => p == Num(q.toInt64(v))
    case 't' => p == Num(q.toUInt64(v))
    case 'b' => p == Flag(q.toBool(v))
    case 'd' => p == Real(q.toDouble(v))
    case 's' => p == Str(q.toText(v))
    case 'o' => p.Str? && IsObjectPath(p.s) && (v == Scalar('o', p) || (!NativeText(v, 'o') && p.s == q.toText(v)))
    case 'g' => p.Str? && Valid(p.s, Message) && (v == Scalar('g', p) || (!NativeText(v, 'g') && p.s == q.toText(v)))
    case 'h' => p.Fd? && p.fd.Live? && (v == Scalar('h', p) || (v.Owned? && v.fd == p.fd))
    case _ => false
  }

  predicate IsByteOf(n: int, x: int) {
    0 <= n < 256 && (n - x) % 256 == 0
  }

  predicate NativeText(v: Value, code: char) {
    v.Scalar? && v.code == code && v.payload.Str?
  }

  /** The bytes of an `ay` position. */
  ghost predicate BytesPut(q: Qt, v: Value, bytes: seq<int>) {
    match v
    case Scalar('s', Str(s)) => bytes == q.utf8(s)
    case ByteArray(bs) => bytes == bs
    case List(items) =>
      |bytes| == |items| && forall i :: 0 <= i < |items| ==> IsByteOf(bytes[i], q.toInt(items[i]))
    case _ => bytes == q.toBytes(v)
  }

  /** The texts of an `as` position. */
  ghost predicate TextsPut(q: Qt, v: Value, texts: seq<string>) {
    match v
    case StringList(ts) => texts == ts
    case Scalar('s', Str(s)) => texts == [s]
    case List(items) => |texts| == |items| && forall i :: 0 <= i < |items| ==> texts[i] == q.toText(items[i])
    case _ => texts == []
  }

  /** The elements a container position takes from a value: a list's own, a text list's texts, none
      of anything else. */
  ghost predicate ElementsPut(v: Value, items: seq<Value>) {
    match v
    case List(xs) => items == xs
    case StringList(texts) => |items| == |texts| && forall i :: 0 <= i < |texts| ==> items[i] == Scalar('s', Str(texts[i]))
    case _ => items == []
  }

  /** `w` is how `v` is written at the declared type `t`. */
  ghost predicate Spells(env: Env, t: Type, v: Value, w: Tree)
    decreases Size(t), 2
  {
    match t
    case Basic(c) => w.Leaf? && w.code == c && !FailureIn(v) && Puts(env.qt, c, v, w.payload)
    case Variant => env.qt.marshalable(v) && w == Box(env.infer(v).0, env.infer(v).1)
    case Struct(ms) => w.Record? && exists items :: ElementsPut(v, items) && MembersSpell(env, ms, items, w.members)
    case Dict(k, u) => w.Table? && w.key == [k] && w.value == Print(u) && EntriesSpell(env, k, u, ToMap(v), w.entries)
    case Array(e) =>
      && w.Sequence? && w.elem == Print(e)
      && if e == Type.Basic('y') then exists bytes :: BytesPut(env.qt, v, bytes) && w.items == ByteTrees(bytes)
         else if e == Type.Basic('s') then exists texts :: TextsPut(env.qt, v, texts) && w.items == TextTrees(texts)
         else exists items :: ElementsPut(v, items) && ItemsSpell(env, e, items, w.items)
  }

  /** A struct value with too few members is read as if padded with invalid ones; further ones are
      left out. */
  ghost predicate MembersSpell(env: Env, ts: seq<Type>, items: seq<Value>, ws: seq<Tree>)
    decreases SizeAll(ts), 1
  {
    && |ws| == |ts|
    && (ts == [] ||
        (Spells(env, ts[0], if items == [] then Invalid else items[0], ws[0])
            && MembersSpell(env, ts[1..], if items == [] then [] else items[1..], ws[1..])))
  }

  ghost predicate ItemsSpell(env: Env, t: Type, items: seq<Value>, ws: seq<Tree>)
    decreases Size(t), 3, |items|
  {
    |ws| == |items| && (items == [] || (Spells(env, t, items[0], ws[0]) && ItemsSpell(env, t, items[1..], ws[1..])))
  }

  ghost predicate EntriesSpell(env: Env, key: char, t: Type, entries: seq<Entry>, ws: seq<Tree>)
    decreases Size(Dict(key, t)), 1, |entries|
  {
    && |ws| == |entries|
    && (entries == [] ||
        (EntrySpells(env, key, t, entries[0], ws[0]) && EntriesSpell(env, key, t, entries[1..], ws[1..])))
  }

  ghost predicate EntrySpells(env: Env, key: char, t: Type, e: Entry, w: Tree)
    decreases Size(Dict(key, t)), 0
  {
    w.Pair? && Spells(env, Type.Basic(key), Text(e.key), w.first) && Spells(env, t, e.value, w.second)
  }

  /** How deep a value nests where it is written at a declared type; byte and text arrays and variants
      are written in one go. */
  ghost function Nesting(t: Type, v: Value): nat
    decreases Size(t), 2
  {
    match t
    case Struct(ms) => MemberNesting(ms, ToList(v))
    case Dict(k, u) => EntryNesting(k, u, ToMap(v))
    case Array(e) => if e == Type.Basic('y') || e == Type.Basic('s') then 0 else ItemNesting(e, ToList(v))
    case _ => 0
  }

  ghost function MemberNesting(ts: seq<Type>, items: seq<Value>): nat
    decreases SizeAll(ts), 1
  {
    if ts == [] then 0
    else if items == [] then Max(1 + Nesting(ts[0], Invalid), MemberNesting(ts[1..], []))
    else Max(1 + Nesting(ts[0], items[0]), MemberNesting(ts[1..], items[1..]))
  }

  ghost function ItemNesting(t: Type, items: seq<Value>): nat
    decreases Size(t), 3, |items|
  {
    if items == [] then 0 else Max(1 + Nesting(t, items[0]), ItemNesting(t, items[1..]))
  }

  ghost function EntryNesting(key: char, t: Type, entries: seq<Entry>): nat
    decreases Size(Dict(key, t)), 1, |entries|
  {
    if entries == [] then 0 else Max(1 + Nesting(t, entries[0].value), EntryNesting(key, t, entries[1..]))
  }

  // ----------------------------------------------------------------- the writer meets it

  lemma ProducesExactly(q: Qt, c: char, v: Value, p: Payload)
    ensures Produce(q, c, v) == Some(p) <==> !FailureIn(v) && Puts(q, c, v, p)
  {
    hide FailureIn, IsObjectPath, Valid, Signed16;
    if p.Num? {
      Byte(p.n, q.toUInt(v));
      Word(p.n, q.toUInt(v));
      SignedWord(p.n, q.toInt(v));
    }
    SignedWord(Signed16(q.toInt(v)), q.toInt(v));
  }

  lemma Byte(n: int, x: int)
    ensures n == x % 0x100 <==> IsByteOf(n, x)
  {
  }

  lemma Word(n: int, x: int)
    ensures n == x % 0x10000 <==> 0 <= n < 65536 && (n - x) % 65536 == 0
  {
  }

  lemma SignedWord(n: int, x: int)
    ensures n == Signed16(x) <==> -32768 <= n < 32768 && (n - x) % 65536 == 0
  {
  }

  lemma {:induction false} LowBytesAre(q: Qt, items: seq<Value>)
    ensures |LowBytes(q, items)| == |items| && forall i :: 0 <= i < |items| ==> LowBytes(q, items)[i] == q.toInt(items[i]) % 0x100
  {
    if items != [] {
      LowBytesAre(q, items[1..]);
    }
  }

  lemma {:induction false} TextsAre(q: Qt, items: seq<Value>)
    ensures |TextsOf(q, items)| == |items| && forall i :: 0 <= i < |items| ==> TextsOf(q, items)[i] == q.toText(items[i])
  {
    if items != [] {
      TextsAre(q, items[1..]);
    }
  }

  lemma BytesExactly(q: Qt, v: Value, bytes: seq<int>)
    ensures bytes == ToByteArray(q, v) <==> BytesPut(q, v, bytes)
  {
    if v.List? {
      hide LowBytes, IsByteOf;
      LowBytesAre(q, v.items);
      var low := LowBytes(q, v.items);
      forall i | 0 <= i < |v.items| && |bytes| == |v.items| ensures bytes[i] == low[i] <==> IsByteOf(bytes[i], q.toInt(v.items[i])) {
        Byte(bytes[i], q.toInt(v.items[i]));
      }
    }
  }

  lemma TextsExactly(q: Qt, v: Value, texts: seq<string>)
    ensures texts == ToStringList(q, v) <==> TextsPut(q, v, texts)
  {
    if v.List? {
      hide TextsOf;
      TextsAre(q, v.items);
    }
  }

  lemma {:induction false} TextValuesAre(texts: seq<string>)
    ensures |TextValues(texts)| == |texts| && forall i :: 0 <= i < |texts| ==> TextValues(texts)[i] == Scalar('s', Str(texts[i]))
  {
    if texts != [] {
      TextValuesAre(texts[1..]);
    }
  }

  lemma ElementsExactly(v: Value, items: seq<Value>)
    ensures items == ToList(v) <==> ElementsPut(v, items)
  {
    if v.StringList? {
      TextValuesAre(v.texts);
      assert ElementsPut(v, ToList(v));
    }
  }

  /** The writer stages a value and streams it as `w`. */
  ghost predicate Writes(env: Env, t: Type, v: Value, depth: nat, w: Tree) {
    var st := Stage(env.qt, t, v, depth);
    st.Some? && Shaped(env.qt, t, st.value) && TreeOf(env, t, st.value) == w
  }

  ghost predicate WritesMembers(env: Env, ts: seq<Type>, items: seq<Value>, depth: nat, ws: seq<Tree>) {
    var sts := StageMembers(env.qt, ts, items, depth);
    sts.Some? && |sts.value| == |ts| && MembersShaped(env.qt, ts, sts.value) && MemberTrees(env, ts, sts.value) == ws
  }

  ghost predicate WritesItems(env: Env, t: Type, items: seq<Value>, depth: nat, ws: seq<Tree>) {
    var sts := StageItems(env.qt, t, items, depth);
    sts.Some? && ItemsShaped(env.qt, t, sts.value) && ItemTrees(env, t, sts.value) == ws
  }

  ghost predicate WritesEntries(env: Env, key: char, t: Type, entries: seq<Entry>, depth: nat, ws: seq<Tree>) {
    var sts := StageEntries(env.qt, key, t, entries, depth);
    sts.Some? && EntriesShaped(env.qt, key, t, sts.value) && EntryTrees(env, key, t, sts.value) == ws
  }

  /** What is written, and whether: exactly the spelling of the value, if it nests no deeper than 32. */
  lemma {:induction false} WritesExactly(env: Env, t: Type, v: Value, depth: nat, w: Tree)
    requires WellFormed(t)
    ensures Writes(env, t, v, depth, w) <==> depth + Nesting(t, v) <= 32 && Spells(env, t, v, w)
    decreases Size(t), 2
  {
    hide StageMembers, StageItems, StageEntries, MembersShaped, ItemsShaped, EntriesShaped, MemberTrees, ItemTrees, EntryTrees;
    hide MembersSpell, ItemsSpell, EntriesSpell, MemberNesting, ItemNesting, EntryNesting, ToList, ToMap, Produce, Puts;
    match t {
      case Basic(c) => BasicExactly(env, c, v, depth, w);
      case Variant =>
      case Struct(ms) => StructExactly(env, ms, v, depth, w);
      case Dict(k, u) => DictExactly(env, k, u, v, depth, w);
      case Array(e) =>
        if e == Type.Basic('y') || e == Type.Basic('s') {
          PlainExactly(env, e, v, depth, w);
        } else {
          ArrayExactly(env, e, v, depth, w);
        }
    }
  }

  lemma BasicExactly(env: Env, c: char, v: Value, depth: nat, w: Tree)
    requires c in BASIC_CODES
    ensures Writes(env, Type.Basic(c), v, depth, w) <==> depth <= 32 && Spells(env, Type.Basic(c), v, w)
  {
    StageIsShaped(env.qt, Type.Basic(c), v, depth);
    hide Produce, Puts, FailureIn, Shaped;
    if w.Leaf? {
      ProducesExactly(env.qt, c, v, w.payload);
    }
  }

  lemma PlainExactly(env: Env, e: Type, v: Value, depth: nat, w: Tree)
    requires e == Type.Basic('y') || e == Type.Basic('s')
    ensures Writes(env, Array(e), v, depth, w) <==> depth <= 32 && Spells(env, Array(e), v, w)
  {
    hide ToByteArray, ToStringList, ByteTrees, TextTrees, BytesPut, TextsPut;
    assert Print(e) == [e.code];
    BytesExactly(env.qt, v, ToByteArray(env.qt, v));
    TextsExactly(env.qt, v, ToStringList(env.qt, v));
    forall bytes ensures BytesPut(env.qt, v, bytes) ==> bytes == ToByteArray(env.qt, v) { BytesExactly(env.qt, v, bytes); }
    forall texts ensures TextsPut(env.qt, v, texts) ==> texts == ToStringList(env.qt, v) { TextsExactly(env.qt, v, texts); }
  }

  lemma OneReading(v: Value)
    ensures ElementsPut(v, ToList(v)) && forall items :: ElementsPut(v, items) ==> items == ToList(v)
  {
    forall items ensures ElementsPut(v, items) <==> items == ToList(v) { ElementsExactly(v, items); }
  }

  lemma {:induction false} StructExactly(env: Env, ms: seq<Type>, v: Value, depth: nat, w: Tree)
    requires WellFormed(Struct(ms))
    ensures Writes(env, Struct(ms), v, depth, w) <==> depth + MemberNesting(ms, ToList(v)) <= 32 && Spells(env, Struct(ms), v, w)
    decreases Size(Struct(ms)), 1
  {
    hide StageMembers, MembersShaped, MemberTrees, MembersSpell, ToList, ElementsPut;
    OneReading(v);
    MemberNestingPositive(ms, ToList(v));
    if w.Record? {
      MembersExactly(env, ms, ToList(v), depth + 1, w.members);
    }
  }

  lemma MemberNestingPositive(ms: seq<Type>, items: seq<Value>)
    requires ms != []
    ensures MemberNesting(ms, items) >= 1
  {
  }

  lemma {:induction false} ArrayExactly(env: Env, e: Type, v: Value, depth: nat, w: Tree)
    requires WellFormed(e) && e != Type.Basic('y') && e != Type.Basic('s')
    ensures Writes(env, Array(e), v, depth, w) <==>
              depth <= 32 && depth + ItemNesting(e, ToList(v)) <= 32 && Spells(env, Array(e), v, w)
    decreases Size(Array(e)), 1
  {
    hide StageItems, ItemsShaped, ItemTrees, ItemsSpell, ToList, ElementsPut, Print;
    OneReading(v);
    if w.Sequence? {
      ItemsExactly(env, e, ToList(v), depth + 1, w.items);
    }
  }

  lemma {:induction false} DictExactly(env: Env, k: char, u: Type, v: Value, depth: nat, w: Tree)
    requires k in BASIC_CODES && WellFormed(u)
    ensures Writes(env, Dict(k, u), v, depth, w) <==>
              depth <= 32 && depth + EntryNesting(k, u, ToMap(v)) <= 32 && Spells(env, Dict(k, u), v, w)
    decreases Size(Dict(k, u)), 1
  {
    hide StageEntries, EntriesShaped, EntryTrees, EntriesSpell, ToMap, Print;
    if w.Table? {
      EntriesExactly(env, k, u, ToMap(v), depth + 1, w.entries);
    }
  }

  lemma {:induction false} MembersExactly(env: Env, ts: seq<Type>, items: seq<Value>, depth: nat, ws: seq<Tree>)
    requires AllWellFormed(ts) && depth > 0
    ensures WritesMembers(env, ts, items, depth, ws) <==>
              (ts == [] || depth - 1 + MemberNesting(ts, items) <= 32) && MembersSpell(env, ts, items, ws)
    decreases SizeAll(ts), 1
  {
    hide Stage, Shaped, TreeOf, Spells, Nesting;
    if ts != [] && ws != [] {
      var v, rest := Child(items), Others(items);
      WritesExactly(env, ts[0], v, depth, ws[0]);
      MembersExactly(env, ts[1..], rest, depth, ws[1..]);
      assert ws == [ws[0]] + ws[1..];
    }
  }

  lemma {:induction false} ItemsExactly(env: Env, t: Type, items: seq<Value>, depth: nat, ws: seq<Tree>)
    requires WellFormed(t) && depth > 0
    ensures WritesItems(env, t, items, depth, ws) <==>
              (items == [] || depth - 1 + ItemNesting(t, items) <= 32) && ItemsSpell(env, t, items, ws)
    decreases Size(t), 3, |items|
  {
    hide Stage, Shaped, TreeOf, Spells, Nesting;
    if items != [] && ws != [] {
      WritesExactly(env, t, items[0], depth, ws[0]);
      ItemsExactly(env, t, items[1..], depth, ws[1..]);
      assert ws == [ws[0]] + ws[1..];
    }
  }

  ghost predicate WritesEntry(env: Env, key: char, t: Type, e: Entry, depth: nat, w: Tree) {
    var st := StageEntry(env.qt, key, t, e, depth);
    st.Some? && EntryShaped(env.qt, key, t, st.value) && EntryTree(env, key, t, st.value) == w
  }

  lemma {:induction false} EntryExactly(env: Env, key: char, t: Type, e: Entry, depth: nat, w: Tree)
    requires key in BASIC_CODES && WellFormed(t)
    ensures WritesEntry(env, key, t, e, depth, w) <==> depth + Nesting(t, e.value) <= 32 && EntrySpells(env, key, t, e, w)
    decreases Size(Dict(key, t)), 0
  {
    hide Stage, Shaped, TreeOf, Spells, Nesting;
    if w.Pair? {
      BasicExactly(env, key, Text(e.key), depth, w.first);
      WritesExactly(env, t, e.value, depth, w.second);
    }
  }

  lemma {:induction false} EntriesExactly(env: Env, key: char, t: Type, entries: seq<Entry>, depth: nat, ws: seq<Tree>)
    requires key in BASIC_CODES && WellFormed(t) && depth > 0
    ensures WritesEntries(env, key, t, entries, depth, ws) <==>
              (entries == [] || depth - 1 + EntryNesting(key, t, entries) <= 32) && EntriesSpell(env, key, t, entries, ws)
    decreases Size(Dict(key, t)), 1, |entries|
  {
    hide StageEntry, EntryShaped, EntryTree, EntrySpells, Nesting;
    if entries != [] && ws != [] {
      EntryExactly(env, key, t, entries[0], depth, ws[0]);
      EntriesExactly(env, key, t, entries[1..], depth, ws[1..]);
      assert ws == [ws[0]] + ws[1..];
    }
  }

  // ------------------------------------------------------------------------- guarantees

  /** A value is accepted exactly if it can be spelled at all and nests at most 32 deep; then it is
      written as spelled, and there is only one spelling. */
  lemma AcceptsExactly(env: Env, t: Type, v: Value)
    requires WellFormed(t)
    ensures Stage(env.qt, t, v, 0).Some? <==> Nesting(t, v) <= 32 && exists w :: Spells(env, t, v, w)
    ensures var st := Stage(env.qt, t, v, 0);
            st.Some? ==> Shaped(env.qt, t, st.value) && forall w :: Spells(env, t, v, w) <==> w == TreeOf(env, t, st.value)
  {
    StageIsShaped(env.qt, t, v, 0);
    hide Stage, Shaped, TreeOf, Spells, Nesting;
    var st := Stage(env.qt, t, v, 0);
    if st.Some? {
      WritesExactly(env, t, v, 0, TreeOf(env, t, st.value));
    }
    forall w | Spells(env, t, v, w) && Nesting(t, v) <= 32 ensures Writes(env, t, v, 0, w) {
      WritesExactly(env, t, v, 0, w);
    }
  }

  /** An `h` position is accepted exactly if it holds an explicit descriptor that is open. */
  lemma OnlyOpenDescriptors(q: Qt, v: Value)
    ensures Stage(q, Type.Basic('h'), v, 0).Some? <==>
              exists r: FdRef :: r.Live? && (v == Scalar('h', Fd(r)) || (v.Owned? && v.fd == r))
  {
    assert v.Owned? && v.fd.Live? ==> v.fd.Live? && v.Owned? && v.fd == v.fd;
  }

  /** Every descriptor on the wire outside variants is open. */
  predicate DescriptorsOpen(w: Tree)
    decreases w, 1
  {
    match w
    case Leaf(_, p) => p.Fd? ==> p.fd.Live?
    case Record(ms) => AllOpen(ms)
    case Sequence(_, items) => AllOpen(items)
    case Table(_, _, entries) => AllOpen(entries)
    case Pair(a, b) => DescriptorsOpen(a) && DescriptorsOpen(b)
    case Box(_, _) => true
  }

  predicate AllOpen(ws: seq<Tree>)
    decreases ws, 0
  {
    ws == [] || (DescriptorsOpen(ws[0]) && AllOpen(ws[1..]))
  }

  lemma {:induction false} SpelledOpen(env: Env, t: Type, v: Value, w: Tree)
    requires Spells(env, t, v, w)
    ensures DescriptorsOpen(w)
    decreases Size(t), 2
  {
    hide ElementsPut, BytesPut, TextsPut, ByteTrees, TextTrees;
    match t {
      case Basic(_) =>
      case Variant =>
      case Struct(ms) =>
        var items :| ElementsPut(v, items) && MembersSpell(env, ms, items, w.members);
        MembersOpen(env, ms, items, w.members);
      case Dict(k, u) => EntriesOpen(env, k, u, ToMap(v), w.entries);
      case Array(e) =>
        if e == Type.Basic('y') {
          var bytes :| BytesPut(env.qt, v, bytes) && w.items == ByteTrees(bytes);
          BytesOpen(bytes);
        } else if e == Type.Basic('s') {
          var texts :| TextsPut(env.qt, v, texts) && w.items == TextTrees(texts);
          TextsOpen(texts);
        } else {
          var items :| ElementsPut(v, items) && ItemsSpell(env, e, items, w.items);
          ItemsOpen(env, e, items, w.items);
        }
    }
  }

  lemma {:induction false} BytesOpen(bytes: seq<int>)
    ensures AllOpen(ByteTrees(bytes))
  {
    if bytes != [] { BytesOpen(bytes[1..]); }
  }

  lemma {:induction false} TextsOpen(texts: seq<string>)
    ensures AllOpen(TextTrees(texts))
  {
    if texts != [] { TextsOpen(texts[1..]); }
  }

  lemma {:induction false} MembersOpen(env: Env, ts: seq<Type>, items: seq<Value>, ws: seq<Tree>)
    requires MembersSpell(env, ts, items, ws)
    ensures AllOpen(ws)
    decreases SizeAll(ts), 1
  {
    if ts != [] {
      SpelledOpen(env, ts[0], Child(items), ws[0]);
      MembersOpen(env, ts[1..], Others(items), ws[1..]);
    }
  }

  lemma {:induction false} ItemsOpen(env: Env, t: Type, items: seq<Value>, ws: seq<Tree>)
    requires ItemsSpell(env, t, items, ws)
    ensures AllOpen(ws)
    decreases Size(t), 3, |items|
  {
    if items != [] {
      SpelledOpen(env, t, items[0], ws[0]);
      ItemsOpen(env, t, items[1..], ws[1..]);
    }
  }

  lemma {:induction false} EntriesOpen(env: Env, key: char, t: Type, entries: seq<Entry>, ws: seq<Tree>)
    requires EntriesSpell(env, key, t, entries, ws)
    ensures AllOpen(ws)
    decreases Size(Dict(key, t)), 1, |entries|
  {
    if entries != [] {
      SpelledOpen(env, Type.Basic(key), Text(entries[0].key), ws[0].first);
      SpelledOpen(env, t, entries[0].value, ws[0].second);
      EntriesOpen(env, key, t, entries[1..], ws[1..]);
    }
  }

  /** A refused conversion anywhere in a value is found: in the value itself or in one of its parts. */
  lemma {:induction false} FailureIsFound(v: Value)
    ensures FailureIn(v) <==>
              match v
              case Failure(_) => true
              case Boxed(x) => FailureIn(x)
              case List(items) => exists i :: 0 <= i < |items| && FailureIn(items[i])
              case Map(entries) => exists i :: 0 <= i < |entries| && FailureIn(entries[i].value)
              case _ => false
  {
    match v {
      case List(items) => AnyFailureFound(items);
      case Map(entries) => AnyEntryFailureFound(entries);
      case _ =>
    }
  }

  lemma {:induction false} AnyFailureFound(items: seq<Value>)
    ensures AnyFailure(items) <==> exists i :: 0 <= i < |items| && FailureIn(items[i])
  {
    hide FailureIn;
    if items != [] {
      AnyFailureFound(items[1..]);
      assert forall i :: 0 < i < |items| ==> items[i] == items[1..][i - 1];
      assert forall i :: 0 <= i < |items[1..]| ==> items[1..][i] == items[i + 1];
    }
  }

  lemma {:induction false} AnyEntryFailureFound(entries: seq<Entry>)
    ensures AnyEntryFailure(entries) <==> exists i :: 0 <= i < |entries| && FailureIn(entries[i].value)
  {
    hide FailureIn;
    if entries != [] {
      AnyEntryFailureFound(entries[1..]);
      assert forall i :: 0 < i < |entries| ==> entries[i] == entries[1..][i - 1];
      assert forall i :: 0 <= i < |entries[1..]| ==> entries[1..][i] == entries[i + 1];
    }
  }
}
