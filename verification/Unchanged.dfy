/** A value that is what its declared type says, natively and at every level, comes back unchanged. */
module Unchanged {
  import opened Options
  import opened Signature
  import opened Values
  import opened Wire
  import opened ObjectPath
  import opened Staging
  import opened Decode
  import opened DecodeLimits
  import opened Spelling
  import opened Carrying
  import opened RoundTrip

  /** Qt's conversions leave native payloads alone. */
  ghost predicate KeepsNative(q: Qt) {
    && (forall n :: q.toUInt(Scalar('y', Num(n))) == n && q.toUInt(Scalar('q', Num(n))) == n && q.toUInt(Scalar('u', Num(n))) == n)
    && (forall n :: q.toInt(Scalar('n', Num(n))) == n && q.toInt(Scalar('i', Num(n))) == n)
    && (forall n :: q.toInt64(Scalar('x', Num(n))) == n)
    && (forall n :: q.toUInt64(Scalar('t', Num(n))) == n)
    && (forall b :: q.toBool(Scalar('b', Flag(b))) == b)
    && (forall r :: q.toDouble(Scalar('d', Real(r))) == r)
    && (forall s :: q.toText(Scalar('s', Str(s))) == s)
  }

  /** A scalar of exactly this code that it may carry; a path or a signature as a string; an open
      descriptor. */
  ghost predicate NativeBasic(c: char, v: Value) {
    match c
    case 'y' => v.Scalar? && v.code == 'y' && v.payload.Num? && 0 <= v.payload.n < 256
    case 'q' => v.Scalar? && v.code == 'q' && v.payload.Num? && 0 <= v.payload.n < 65536
    case 'n' => v.Scalar? && v.code == 'n' && v.payload.Num? && -32768 <= v.payload.n < 32768
    case 'b' => v.Scalar? && v.code == 'b' && v.payload.Flag?
    case 'd' => v.Scalar? && v.code == 'd' && v.payload.Real?
    case 's' => v.Scalar? && v.code == 's' && v.payload.Str?
    case 'o' => v.Scalar? && v.code == 's' && v.payload.Str? && IsObjectPath(v.payload.s)
    case 'g' => v.Scalar? && v.code == 's' && v.payload.Str? && Valid(v.payload.s, Message)
    case 'h' => v.Owned? && v.handle == 0 && v.fd.Live?
    case _ => c in "iuxt" && v.Scalar? && v.code == c && v.payload.Num?
  }

  /** A dict key whose text survives: any string, path or signature, and whatever Qt turns into a
      number and back into the same text. */
  ghost predicate NativeKey(q: Qt, c: char, key: string) {
    && (exists p :: Puts(q, c, Text(key), p))
    && forall p, got :: Puts(q, c, Text(key), p) && Bears(q, Leaf(c, p), got) ==> q.toText(got) == key
  }

  lemma TextKeysSurvive(q: Qt, c: char, key: string)
    requires KeepsNative(q) && (c == 's' || (c == 'o' && IsObjectPath(key)) || (c == 'g' && Valid(key, Message)))
    ensures NativeKey(q, c, key)
  {
    hide IsObjectPath, Valid;
    assert q.toText(Scalar('s', Str(key))) == key;
    assert Puts(q, c, Text(key), Str(key));
    forall p, got | Puts(q, c, Text(key), p) && Bears(q, Leaf(c, p), got) ensures q.toText(got) == key {
      TextPut(q, c, key, p);
    }
  }

  lemma TextPut(q: Qt, c: char, key: string, p: Payload)
    requires (c == 's' || c == 'o' || c == 'g') && q.toText(Text(key)) == key && Puts(q, c, Text(key), p)
    ensures p == Str(key)
  {
    hide IsObjectPath, Valid;
  }

  /** What the declared type says, all the way down; a variant's payload is one that Qt's own inference
      does not change. */
  ghost predicate Native(env: Env, t: Type, v: Value)
    decreases Size(t), 2
  {
    match t
    case Basic(c) => NativeBasic(c, v)
    case Variant => env.qt.marshalable(v) && forall got :: BearsInside(env.qt, env.infer(v).1, got) ==> Erase(got) == v
    case Struct(ms) => v.List? && NativeMembers(env, ms, v.items)
    case Dict(k, u) => v.Map? && Ascending(v.entries) && NativeEntries(env, k, u, v.entries)
    case Array(e) =>
      if e == Type.Basic('y') then v.ByteArray?
      else if e == Type.Basic('s') then v.StringList?
      else v.List? && NativeItems(env, e, v.items)
  }

  ghost predicate NativeMembers(env: Env, ts: seq<Type>, items: seq<Value>)
    decreases SizeAll(ts), 1
  {
    |ts| == |items| && (ts == [] || (Native(env, ts[0], items[0]) && NativeMembers(env, ts[1..], items[1..])))
  }

  ghost predicate NativeItems(env: Env, t: Type, items: seq<Value>)
    decreases Size(t), 3, |items|
  {
    items == [] || (Native(env, t, items[0]) && NativeItems(env, t, items[1..]))
  }

  ghost predicate NativeEntries(env: Env, key: char, t: Type, entries: seq<Entry>)
    decreases Size(Dict(key, t)), 1, |entries|
  {
    entries == [] || (NativeKey(env.qt, key, entries[0].key) && Native(env, t, entries[0].value)
        && NativeEntries(env, key, t, entries[1..]))
  }

  // ------------------------------------------------------------------- it can be written

  lemma NativeHasNoFailure(c: char, v: Value)
    requires NativeBasic(c, v)
    ensures !FailureIn(v)
  {
  }

  lemma NativePut(q: Qt, c: char, v: Value) returns (p: Payload)
    requires KeepsNative(q) && NativeBasic(c, v)
    ensures Puts(q, c, v, p)
  {
    hide IsObjectPath, Valid;
    p := if c == 'h' then Fd(v.fd) else v.payload;
  }

  lemma {:induction false} NativeSpelled(env: Env, t: Type, v: Value) returns (w: Tree)
    requires KeepsNative(env.qt) && Native(env, t, v)
    ensures Spells(env, t, v, w)
    decreases Size(t), 2
  {
    match t {
      case Basic(c) =>
        var p := NativePut(env.qt, c, v);
        NativeHasNoFailure(c, v);
        w := Leaf(c, p);
      case Variant => w := Box(env.infer(v).0, env.infer(v).1);
      case Struct(ms) =>
        var ws := MembersSpelled(env, ms, v.items);
        assert ElementsPut(v, v.items);
        w := Record(ws);
      case Dict(k, u) =>
        var ws := EntriesSpelled(env, k, u, v.entries);
        w := Table([k], Print(u), ws);
      case Array(e) =>
        if e == Type.Basic('y') {
          assert BytesPut(env.qt, v, v.bytes);
          w := Sequence(Print(e), ByteTrees(v.bytes));
        } else if e == Type.Basic('s') {
          assert TextsPut(env.qt, v, v.texts);
          w := Sequence(Print(e), TextTrees(v.texts));
        } else {
          var ws := ItemsSpelled(env, e, v.items);
          assert ElementsPut(v, v.items);
          w := Sequence(Print(e), ws);
        }
    }
  }

  lemma {:induction false} MembersSpelled(env: Env, ts: seq<Type>, items: seq<Value>) returns (ws: seq<Tree>)
    requires KeepsNative(env.qt) && NativeMembers(env, ts, items)
    ensures MembersSpell(env, ts, items, ws)
    decreases SizeAll(ts), 1
  {
    ws := [];
    if ts != [] {
      var w := NativeSpelled(env, ts[0], items[0]);
      var rest := MembersSpelled(env, ts[1..], items[1..]);
      ws := [w] + rest;
      assert ws[1..] == rest;
    }
  }

  lemma {:induction false} ItemsSpelled(env: Env, t: Type, items: seq<Value>) returns (ws: seq<Tree>)
    requires KeepsNative(env.qt) && NativeItems(env, t, items)
    ensures ItemsSpell(env, t, items, ws)
    decreases Size(t), 3, |items|
  {
    ws := [];
    if items != [] {
      var w := NativeSpelled(env, t, items[0]);
      var rest := ItemsSpelled(env, t, items[1..]);
      ws := [w] + rest;
      assert ws[1..] == rest;
    }
  }

  lemma {:induction false} EntriesSpelled(env: Env, key: char, t: Type, entries: seq<Entry>) returns (ws: seq<Tree>)
    requires KeepsNative(env.qt) && NativeEntries(env, key, t, entries)
    ensures EntriesSpell(env, key, t, entries, ws)
    decreases Size(Dict(key, t)), 1, |entries|
  {
    ws := [];
    if entries != [] {
      var p :| Puts(env.qt, key, Text(entries[0].key), p);
      var w := NativeSpelled(env, t, entries[0].value);
      var rest := EntriesSpelled(env, key, t, entries[1..]);
      KeySpelled(env, key, entries[0].key, p);
      ws := [Pair(Leaf(key, p), w)] + rest;
      assert ws[1..] == rest;
    }
  }

  lemma KeySpelled(env: Env, key: char, text: string, p: Payload)
    requires Puts(env.qt, key, Text(text), p)
    ensures Spells(env, Type.Basic(key), Text(text), Leaf(key, p))
  {
  }

  // --------------------------------------------------------------------- and comes back

  lemma {:induction false} ComesBack(env: Env, t: Type, v: Value, w: Tree, got: Value)
    requires KeepsNative(env.qt) && WellFormed(t) && Native(env, t, v) && Spells(env, t, v, w) && Bears(env.qt, w, got)
    ensures Erase(got) == v
    decreases Size(t), 2
  {
    hide Puts, BytesPut, TextsPut, KeepsNative, NativeBasic, NativeMembers, NativeItems, NativeEntries, Print;
    match t {
      case Basic(c) => BasicComesBack(env, c, v, w, got);
      case Variant =>
      case Struct(ms) =>
        var items :| ElementsPut(v, items) && MembersSpell(env, ms, items, w.members);
        MembersComeBack(env, ms, v.items, w.members, got.items);
      case Dict(k, u) => DictComesBack(env, k, u, v, w, got);
      case Array(e) => ArrayComesBack(env, e, v, w, got);
    }
  }

  lemma BasicComesBack(env: Env, c: char, v: Value, w: Tree, got: Value)
    requires KeepsNative(env.qt) && NativeBasic(c, v) && Spells(env, Type.Basic(c), v, w) && Bears(env.qt, w, got)
    ensures Erase(got) == v
  {
    hide IsObjectPath, Valid, FailureIn;
    var p := w.payload;
    if p.Num? && v.Scalar? && v.payload.Num? {
      SameResidue(p.n, v.payload.n);
    }
  }

  lemma SameResidue(a: int, b: int)
    ensures 0 <= a < 256 && 0 <= b < 256 && (a - b) % 256 == 0 ==> a == b
    ensures 0 <= a < 65536 && 0 <= b < 65536 && (a - b) % 65536 == 0 ==> a == b
    ensures -32768 <= a < 32768 && -32768 <= b < 32768 && (a - b) % 65536 == 0 ==> a == b
  {
  }

  lemma {:induction false} MembersComeBack(env: Env, ts: seq<Type>, items: seq<Value>, ws: seq<Tree>, got: seq<Value>)
    requires KeepsNative(env.qt) && AllWellFormed(ts) && NativeMembers(env, ts, items) && MembersSpell(env, ts, items, ws)
        && AllBear(env.qt, ws, got)
    ensures EraseAll(got) == items
    decreases SizeAll(ts), 1
  {
    hide Native, Spells, Bears, Erase;
    if ts != [] {
      ComesBack(env, ts[0], items[0], ws[0], got[0]);
      MembersComeBack(env, ts[1..], items[1..], ws[1..], got[1..]);
    }
  }

  lemma {:induction false} ItemsComeBack(env: Env, t: Type, items: seq<Value>, ws: seq<Tree>, got: seq<Value>)
    requires KeepsNative(env.qt) && WellFormed(t) && NativeItems(env, t, items) && ItemsSpell(env, t, items, ws)
        && AllBear(env.qt, ws, got)
    ensures EraseAll(got) == items
    decreases Size(t), 3, |items|
  {
    hide Native, Spells, Bears, Erase;
    if items != [] {
      ComesBack(env, t, items[0], ws[0], got[0]);
      ItemsComeBack(env, t, items[1..], ws[1..], got[1..]);
    }
  }

  lemma {:induction false} ArrayComesBack(env: Env, e: Type, v: Value, w: Tree, got: Value)
    requires KeepsNative(env.qt) && WellFormed(e)
    requires Native(env, Array(e), v) && Spells(env, Array(e), v, w) && Bears(env.qt, w, got)
    ensures Erase(got) == v
    decreases Size(Array(e)), 1
  {
    hide KeepsNative, NativeItems, ItemsSpell, AllBear, EraseAll, BytesBorne, TextsBorne, ByteTrees, TextTrees;
    BasicElement(e);
    assert Print(Type.Basic('y')) == "y" && Print(Type.Basic('s')) == "s";
    if e == Type.Basic('y') {
      BytesBack(v.bytes, got.bytes);
    } else if e == Type.Basic('s') {
      TextsBack(v.texts, got.texts);
    } else {
      var items :| ElementsPut(v, items) && ItemsSpell(env, e, items, w.items);
      ItemsComeBack(env, e, v.items, w.items, got.items);
    }
  }

  lemma {:induction false} BytesThere(bytes: seq<int>)
    ensures |ByteTrees(bytes)| == |bytes| && forall i :: 0 <= i < |bytes| ==> ByteTrees(bytes)[i] == Tree.Leaf('y', Num(bytes[i]))
  {
    if bytes != [] {
      BytesThere(bytes[1..]);
    }
  }

  lemma BytesBack(bytes: seq<int>, got: seq<int>)
    requires BytesBorne(ByteTrees(bytes), got)
    ensures got == bytes
  {
    hide ByteTrees;
    BytesThere(bytes);
  }

  lemma {:induction false} TextsThere(texts: seq<string>)
    ensures |TextTrees(texts)| == |texts| && forall i :: 0 <= i < |texts| ==> TextTrees(texts)[i] == Tree.Leaf('s', Str(texts[i]))
  {
    if texts != [] {
      TextsThere(texts[1..]);
    }
  }

  lemma TextsBack(texts: seq<string>, got: seq<string>)
    requires TextsBorne(TextTrees(texts), got)
    ensures got == texts
  {
    hide TextTrees;
    TextsThere(texts);
  }

  // ------------------------------------------------------------------------------- maps

  /** The entries of a map as they were put there. */
  function Zip(keys: seq<string>, vs: seq<Value>): seq<Entry>
    requires |keys| == |vs|
    decreases |keys|
  {
    if keys == [] then [] else [Entry(keys[0], vs[0])] + Zip(keys[1..], vs[1..])
  }

  /** A sorted map is determined by what it holds. */
  lemma {:induction false} SortedIsUnique(a: seq<Entry>, b: seq<Entry>)
    requires Ascending(a) && Ascending(b) && forall key :: Lookup(a, key) == Lookup(b, key)
    ensures a == b
    decreases |a| + |b|
  {
    FirstIsThere(a);
    FirstIsThere(b);
    if a != [] && b != [] {
      var k, l := a[0].key, b[0].key;
      assert Lookup(a, k) == Lookup(b, k) && Lookup(a, l) == Lookup(b, l);
      BeforeOrders(k, l, "");
      BelowAll(a, l);
      BelowAll(b, k);
      hide Before;
      assert k == l;
      forall key ensures Lookup(a[1..], key) == Lookup(b[1..], key) {
        assert Lookup(a, key) == Lookup(b, key);
        HeadOnly(a, key);
        HeadOnly(b, key);
      }
      SortedIsUnique(a[1..], b[1..]);
      assert a == [a[0]] + a[1..] && b == [b[0]] + b[1..];
    }
  }

  lemma FirstIsThere(m: seq<Entry>)
    ensures m != [] ==> Lookup(m, m[0].key) == Some(m[0].value)
  {
  }

  /** A key before the first is not there. */
  lemma BelowAll(m: seq<Entry>, key: string)
    requires Ascending(m) && m != []
    ensures Before(key, m[0].key) ==> Lookup(m, key) == None
  {
    if Before(key, m[0].key) {
      forall e | e in m ensures e.key != key {
        var i :| 0 <= i < |m| && m[i] == e;
        BeforeOrders(key, m[0].key, e.key);
      }
      LookupAbsent(m, key);
    }
  }

  lemma HeadOnly(m: seq<Entry>, key: string)
    requires Ascending(m) && m != []
    ensures key == m[0].key ==> Lookup(m[1..], key) == None
  {
    forall e | e in m[1..] ensures e.key != m[0].key {
      var i :| 0 <= i < |m[1..]| && m[1..][i] == e;
      assert e == m[i + 1];
      BeforeOrders(m[0].key, e.key, "");
    }
    LookupAbsent(m[1..], m[0].key);
  }

  /** Of entries with sorted keys the last of each key is the only one. */
  lemma {:induction false} ZipHolds(keys: seq<string>, vs: seq<Value>, key: string)
    requires |keys| == |vs| && Ascending(Zip(keys, vs))
    ensures Lookup(Zip(keys, vs), key) == Latest(keys, vs, key)
    decreases |keys|
  {
    if keys != [] {
      var m := Zip(keys, vs);
      assert m[1..] == Zip(keys[1..], vs[1..]);
      ZipHolds(keys[1..], vs[1..], key);
      HeadOnly(m, key);
    }
  }

  lemma {:induction false} ZipErased(keys: seq<string>, vs: seq<Value>, entries: seq<Entry>)
    requires |keys| == |vs| == |entries|
    requires forall i :: 0 <= i < |entries| ==> keys[i] == entries[i].key && Erase(vs[i]) == entries[i].value
    ensures EraseEntries(Zip(keys, vs)) == entries
    ensures Ascending(entries) ==> Ascending(Zip(keys, vs))
    decreases |keys|
  {
    hide Erase, Before;
    ZipKeys(keys, vs);
    if keys != [] {
      ZipErased(keys[1..], vs[1..], entries[1..]);
      EraseCons(Entry(keys[0], vs[0]), Zip(keys[1..], vs[1..]));
    }
  }

  lemma {:induction false} ZipKeys(keys: seq<string>, vs: seq<Value>)
    requires |keys| == |vs|
    ensures |Zip(keys, vs)| == |keys| && forall i :: 0 <= i < |keys| ==> Zip(keys, vs)[i].key == keys[i]
    decreases |keys|
  {
    if keys != [] {
      ZipKeys(keys[1..], vs[1..]);
    }
  }

  lemma {:induction false} DictComesBack(env: Env, k: char, u: Type, v: Value, w: Tree, got: Value)
    requires KeepsNative(env.qt) && WellFormed(u)
    requires Native(env, Dict(k, u), v) && Spells(env, Dict(k, u), v, w) && Bears(env.qt, w, got)
    ensures Erase(got) == v
    decreases Size(Dict(k, u)), 1
  {
    hide KeepsNative, NativeEntries, EntriesSpell, Before, Print;
    var keys: seq<string>, vs: seq<Value> :| EntriesBear(env.qt, w.entries, keys, vs) && Holds(got.entries, keys, vs);
    EntriesComeBack(env, k, u, v.entries, w.entries, keys, vs);
    ZipErased(keys, vs, v.entries);
    forall key ensures Lookup(got.entries, key) == Lookup(Zip(keys, vs), key) {
      ZipHolds(keys, vs, key);
    }
    SortedIsUnique(got.entries, Zip(keys, vs));
  }

  lemma {:induction false} EntriesComeBack(env: Env, key: char, t: Type, entries: seq<Entry>, ws: seq<Tree>,
      keys: seq<string>, vs: seq<Value>)
    requires KeepsNative(env.qt) && WellFormed(t) && NativeEntries(env, key, t, entries)
    requires EntriesSpell(env, key, t, entries, ws) && EntriesBear(env.qt, ws, keys, vs)
    ensures |keys| == |vs| == |entries|
    ensures forall i :: 0 <= i < |entries| ==> keys[i] == entries[i].key && Erase(vs[i]) == entries[i].value
    decreases Size(Dict(key, t)), 1, |entries|
  {
    hide KeepsNative, Native, Spells, Bears, Erase;
    if entries != [] {
      EntryComesBack(env, key, t, entries[0], ws[0], keys[0], vs[0]);
      EntriesComeBack(env, key, t, entries[1..], ws[1..], keys[1..], vs[1..]);
      forall i | 0 <= i < |entries| ensures keys[i] == entries[i].key && Erase(vs[i]) == entries[i].value {
        if i > 0 {
          assert keys[i] == keys[1..][i - 1] && vs[i] == vs[1..][i - 1] && entries[i] == entries[1..][i - 1];
        }
      }
    }
  }

  lemma {:induction false} EntryComesBack(env: Env, key: char, t: Type, e: Entry, w: Tree, text: string, got: Value)
    requires KeepsNative(env.qt) && WellFormed(t) && NativeKey(env.qt, key, e.key) && Native(env, t, e.value)
    requires EntrySpells(env, key, t, e, w) && EntryBears(env.qt, w, text, got)
    ensures text == e.key && Erase(got) == e.value
    decreases Size(Dict(key, t)), 0
  {
    hide KeepsNative, Native, Puts, Erase;
    ComesBack(env, t, e.value, w.second, got);
    var k :| Bears(env.qt, w.first, k) && env.qt.toText(k) == text;
    assert w.first == Leaf(key, w.first.payload);
  }

  /** A native value that nests at most 32 deep is accepted, and if its descriptors can be taken and its
      variants nest within the reader's limits, it comes back unchanged. */
  lemma NativeComesBack(env: Env, t: Type, v: Value, s: State)
    requires KeepsNative(env.qt) && Fits(t, 0, 0) && s.ok && (VariantFree(t) || InfersTyped(env))
    requires Native(env, t, v) && Nesting(t, v) <= 32
    ensures var st := Stage(env.qt, t, v, 0);
            && st.Some? && Shaped(env.qt, t, st.value)
            && var (got, s') := Read(env.qt, TreeOf(env, t, st.value), TOP, s); s'.ok ==> Erase(got) == v
  {
    hide Stage, Shaped, TreeOf, Spells, Bears, Read, Erase, Native;
    var w := NativeSpelled(env, t, v);
    AcceptsExactly(env, t, v);
    assert Spells(env, t, v, w);
    WrittenValueComesBack(env, t, v, s);
    var (got, s') := Read(env.qt, w, TOP, s);
    if s'.ok {
      ComesBack(env, t, v, w, got);
    }
  }
}
