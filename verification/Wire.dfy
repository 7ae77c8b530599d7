/** A message body: begin, end and basic events, and the tree behind them. */
module Wire {
  import opened Options
  import Sequences
  import opened Signature
  import opened Values

  datatype Event =
    | Basic(code: char, payload: Payload)
    | BeginStruct | EndStruct
    | BeginArray(elem: string) | EndArray
    | BeginMap(key: string, value: string) | EndMap
    | BeginMapEntry | EndMapEntry
    | BeginVariant(ty: Type) | EndVariant

  predicate IsEnd(e: Event) {
    e.EndStruct? || e.EndArray? || e.EndMap? || e.EndMapEntry? || e.EndVariant?
  }

  /** What the events of one complete value spell out. `Pair` is a dict entry. */
  datatype Tree =
    | Leaf(code: char, payload: Payload)
    | Record(members: seq<Tree>)
    | Sequence(elem: string, items: seq<Tree>)
    | Table(key: string, value: string, entries: seq<Tree>)
    | Pair(first: Tree, second: Tree)
    | Box(ty: Type, inner: Tree)

  function Flatten(w: Tree): (ev: seq<Event>)
    ensures ev != [] && !IsEnd(ev[0])
    decreases w, 1
  {
    match w
    case Leaf(c, p) => [Event.Basic(c, p)]
    case Record(ms) => [BeginStruct] + FlattenAll(ms) + [EndStruct]
    case Sequence(e, items) => [BeginArray(e)] + FlattenAll(items) + [EndArray]
    case Table(k, v, entries) => [BeginMap(k, v)] + FlattenAll(entries) + [EndMap]
    case Pair(a, b) => [BeginMapEntry] + (Flatten(a) + Flatten(b)) + [EndMapEntry]
    case Box(ty, inner) => [BeginVariant(ty)] + Flatten(inner) + [EndVariant]
  }

  function FlattenAll(ws: seq<Tree>): seq<Event>
    decreases ws, 0
  {
    if ws == [] then [] else Flatten(ws[0]) + FlattenAll(ws[1..])
  }

  /** The type of a value, read off its tree alone. */
  function SignatureOf(w: Tree): string
    decreases w, 1
  {
    match w
    case Leaf(c, _) => [c]
    case Record(ms) => "(" + SignaturesOf(ms) + ")"
    case Sequence(e, _) => "a" + e
    case Table(k, v, _) => "a{" + k + v + "}"
    case Pair(a, b) => "{" + SignatureOf(a) + SignatureOf(b) + "}"
    case Box(_, _) => "v"
  }

  function SignaturesOf(ws: seq<Tree>): string
    decreases ws, 0
  {
    if ws == [] then "" else SignatureOf(ws[0]) + SignaturesOf(ws[1..])
  }

  /** The value has type `t`, at every level: the headers of empty containers too. */
  predicate Typed(w: Tree, t: Type)
    decreases w, 1
  {
    match w
    case Leaf(c, p) => t == Type.Basic(c) && (c == 'h' <==> p.Fd?) && (c in "sog" <==> p.Str?)
    case Record(ms) => t.Struct? && |ms| == |t.members| && AllTypedBy(ms, t.members)
    case Sequence(e, items) => t.Array? && e == Print(t.elem) && AllTyped(items, t.elem)
    case Table(k, v, entries) => t.Dict? && k == [t.key] && v == Print(t.value) && EntriesTyped(entries, t.key, t.value)
    case Pair(_, _) => false
    case Box(ty, inner) => t.Variant? && WellFormed(ty) && Typed(inner, ty)
  }

  predicate AllTypedBy(ws: seq<Tree>, ts: seq<Type>)
    requires |ws| == |ts|
    decreases ws, 0
  {
    ws == [] || (Typed(ws[0], ts[0]) && AllTypedBy(ws[1..], ts[1..]))
  }

  predicate AllTyped(ws: seq<Tree>, t: Type)
    decreases ws, 0
  {
    ws == [] || (Typed(ws[0], t) && AllTyped(ws[1..], t))
  }

  predicate EntriesTyped(ws: seq<Tree>, key: char, value: Type)
    decreases ws, 0
  {
    ws == [] || (EntryTyped(ws[0], key, value) && EntriesTyped(ws[1..], key, value))
  }

  predicate EntryTyped(w: Tree, key: char, value: Type)
    decreases w, 2
  {
    w.Pair? && Typed(w.first, Type.Basic(key)) && Typed(w.second, value)
  }

  lemma {:induction false} TypedSignature(w: Tree, t: Type)
    requires Typed(w, t)
    ensures SignatureOf(w) == Print(t)
    decreases w, 1
  {
    if w.Record? {
      TypedSignatures(w.members, t.members);
    }
  }

  lemma {:induction false} TypedSignatures(ws: seq<Tree>, ts: seq<Type>)
    requires |ws| == |ts| && AllTypedBy(ws, ts)
    ensures SignaturesOf(ws) == PrintAll(ts)
    decreases ws, 0
  {
    if ws != [] {
      TypedSignature(ws[0], ts[0]);
      TypedSignatures(ws[1..], ts[1..]);
    }
  }

  // ------------------------------------------------------------------- parsing

  /** The tree of the first complete value of a stream and how many events it takes:
      what libdbus's iterators make of a body. None if the stream does not start with
      a complete, properly nested value. */
  function Parse(ev: seq<Event>): (r: Option<(Tree, nat)>)
    ensures r.Some? ==> 0 < r.value.1 <= |ev|
    decreases |ev|, 1
  {
    if ev == [] then None
    else match ev[0]
      case Basic(c, p) => Some((Leaf(c, p), 1))
      case BeginStruct =>
        var r := ParseAll(ev[1..], EndStruct);
        if r.None? then None else Some((Record(r.value.0), 1 + r.value.1))
      case BeginArray(e) =>
        var r := ParseAll(ev[1..], EndArray);
        if r.None? then None else Some((Sequence(e, r.value.0), 1 + r.value.1))
      case BeginMap(k, v) =>
        var r := ParseAll(ev[1..], EndMap);
        if r.None? then None else Some((Table(k, v, r.value.0), 1 + r.value.1))
      case BeginMapEntry =>
        var r := ParseAll(ev[1..], EndMapEntry);
        if r.None? || |r.value.0| != 2 then None else Some((Pair(r.value.0[0], r.value.0[1]), 1 + r.value.1))
      case BeginVariant(ty) =>
        var r := ParseAll(ev[1..], EndVariant);
        if r.None? || |r.value.0| != 1 then None else Some((Box(ty, r.value.0[0]), 1 + r.value.1))
      case _ => None
  }

  function ParseAll(ev: seq<Event>, stop: Event): (r: Option<(seq<Tree>, nat)>)
    ensures r.Some? ==> 0 < r.value.1 <= |ev|
    decreases |ev|, 2
  {
    if ev == [] then None
    else if ev[0] == stop then Some(([], 1))
    else
      var first := Parse(ev);
      if first.None? then None
      else
        var rest := ParseAll(ev[first.value.1..], stop);
        if rest.None? then None
        else Some(([first.value.0] + rest.value.0, first.value.1 + rest.value.1))
  }

  lemma ParseAllStep(w: Tree, tail: seq<Event>, stop: Event, us: seq<Tree>, n: nat)
    requires IsEnd(stop)
    requires Parse(Flatten(w) + tail) == Some((w, |Flatten(w)|))
    requires ParseAll(tail, stop) == Some((us, n))
    ensures ParseAll(Flatten(w) + tail, stop) == Some(([w] + us, |Flatten(w)| + n))
  {
    hide Flatten, Parse;
    var ev := Flatten(w) + tail;
    assert ev[0] == Flatten(w)[0];
    assert ev[|Flatten(w)|..] == tail;
  }

  lemma Enclosed<T>(x: T, inner: seq<T>, y: T, rest: seq<T>)
    ensures ([x] + inner + [y] + rest)[0] == x
    ensures ([x] + inner + [y] + rest)[1..] == inner + ([y] + rest)
  {
  }

  lemma OpenRecord(ms: seq<Tree>, rest: seq<Event>)
    requires ParseAll(FlattenAll(ms) + ([EndStruct] + rest), EndStruct) == Some((ms, |FlattenAll(ms)| + 1))
    ensures Parse(Flatten(Record(ms)) + rest) == Some((Record(ms), |Flatten(Record(ms))|))
  {
    hide FlattenAll, ParseAll;
    Enclosed(BeginStruct, FlattenAll(ms), EndStruct, rest);
  }

  lemma OpenSequence(e: string, items: seq<Tree>, rest: seq<Event>)
    requires ParseAll(FlattenAll(items) + ([EndArray] + rest), EndArray) == Some((items, |FlattenAll(items)| + 1))
    ensures Parse(Flatten(Sequence(e, items)) + rest) == Some((Sequence(e, items), |Flatten(Sequence(e, items))|))
  {
    hide FlattenAll, ParseAll;
    Enclosed(BeginArray(e), FlattenAll(items), EndArray, rest);
  }

  lemma OpenTable(k: string, v: string, entries: seq<Tree>, rest: seq<Event>)
    requires ParseAll(FlattenAll(entries) + ([EndMap] + rest), EndMap) == Some((entries, |FlattenAll(entries)| + 1))
    ensures Parse(Flatten(Table(k, v, entries)) + rest) == Some((Table(k, v, entries), |Flatten(Table(k, v, entries))|))
  {
    hide FlattenAll, ParseAll;
    Enclosed(BeginMap(k, v), FlattenAll(entries), EndMap, rest);
  }

  lemma ParseEntry(body: seq<Event>, a: Tree, b: Tree, n: nat)
    requires ParseAll(body, EndMapEntry) == Some(([a, b], n))
    ensures Parse([BeginMapEntry] + body) == Some((Pair(a, b), n + 1))
  {
    assert ([BeginMapEntry] + body)[1..] == body;
  }

  lemma Regroup<T>(x: T, a: seq<T>, b: seq<T>, y: T, rest: seq<T>)
    ensures [x] + (a + b) + [y] + rest == [x] + (a + (b + ([y] + rest)))
  {
  }

  lemma OpenBox(ty: Type, inner: Tree, rest: seq<Event>)
    requires ParseAll(Flatten(inner) + ([EndVariant] + rest), EndVariant) == Some(([inner], |Flatten(inner)| + 1))
    ensures Parse(Flatten(Box(ty, inner)) + rest) == Some((Box(ty, inner), |Flatten(Box(ty, inner))|))
  {
    hide ParseAll;
    assert (Flatten(Box(ty, inner)) + rest)[1..] == Flatten(inner) + ([EndVariant] + rest);
  }

  lemma ParsePair(a: Tree, b: Tree, rest: seq<Event>)
    requires Parse(Flatten(a) + (Flatten(b) + ([EndMapEntry] + rest))) == Some((a, |Flatten(a)|))
    requires Parse(Flatten(b) + ([EndMapEntry] + rest)) == Some((b, |Flatten(b)|))
    ensures Parse(Flatten(Pair(a, b)) + rest) == Some((Pair(a, b), |Flatten(Pair(a, b))|))
  {
    hide Parse;
    hide ParseAll;
    var body := Flatten(a) + (Flatten(b) + ([EndMapEntry] + rest));
    ParseTwo(a, b, rest);
    Regroup(BeginMapEntry, Flatten(a), Flatten(b), EndMapEntry, rest);
    assert Flatten(Pair(a, b)) + rest == [BeginMapEntry] + body;
    ParseEntry(body, a, b, |Flatten(a)| + (|Flatten(b)| + 1));
  }

  /** Flattening loses nothing and is self-delimiting. */
  lemma {:induction false} ParseFlatten(w: Tree, rest: seq<Event>)
    ensures Parse(Flatten(w) + rest) == Some((w, |Flatten(w)|))
    decreases w, 1
  {
    match w {
      case Leaf(_, _) =>
      case Record(ms) =>
        ParseFlattenAll(ms, EndStruct, rest);
        OpenRecord(ms, rest);
      case Sequence(e, items) =>
        ParseFlattenAll(items, EndArray, rest);
        OpenSequence(e, items, rest);
      case Table(k, v, entries) =>
        ParseFlattenAll(entries, EndMap, rest);
        OpenTable(k, v, entries, rest);
      case Pair(a, b) =>
        ParseFlatten(a, Flatten(b) + ([EndMapEntry] + rest));
        ParseFlatten(b, [EndMapEntry] + rest);
        ParsePair(a, b, rest);
      case Box(ty, inner) =>
        var tail := [EndVariant] + rest;
        ParseFlatten(inner, tail);
        ParseAllStop(EndVariant, rest);
        ParseAllStep(inner, tail, EndVariant, [], 1);
        assert [inner] + [] == [inner];
        OpenBox(ty, inner, rest);
    }
  }

  lemma ParseAllStop(stop: Event, rest: seq<Event>)
    ensures ParseAll([stop] + rest, stop) == Some(([], 1))
  {
  }

  lemma ParseTwo(a: Tree, b: Tree, rest: seq<Event>)
    requires Parse(Flatten(a) + (Flatten(b) + ([EndMapEntry] + rest))) == Some((a, |Flatten(a)|))
    requires Parse(Flatten(b) + ([EndMapEntry] + rest)) == Some((b, |Flatten(b)|))
    ensures ParseAll(Flatten(a) + (Flatten(b) + ([EndMapEntry] + rest)), EndMapEntry) == Some(([a, b],
        |Flatten(a)| + (|Flatten(b)| + 1)))
  {
    hide Parse;
    hide ParseAll;
    hide Flatten;
    var tail := [EndMapEntry] + rest;
    ParseAllStop(EndMapEntry, rest);
    ParseAllStep(b, tail, EndMapEntry, [], 1);
    assert [b] + [] == [b];
    ParseAllStep(a, Flatten(b) + tail, EndMapEntry, [b], |Flatten(b)| + 1);
    assert [a] + [b] == [a, b];
  }

  lemma {:induction false} ParseFlattenAll(ws: seq<Tree>, stop: Event, rest: seq<Event>)
    requires IsEnd(stop)
    ensures ParseAll(FlattenAll(ws) + ([stop] + rest), stop) == Some((ws, |FlattenAll(ws)| + 1))
    decreases ws, 0
  {
    hide Flatten;
    hide Parse;
    hide ParseAll;
    ParseAllStop(stop, rest);
    var tail := [stop] + rest;
    if ws == [] {
      assert FlattenAll(ws) + tail == tail;
    } else {
      var next := FlattenAll(ws[1..]) + tail;
      ParseFlatten(ws[0], next);
      ParseFlattenAll(ws[1..], stop, rest);
      ParseAllStep(ws[0], next, stop, ws[1..], |FlattenAll(ws[1..])| + 1);
      Sequences.Assoc(Flatten(ws[0]), FlattenAll(ws[1..]), tail);
      Sequences.Uncons(ws);
    }
  }

  lemma {:induction false} FlattenAllAppend(ws: seq<Tree>, us: seq<Tree>)
    ensures FlattenAll(ws + us) == FlattenAll(ws) + FlattenAll(us)
  {
    hide Flatten;
    if ws == [] {
      assert ws + us == us;
    } else {
      FlattenAllAppend(ws[1..], us);
      Sequences.Tail(ws, us);
      Sequences.Assoc(Flatten(ws[0]), FlattenAll(ws[1..]), FlattenAll(us));
    }
  }
}
