/** The values that move between QML and the bus: a model of QVariant restricted to
    what the writer consumes and the reader produces, after DBus.* gadgets have been
    unwrapped. */
module Values {
  import opened Options

  /** A descriptor reference. A live one may still fail to duplicate (EMFILE). */
  datatype FdRef = Bad | Live(id: int, dupOk: bool)

  datatype Payload =
    | Num(n: int)
    | Flag(b: bool)
    | Real(r: real)
    | Str(s: string)
    | Fd(fd: FdRef)

  datatype Value =
    | Invalid
    | Scalar(code: char, payload: Payload)
    | ByteArray(bytes: seq<int>)
    | StringList(texts: seq<string>)
    | List(items: seq<Value>)
    | Map(entries: seq<Entry>)
    | Boxed(inner: Value)
    | Owned(handle: nat, fd: FdRef)
    | Failure(reason: string)

  datatype Entry = Entry(key: string, value: Value)

  function Text(s: string): Value { Scalar('s', Str(s)) }

  /** QVariant's own numeric and textual conversions, which are not modelled: any
      total functions. */
  datatype Qt = Qt(
    toUInt: Value -> int,
    toInt: Value -> int,
    toUInt64: Value -> int,
    toInt64: Value -> int,
    toBool: Value -> bool,
    toDouble: Value -> real,
    toText: Value -> string,
    toBytes: Value -> seq<int>,
    utf8: string -> seq<int>,
    marshalable: Value -> bool)

  /** The code-unit order QMap keeps its keys in. */
  predicate Before(a: string, b: string) {
    if b == "" then false
    else if a == "" then true
    else if a[0] == b[0] then Before(a[1..], b[1..])
    else a[0] < b[0]
  }

  /** QVariantMap::insert: an existing key keeps its place and gets the new value. */
  function Insert(m: seq<Entry>, key: string, v: Value): seq<Entry> {
    if m == [] then [Entry(key, v)]
    else if m[0].key == key then [Entry(key, v)] + m[1..]
    else if Before(key, m[0].key) then [Entry(key, v)] + m
    else [m[0]] + Insert(m[1..], key, v)
  }

  function Lookup(m: seq<Entry>, key: string): Option<Value> {
    if m == [] then None
    else if m[0].key == key then Some(m[0].value)
    else Lookup(m[1..], key)
  }

  predicate Ascending(m: seq<Entry>) {
    forall i, j :: 0 <= i < j < |m| ==> Before(m[i].key, m[j].key)
  }

  lemma {:induction false} BeforeOrders(a: string, b: string, c: string)
    ensures Before(a, b) ==> !Before(b, a) && a != b
    ensures Before(a, b) && Before(b, c) ==> Before(a, c)
    ensures a != b && !Before(a, b) ==> Before(b, a)
  {
    if a != "" && b != "" && a[0] == b[0] {
      BeforeOrders(a[1..], b[1..], if c == "" then "" else c[1..]);
      assert a == [a[0]] + a[1..] && b == [b[0]] + b[1..];
    }
  }

  /** Insertion keeps the map sorted without duplicates and changes one key only. */
  lemma {:induction false} InsertKeepsMap(m: seq<Entry>, key: string, v: Value, other: string)
    requires Ascending(m)
    ensures Ascending(Insert(m, key, v))
    ensures forall e :: e in Insert(m, key, v) ==> e.key == key || e in m
    ensures Lookup(Insert(m, key, v), other) == if other == key then Some(v) else Lookup(m, other)
  {
    hide Before;
    if m != [] && m[0].key != key {
      if Before(key, m[0].key) {
        forall i | 0 <= i < |m| ensures Before(key, m[i].key) {
          BeforeOrders(key, m[0].key, m[i].key);
        }
        LookupAbsent(m, key);
      } else {
        InsertKeepsMap(m[1..], key, v, other);
        BeforeOrders(key, m[0].key, "");
        var tail := Insert(m[1..], key, v);
        forall i | 0 <= i < |tail| ensures Before(m[0].key, tail[i].key) {
          assert tail[i] in tail;
        }
      }
    } else if m != [] {
      assert forall e :: e in m[1..] ==> e in m;
    }
  }

  lemma LookupAbsent(m: seq<Entry>, key: string)
    ensures (forall e :: e in m ==> e.key != key) ==> Lookup(m, key) == None
  {
  }

  // ------------------------------------------------------- container conversions

  /** QVariant::toList: a string list converts, anything else that is no list is empty. */
  function ToList(v: Value): seq<Value> {
    match v
    case List(items) => items
    case StringList(texts) => TextValues(texts)
    case _ => []
  }

  function TextValues(texts: seq<string>): seq<Value> {
    if texts == [] then [] else [Text(texts[0])] + TextValues(texts[1..])
  }

  function ToMap(v: Value): seq<Entry> {
    if v.Map? then v.entries else []
  }

  function ToStringList(q: Qt, v: Value): seq<string> {
    match v
    case StringList(texts) => texts
    case List(items) => TextsOf(q, items)
    case Scalar('s', Str(s)) => [s]
    case _ => []
  }

  function TextsOf(q: Qt, items: seq<Value>): seq<string> {
    if items == [] then [] else [q.toText(items[0])] + TextsOf(q, items[1..])
  }

  /** The bytes an `ay` position takes from a value: UTF-8 of a string, the low eight
      bits of every number of a list, or QVariant's own byte-array conversion. */
  function ToByteArray(q: Qt, v: Value): seq<int> {
    match v
    case Scalar('s', Str(s)) => q.utf8(s)
    case List(items) => LowBytes(q, items)
    case ByteArray(bytes) => bytes
    case _ => q.toBytes(v)
  }

  function LowBytes(q: Qt, items: seq<Value>): seq<int> {
    if items == [] then [] else [q.toInt(items[0]) % 0x100] + LowBytes(q, items[1..])
  }

  /** fdFailureIn: some part of the value carries a refused conversion. */
  predicate FailureIn(v: Value)
    decreases v, 1
  {
    match v
    case Failure(_) => true
    case Boxed(x) => FailureIn(x)
    case List(items) => AnyFailure(items)
    case Map(entries) => AnyEntryFailure(entries)
    case _ => false
  }

  predicate AnyFailure(items: seq<Value>)
    decreases items, 0
  {
    items != [] && (FailureIn(items[0]) || AnyFailure(items[1..]))
  }

  predicate AnyEntryFailure(entries: seq<Entry>)
    decreases entries, 0
  {
    entries != [] && (FailureIn(entries[0].value) || AnyEntryFailure(entries[1..]))
  }
}
