/** What the signature-driven writer stages for a value and what it then streams,
    on type trees. The methods of module Writer walk signature texts and are proved
    against this. */
module Staging {
  import opened Options
  import opened Signature
  import opened Values
  import opened Wire
  import opened ObjectPath

  const MAX_WRITE_DEPTH := 32

  /** Qt's conversions, and what it makes of a variant's payload on its own. */
  datatype Env = Env(qt: Qt, infer: Value -> (Type, Tree))

  /** QtDBus produces a well-typed value for every payload the code lets through. */
  ghost predicate InfersTyped(env: Env) {
    forall v :: env.qt.marshalable(v) ==> WellFormed(env.infer(v).0) && Typed(env.infer(v).1, env.infer(v).0)
  }

  /** A probed value in final streaming form. */
  datatype Staged =
    | Ready(payload: Payload)
    | Bytes(bytes: seq<int>)
    | Texts(texts: seq<string>)
    | Whole(value: Value)
    | Items(items: seq<Staged>)

  // ------------------------------------------------------------ basic positions

  function Signed16(n: int): int { (n + 0x8000) % 0x10000 - 0x8000 }

  function PathText(q: Qt, v: Value): string {
    if v.Scalar? && v.code == 'o' && v.payload.Str? then v.payload.s else q.toText(v)
  }

  function SignatureText(q: Qt, v: Value): string {
    if v.Scalar? && v.code == 'g' && v.payload.Str? then v.payload.s else q.toText(v)
  }

  /** The descriptor an `h` position may send: an explicit, open one. A number is not. */
  function WireFd(v: Value): Option<FdRef> {
    match v
    case Scalar('h', Fd(r)) => if r.Live? then Some(r) else None
    case Owned(_, r) => if r.Live? then Some(r) else None
    case _ => None
  }

  /** What a basic position puts on the wire, or None when the value is refused. */
  ghost function Produce(q: Qt, c: char, v: Value): Option<Payload> {
    if FailureIn(v) then None
    else if c == 'y' then Some(Num(q.toUInt(v) % 0x100))
    else if c == 'b' then Some(Flag(q.toBool(v)))
    else if c == 'n' then Some(Num(Signed16(q.toInt(v))))
    else if c == 'q' then Some(Num(q.toUInt(v) % 0x10000))
    else if c == 'i' then Some(Num(q.toInt(v)))
    else if c == 'u' then Some(Num(q.toUInt(v)))
    else if c == 'x' then Some(Num(q.toInt64(v)))
    else if c == 't' then Some(Num(q.toUInt64(v)))
    else if c == 'd' then Some(Real(q.toDouble(v)))
    else if c == 's' then Some(Str(q.toText(v)))
    else if c == 'o' then (if IsObjectPath(PathText(q, v)) then Some(Str(PathText(q, v))) else None)
    else if c == 'g' then (if Valid(SignatureText(q, v), Message) then Some(Str(SignatureText(q, v))) else None)
    else if c == 'h' then (if WireFd(v).Some? then Some(Fd(WireFd(v).value)) else None)
    else None
  }

  // --------------------------------------------------------------------- staging

  function Child(items: seq<Value>): Value { if items == [] then Invalid else items[0] }
  function Others(items: seq<Value>): seq<Value> { if items == [] then [] else items[1..] }

  /** writeProbe on a type tree: the staged form of `v`, or None when some position
      refuses its value or the value nests deeper than the writer goes. */
  ghost function Stage(q: Qt, t: Type, v: Value, depth: nat): Option<Staged>
    decreases Size(t), 2
  {
    if depth > MAX_WRITE_DEPTH then None
    else match t
      case Basic(c) => var p := Produce(q, c, v); if p.None? then None else Some(Ready(p.value))
      case Variant => if q.marshalable(v) then Some(Whole(v)) else None
      case Struct(ms) => Wrap(StageMembers(q, ms, ToList(v), depth + 1))
      case Dict(k, u) => Wrap(StageEntries(q, k, u, ToMap(v), depth + 1))
      case Array(e) =>
        if e == Type.Basic('y') then Some(Bytes(ToByteArray(q, v)))
        else if e == Type.Basic('s') then Some(Texts(ToStringList(q, v)))
        else Wrap(StageItems(q, e, ToList(v), depth + 1))
  }

  function Wrap(r: Option<seq<Staged>>): Option<Staged> {
    if r.None? then None else Some(Items(r.value))
  }

  function Prepend<T>(done: seq<T>, r: Option<seq<T>>): Option<seq<T>> {
    if r.None? then None else Some(done + r.value)
  }

  ghost function StageMembers(q: Qt, ts: seq<Type>, items: seq<Value>, depth: nat): Option<seq<Staged>>
    decreases SizeAll(ts), 1
  {
    if ts == [] then Some([])
    else
      var first := Stage(q, ts[0], Child(items), depth);
      if first.None? then None else Prepend([first.value], StageMembers(q, ts[1..], Others(items), depth))
  }

  ghost function StageItems(q: Qt, t: Type, items: seq<Value>, depth: nat): Option<seq<Staged>>
    decreases Size(t), 3, |items|
  {
    if items == [] then Some([])
    else
      var first := Stage(q, t, items[0], depth);
      if first.None? then None else Prepend([first.value], StageItems(q, t, items[1..], depth))
  }

  ghost function StageEntry(q: Qt, key: char, t: Type, entry: Entry, depth: nat): Option<Staged>
    decreases Size(Dict(key, t)), 0
  {
    var k := Stage(q, Type.Basic(key), Text(entry.key), depth);
    var v := Stage(q, t, entry.value, depth);
    if k.None? || v.None? then None else Some(Items([k.value, v.value]))
  }

  ghost function StageEntries(q: Qt, key: char, t: Type, entries: seq<Entry>, depth: nat): Option<seq<Staged>>
    decreases Size(Dict(key, t)), 1, |entries|
  {
    if entries == [] then Some([])
    else
      var first := StageEntry(q, key, t, entries[0], depth);
      if first.None? then None else Prepend([first.value], StageEntries(q, key, t, entries[1..], depth))
  }

  /** A staged value has the shape its type needs: what appendStaged relies on when
      it indexes into it. */
  predicate Shaped(q: Qt, t: Type, st: Staged)
    decreases Size(t), 2
  {
    match t
    case Basic(c) => st.Ready? && (c == 'h' <==> st.payload.Fd?) && (c in "sog" <==> st.payload.Str?)
    case Variant => st.Whole? && q.marshalable(st.value)
    case Struct(ms) => st.Items? && |st.items| == |ms| && MembersShaped(q, ms, st.items)
    case Dict(k, u) => st.Items? && EntriesShaped(q, k, u, st.items)
    case Array(e) =>
      if e == Type.Basic('y') then st.Bytes?
      else if e == Type.Basic('s') then st.Texts?
      else st.Items? && ItemsShaped(q, e, st.items)
  }

  predicate MembersShaped(q: Qt, ts: seq<Type>, sts: seq<Staged>)
    requires |ts| == |sts|
    decreases SizeAll(ts), 1
  {
    ts == [] || (Shaped(q, ts[0], sts[0]) && MembersShaped(q, ts[1..], sts[1..]))
  }

  predicate ItemsShaped(q: Qt, t: Type, sts: seq<Staged>)
    decreases Size(t), 3, |sts|
  {
    sts == [] || (Shaped(q, t, sts[0]) && ItemsShaped(q, t, sts[1..]))
  }

  predicate EntryShaped(q: Qt, key: char, t: Type, st: Staged)
    decreases Size(Dict(key, t)), 0
  {
    st.Items? && |st.items| == 2 && Shaped(q, Type.Basic(key), st.items[0]) && Shaped(q, t, st.items[1])
  }

  predicate EntriesShaped(q: Qt, key: char, t: Type, sts: seq<Staged>)
    decreases Size(Dict(key, t)), 1, |sts|
  {
    sts == [] || (EntryShaped(q, key, t, sts[0]) && EntriesShaped(q, key, t, sts[1..]))
  }

  // -------------------------------------------------------------------- the tree

  function ByteTrees(bytes: seq<int>): seq<Tree> {
    if bytes == [] then [] else [Tree.Leaf('y', Num(bytes[0]))] + ByteTrees(bytes[1..])
  }

  function TextTrees(texts: seq<string>): seq<Tree> {
    if texts == [] then [] else [Tree.Leaf('s', Str(texts[0]))] + TextTrees(texts[1..])
  }

  /** The value that is put on the wire. */
  function TreeOf(env: Env, t: Type, st: Staged): Tree
    requires Shaped(env.qt, t, st)
    decreases Size(t), 2
  {
    match t
    case Basic(c) => Tree.Leaf(c, st.payload)
    case Variant => Box(env.infer(st.value).0, env.infer(st.value).1)
    case Struct(ms) => Record(MemberTrees(env, ms, st.items))
    case Dict(k, u) => Table([k], Print(u), EntryTrees(env, k, u, st.items))
    case Array(e) =>
      if e == Type.Basic('y') then Sequence("y", ByteTrees(st.bytes))
      else if e == Type.Basic('s') then Sequence("s", TextTrees(st.texts))
      else Sequence(Print(e), ItemTrees(env, e, st.items))
  }

  function MemberTrees(env: Env, ts: seq<Type>, sts: seq<Staged>): seq<Tree>
    requires |ts| == |sts| && MembersShaped(env.qt, ts, sts)
    decreases SizeAll(ts), 1
  {
    if ts == [] then [] else [TreeOf(env, ts[0], sts[0])] + MemberTrees(env, ts[1..], sts[1..])
  }

  function ItemTrees(env: Env, t: Type, sts: seq<Staged>): seq<Tree>
    requires ItemsShaped(env.qt, t, sts)
    decreases Size(t), 3, |sts|
  {
    if sts == [] then [] else [TreeOf(env, t, sts[0])] + ItemTrees(env, t, sts[1..])
  }

  function EntryTree(env: Env, key: char, t: Type, st: Staged): Tree
    requires EntryShaped(env.qt, key, t, st)
    decreases Size(Dict(key, t)), 0
  {
    Pair(TreeOf(env, Type.Basic(key), st.items[0]), TreeOf(env, t, st.items[1]))
  }

  function EntryTrees(env: Env, key: char, t: Type, sts: seq<Staged>): seq<Tree>
    requires EntriesShaped(env.qt, key, t, sts)
    decreases Size(Dict(key, t)), 1, |sts|
  {
    if sts == [] then [] else [EntryTree(env, key, t, sts[0])] + EntryTrees(env, key, t, sts[1..])
  }

  // -------------------------------------------------------------- staging in a loop

  lemma PrependStep<T>(done: seq<T>, x: T, r: Option<seq<T>>)
    ensures Prepend(done, Prepend([x], r)) == Prepend(done + [x], r)
    ensures Prepend([], r) == r
  {
    if r.Some? {
      assert done + ([x] + r.value) == done + [x] + r.value && [] + r.value == r.value;
    }
  }

  /** The values from a position on; past the end there are none. */
  function From(items: seq<Value>, i: nat): seq<Value> {
    if i <= |items| then items[i..] else []
  }

  lemma FromStep(items: seq<Value>, i: nat)
    ensures Child(From(items, i)) == (if i < |items| then items[i] else Invalid) && Others(From(items, i)) == From(items, i + 1)
  {
  }

  lemma Refused<T>(done: seq<T>)
    ensures Prepend(done, None) == None
  {
  }

  /** How far the member loop of a struct has come: `done` are staged, `left` are not. */
  ghost predicate ProbingMembers(q: Qt, ms: seq<Type>, members: seq<Value>, depth: nat,
                                 done: seq<Type>, left: seq<Type>, mi: nat, staged: seq<Staged>)
  {
    && ms == done + left
    && SizeAll(left) <= SizeAll(ms)
    && StageMembers(q, ms, members, depth) == Prepend(staged, StageMembers(q, left, From(members, mi), depth))
  }

  lemma ProbingStarts(q: Qt, ms: seq<Type>, members: seq<Value>, depth: nat)
    ensures ProbingMembers(q, ms, members, depth, [], ms, 0, [])
  {
    PrependStep([], Ready(Num(0)), StageMembers(q, ms, members, depth));
    assert members[0..] == members && [] + ms == ms;
  }

  /** One member: a refused one ends the probe, a staged one moves it on. A struct
      value with too few members is read as if padded with invalid ones. */
  lemma ProbingStep(q: Qt, ms: seq<Type>, members: seq<Value>, depth: nat,
                    done: seq<Type>, left: seq<Type>, mi: nat, staged: seq<Staged>)
    requires ProbingMembers(q, ms, members, depth, done, left, mi, staged) && left != []
    ensures var first := Stage(q, left[0], if mi < |members| then members[mi] else Invalid, depth);
            if first.None? then StageMembers(q, ms, members, depth) == None
            else ProbingMembers(q, ms, members, depth, done + [left[0]], left[1..], mi + 1, staged + [first.value])
  {
    hide Stage, From, Prepend;
    var mv := if mi < |members| then members[mi] else Invalid;
    var rest := From(members, mi);
    FromStep(members, mi);
    Refused(staged);
    var first := Stage(q, left[0], mv, depth);
    if first.Some? {
      PrependStep(staged, first.value, StageMembers(q, left[1..], Others(rest), depth));
      assert done + left == done + [left[0]] + left[1..];
    }
  }

  lemma ProbingEnds(q: Qt, ms: seq<Type>, members: seq<Value>, depth: nat, done: seq<Type>, mi: nat, staged: seq<Staged>)
    requires ProbingMembers(q, ms, members, depth, done, [], mi, staged)
    ensures StageMembers(q, ms, members, depth) == Some(staged) && done == ms
  {
    assert staged + [] == staged && done + [] == done;
  }

  lemma StageItemsStep(q: Qt, t: Type, list: seq<Value>, i: nat, depth: nat, done: seq<Staged>)
    requires i < |list|
    ensures var first := Stage(q, t, list[i], depth);
            Prepend(done, StageItems(q, t, list[i..], depth)) ==
            if first.None? then None else Prepend(done + [first.value], StageItems(q, t, list[i + 1..], depth))
  {
    hide Stage;
    assert list[i..][1..] == list[i + 1..];
    var first := Stage(q, t, list[i], depth);
    if first.Some? {
      PrependStep(done, first.value, StageItems(q, t, list[i + 1..], depth));
    }
  }

  lemma StageEntriesStep(q: Qt, key: char, t: Type, entries: seq<Entry>, i: nat, depth: nat, done: seq<Staged>)
    requires i < |entries|
    ensures var first := StageEntry(q, key, t, entries[i], depth);
            Prepend(done, StageEntries(q, key, t, entries[i..], depth)) ==
            if first.None? then None else Prepend(done + [first.value], StageEntries(q, key, t, entries[i + 1..], depth))
  {
    hide StageEntry;
    assert entries[i..][1..] == entries[i + 1..];
    var first := StageEntry(q, key, t, entries[i], depth);
    if first.Some? {
      PrependStep(done, first.value, StageEntries(q, key, t, entries[i + 1..], depth));
    }
  }

  // ------------------------------------------------------- what the probe promises

  lemma {:induction false} StageIsShaped(q: Qt, t: Type, v: Value, depth: nat)
    requires WellFormed(t)
    ensures Stage(q, t, v, depth).Some? ==> Shaped(q, t, Stage(q, t, v, depth).value)
    decreases Size(t), 2
  {
    hide StageMembers, StageEntries, StageItems, MembersShaped, EntriesShaped, ItemsShaped, ToList, ToMap;
    if depth <= MAX_WRITE_DEPTH {
      match t {
        case Basic(_) =>
        case Variant =>
        case Struct(ms) => StageMembersShaped(q, ms, ToList(v), depth + 1);
        case Dict(k, u) => StageEntriesShaped(q, k, u, ToMap(v), depth + 1);
        case Array(e) =>
          if e != Type.Basic('y') && e != Type.Basic('s') {
            StageItemsShaped(q, e, ToList(v), depth + 1);
          }
      }
    }
  }

  lemma {:induction false} StageMembersShaped(q: Qt, ts: seq<Type>, items: seq<Value>, depth: nat)
    requires AllWellFormed(ts)
    ensures var r := StageMembers(q, ts, items, depth); r.Some? ==> |r.value| == |ts| && MembersShaped(q, ts, r.value)
    decreases SizeAll(ts), 1
  {
    if ts != [] {
      StageIsShaped(q, ts[0], Child(items), depth);
      StageMembersShaped(q, ts[1..], Others(items), depth);
    }
  }

  lemma {:induction false} StageItemsShaped(q: Qt, t: Type, items: seq<Value>, depth: nat)
    requires WellFormed(t)
    ensures var r := StageItems(q, t, items, depth); r.Some? ==> |r.value| == |items| && ItemsShaped(q, t, r.value)
    decreases Size(t), 3, |items|
  {
    if items != [] {
      StageIsShaped(q, t, items[0], depth);
      StageItemsShaped(q, t, items[1..], depth);
    }
  }

  lemma {:induction false} StageEntriesShaped(q: Qt, key: char, t: Type, entries: seq<Entry>, depth: nat)
    requires WellFormed(t) && key in BASIC_CODES
    ensures var r := StageEntries(q, key, t, entries, depth); r.Some? ==> |r.value| == |entries| && EntriesShaped(q, key, t, r.value)
    decreases Size(Dict(key, t)), 1, |entries|
  {
    if entries != [] {
      StageIsShaped(q, Type.Basic(key), Text(entries[0].key), depth);
      StageIsShaped(q, t, entries[0].value, depth);
      StageEntriesShaped(q, key, t, entries[1..], depth);
    }
  }

  /** What is written has exactly the declared type, at every level. */
  lemma {:induction false} TreeIsTyped(env: Env, t: Type, st: Staged)
    requires InfersTyped(env) && WellFormed(t) && Shaped(env.qt, t, st)
    ensures Typed(TreeOf(env, t, st), t)
    decreases Size(t), 2
  {
    match t {
      case Basic(_) =>
      case Variant =>
      case Struct(ms) => MembersAreTyped(env, ms, st.items);
      case Dict(k, u) => EntriesAreTyped(env, k, u, st.items);
      case Array(e) =>
        if e == Type.Basic('y') {
          BytesAreTyped(st.bytes);
        } else if e == Type.Basic('s') {
          TextsAreTyped(st.texts);
        } else {
          ItemsAreTyped(env, e, st.items);
        }
    }
  }

  lemma {:induction false} BytesAreTyped(bytes: seq<int>)
    ensures AllTyped(ByteTrees(bytes), Type.Basic('y'))
  {
    if bytes != [] { BytesAreTyped(bytes[1..]); }
  }

  lemma {:induction false} TextsAreTyped(texts: seq<string>)
    ensures AllTyped(TextTrees(texts), Type.Basic('s'))
  {
    if texts != [] { TextsAreTyped(texts[1..]); }
  }

  lemma {:induction false} MembersAreTyped(env: Env, ts: seq<Type>, sts: seq<Staged>)
    requires InfersTyped(env) && AllWellFormed(ts) && |ts| == |sts| && MembersShaped(env.qt, ts, sts)
    ensures |MemberTrees(env, ts, sts)| == |ts| && AllTypedBy(MemberTrees(env, ts, sts), ts)
    decreases SizeAll(ts), 1
  {
    if ts != [] {
      TreeIsTyped(env, ts[0], sts[0]);
      MembersAreTyped(env, ts[1..], sts[1..]);
    }
  }

  lemma {:induction false} ItemsAreTyped(env: Env, t: Type, sts: seq<Staged>)
    requires InfersTyped(env) && WellFormed(t) && ItemsShaped(env.qt, t, sts)
    ensures AllTyped(ItemTrees(env, t, sts), t)
    decreases Size(t), 3, |sts|
  {
    if sts != [] {
      TreeIsTyped(env, t, sts[0]);
      ItemsAreTyped(env, t, sts[1..]);
    }
  }

  lemma {:induction false} EntriesAreTyped(env: Env, key: char, t: Type, sts: seq<Staged>)
    requires InfersTyped(env) && key in BASIC_CODES && WellFormed(t) && EntriesShaped(env.qt, key, t, sts)
    ensures EntriesTyped(EntryTrees(env, key, t, sts), key, t)
    decreases Size(Dict(key, t)), 1, |sts|
  {
    if sts != [] {
      TreeIsTyped(env, Type.Basic(key), sts[0].items[0]);
      TreeIsTyped(env, t, sts[0].items[1]);
      EntriesAreTyped(env, key, t, sts[1..]);
    }
  }
}
