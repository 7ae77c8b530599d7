/** The signature-driven writer: probe a whole value first, touching nothing but the
    slot pool, then stream what was staged. */
module Writer {
  import opened Options
  import opened Signature
  import opened Splitter
  import opened Values
  import opened Wire
  import opened Pool
  import opened ObjectPath
  import opened Staging
  import Sequences

  /** A writable QDBusArgument: it only ever grows. */
  class Argument {
    var events: seq<Event>

    constructor ()
      ensures events == []
    {
      events := [];
    }

    method Push(e: Event)
      modifies this
      ensures events == old(events) + [e]
    {
      events := events + [e];
    }

    /** Streaming a whole value Qt marshals by itself. */
    method PushValue(w: Tree)
      modifies this
      ensures events == old(events) + Flatten(w)
    {
      events := events + Flatten(w);
    }
  }

  predicate HasType(knows: set<string>, r: Registry, sig: string) {
    MetaTypeOf(knows, r, sig) != NoType
  }

  /** Every metatype that streaming this staged value asks for exists already. */
  predicate Minted(knows: set<string>, r: Registry, t: Type, st: Staged)
    decreases Size(t), 2
  {
    match t
    case Basic(_) => true
    case Variant => true
    case Struct(ms) => st.Items? && MembersMinted(knows, r, ms, st.items)
    case Dict(k, u) => st.Items? && HasType(knows, r, [k]) && HasType(knows, r, Print(u))
        && EntriesMinted(knows, r, u, st.items)
    case Array(e) =>
      e == Type.Basic('y') || e == Type.Basic('s') || (st.Items? && HasType(knows, r, Print(e))
          && ItemsMinted(knows, r, e, st.items))
  }

  predicate MembersMinted(knows: set<string>, r: Registry, ts: seq<Type>, sts: seq<Staged>)
    decreases SizeAll(ts), 1
  {
    |ts| == |sts| && (ts == [] || (Minted(knows, r, ts[0], sts[0]) && MembersMinted(knows, r, ts[1..], sts[1..])))
  }

  predicate ItemsMinted(knows: set<string>, r: Registry, t: Type, sts: seq<Staged>)
    decreases Size(t), 3, |sts|
  {
    sts == [] || (Minted(knows, r, t, sts[0]) && ItemsMinted(knows, r, t, sts[1..]))
  }

  predicate EntriesMinted(knows: set<string>, r: Registry, t: Type, sts: seq<Staged>)
    decreases Size(t), 3, |sts|
  {
    sts == [] || (sts[0].Items? && |sts[0].items| == 2 && Minted(knows, r, t, sts[0].items[1])
        && EntriesMinted(knows, r, t, sts[1..]))
  }

  lemma ArrayInner(e: Type)
    requires Fits(Array(e), 0, 0) && |Print(Array(e))| <= MAX_SIGNATURE_LENGTH
    ensures Print(Array(e)) != "" && Print(Array(e))[1..] == Print(e) && Fits(e, 0, 0) && Valid(Print(e), Single)
    ensures Size(e) < Size(Array(e))
  {
  }

  lemma NoItems(q: Qt, knows: set<string>, r: Registry, e: Type, depth: nat)
    ensures StageItems(q, e, [], depth) == Some([]) && ItemsMinted(knows, r, e, [])
  {
  }

  lemma HasTypeGrows(knows: set<string>)
    ensures forall r, later, sig :: Extends(later, r) && HasType(knows, r, sig) ==> HasType(knows, later, sig)
  {
  }

  lemma {:induction false} MintedGrows(knows: set<string>, r: Registry, later: Registry, t: Type, st: Staged)
    requires Extends(later, r) && Minted(knows, r, t, st)
    ensures Minted(knows, later, t, st)
    decreases Size(t), 2
  {
    match t {
      case Basic(_) =>
      case Variant =>
      case Struct(ms) => MembersMintedGrow(knows, r, later, ms, st.items);
      case Dict(k, u) => EntriesMintedGrow(knows, r, later, u, st.items);
      case Array(e) => if e != Type.Basic('y') && e != Type.Basic('s') { ItemsMintedGrow(knows, r, later, e, st.items); }
    }
  }

  lemma {:induction false} MembersMintedGrow(knows: set<string>, r: Registry, later: Registry, ts: seq<Type>,
      sts: seq<Staged>)
    requires Extends(later, r) && MembersMinted(knows, r, ts, sts)
    ensures MembersMinted(knows, later, ts, sts)
    decreases SizeAll(ts), 1
  {
    if ts != [] {
      MintedGrows(knows, r, later, ts[0], sts[0]);
      MembersMintedGrow(knows, r, later, ts[1..], sts[1..]);
    }
  }

  lemma {:induction false} ItemsMintedGrow(knows: set<string>, r: Registry, later: Registry, t: Type, sts: seq<Staged>)
    requires Extends(later, r) && ItemsMinted(knows, r, t, sts)
    ensures ItemsMinted(knows, later, t, sts)
    decreases Size(t), 3, |sts|
  {
    if sts != [] {
      MintedGrows(knows, r, later, t, sts[0]);
      ItemsMintedGrow(knows, r, later, t, sts[1..]);
    }
  }

  lemma {:induction false} EntriesMintedGrow(knows: set<string>, r: Registry, later: Registry, t: Type, sts: seq<Staged>)
    requires Extends(later, r) && EntriesMinted(knows, r, t, sts)
    ensures EntriesMinted(knows, later, t, sts)
    decreases Size(t), 3, |sts|
  {
    if sts != [] {
      MintedGrows(knows, r, later, t, sts[0].items[1]);
      EntriesMintedGrow(knows, r, later, t, sts[1..]);
    }
  }

  lemma {:induction false} MembersMintedAppend(knows: set<string>, r: Registry, ts: seq<Type>, sts: seq<Staged>,
      t: Type, st: Staged)
    requires MembersMinted(knows, r, ts, sts) && Minted(knows, r, t, st)
    ensures MembersMinted(knows, r, ts + [t], sts + [st])
  {
    hide Minted;
    if ts == [] {
      assert ts + [t] == [t] && sts + [st] == [st];
    } else {
      MembersMintedAppend(knows, r, ts[1..], sts[1..], t, st);
      Sequences.Tail(ts, [t]);
      Sequences.Tail(sts, [st]);
    }
  }

  lemma {:induction false} ItemsMintedAppend(knows: set<string>, r: Registry, t: Type, sts: seq<Staged>, st: Staged)
    requires ItemsMinted(knows, r, t, sts) && Minted(knows, r, t, st)
    ensures ItemsMinted(knows, r, t, sts + [st])
  {
    hide Minted;
    if sts == [] {
      assert sts + [st] == [st];
    } else {
      ItemsMintedAppend(knows, r, t, sts[1..], st);
      Sequences.Tail(sts, [st]);
    }
  }

  lemma {:induction false} EntriesMintedAppend(knows: set<string>, r: Registry, t: Type, sts: seq<Staged>, st: Staged)
    requires EntriesMinted(knows, r, t, sts) && st.Items? && |st.items| == 2 && Minted(knows, r, t, st.items[1])
    ensures EntriesMinted(knows, r, t, sts + [st])
  {
    hide Minted;
    if sts == [] {
      assert sts + [st] == [st];
    } else {
      EntriesMintedAppend(knows, r, t, sts[1..], st);
      Sequences.Tail(sts, [st]);
    }
  }

  // ------------------------------------------------------------ reading the text

  lemma StructInner(ms: seq<Type>)
    ensures |Print(Struct(ms))| >= 2 && Print(Struct(ms))[1..|Print(Struct(ms))| - 1] == PrintAll(ms)
    ensures Fits(Struct(ms), 0, 0) ==> AllFit(ms, 0, 0)
  {
  }

  lemma DictInner(key: char, u: Type)
    requires key in BASIC_CODES && WellFormed(u) && Arrays(u) <= MAX_SIGNATURE_DEPTH
    ensures var entry := Print(Dict(key, u))[1..];
            && entry[1..] == [key] + (Print(u) + "}")
            && entry[2..] == Print(u) + "}"
            && CompleteLength(entry[1..], 0) == 1
            && CompleteLength(entry[2..], 0) == |Print(u)|
  {
    var entry := Print(Dict(key, u))[1..];
    assert entry[1..] == [key] + (Print(u) + "}");
    assert entry[2..] == Print(u) + "}";
    FindsPrintedType(u, "}", 0);
  }

  /** One declared member at the cursor: what firstCompleteType returns there. */
  lemma NextMember(left: seq<Type>)
    requires left != [] && AllWellFormed(left) && ArraysAll(left) <= MAX_SIGNATURE_DEPTH
    ensures var s := PrintAll(left);
            s[..CompleteLength(s, 0)] == Print(left[0]) && s[|Print(left[0])|..] == PrintAll(left[1..])
                && Print(left[0]) != ""
  {
    PrintHead(left[0]);
    FindsPrintedType(left[0], PrintAll(left[1..]), 0);
    Sequences.Drop(Print(left[0]), PrintAll(left[1..]));
  }

  // ------------------------------------------------------------ streaming in a loop

  /** How far the member loop of appendStaged has come: what is on the wire, followed
      by the members still to come, is the whole struct body. */
  ghost predicate AppendingMembers(env: Env, knows: set<string>, r: Registry, ms: seq<Type>, members: seq<Staged>,
                                   left: seq<Type>, mi: nat, start: seq<Event>, now: seq<Event>)
  {
    && |ms| == |members| && MembersShaped(env.qt, ms, members)
    && mi <= |members| && |left| == |members| - mi && SizeAll(left) <= SizeAll(ms)
    && MembersShaped(env.qt, left, members[mi..]) && MembersMinted(knows, r, left, members[mi..])
    && now + FlattenAll(MemberTrees(env, left, members[mi..])) == start + FlattenAll(MemberTrees(env, ms, members))
  }

  lemma AppendingStarts(env: Env, knows: set<string>, r: Registry, ms: seq<Type>, members: seq<Staged>, start: seq<Event>)
    requires |ms| == |members| && MembersShaped(env.qt, ms, members) && MembersMinted(knows, r, ms, members)
    ensures AppendingMembers(env, knows, r, ms, members, ms, 0, start, start)
  {
    assert members[0..] == members;
  }

  lemma AppendingStep(env: Env, knows: set<string>, r: Registry, ms: seq<Type>, members: seq<Staged>,
                      left: seq<Type>, mi: nat, start: seq<Event>, now: seq<Event>)
    requires AppendingMembers(env, knows, r, ms, members, left, mi, start, now) && left != []
    ensures mi < |members| && Shaped(env.qt, left[0], members[mi]) && Minted(knows, r, left[0], members[mi])
    ensures AppendingMembers(env, knows, r, ms, members, left[1..], mi + 1, start, now + Flatten(TreeOf(env, left[0],
        members[mi])))
    ensures Size(left[0]) < SizeAll(ms)
  {
    hide Shaped;
    hide Minted;
    hide TreeOf;
    hide Flatten;
    assert members[mi..][1..] == members[mi + 1..] && members[mi..][0] == members[mi];
    Sequences.Assoc(now, Flatten(TreeOf(env, left[0], members[mi])), FlattenAll(MemberTrees(env, left[1..],
        members[mi + 1..])));
  }

  lemma AppendingEnds(env: Env, knows: set<string>, r: Registry, ms: seq<Type>, members: seq<Staged>,
                      mi: nat, start: seq<Event>, now: seq<Event>)
    requires AppendingMembers(env, knows, r, ms, members, [], mi, start, now)
    ensures now == start + FlattenAll(MemberTrees(env, ms, members))
  {
    assert now + [] == now;
  }

  lemma RecordEvents(env: Env, ms: seq<Type>, members: seq<Staged>, before: seq<Event>)
    requires |ms| == |members| && MembersShaped(env.qt, ms, members)
    ensures before + [BeginStruct] + FlattenAll(MemberTrees(env, ms, members)) + [EndStruct]
         == before + Flatten(Record(MemberTrees(env, ms, members)))
  {
  }

  lemma ItemStep(env: Env, knows: set<string>, r: Registry, e: Type, items: seq<Staged>, i: nat, now: seq<Event>)
    requires i < |items| && ItemsShaped(env.qt, e, items[i..]) && ItemsMinted(knows, r, e, items[i..])
    ensures Shaped(env.qt, e, items[i]) && ItemsShaped(env.qt, e, items[i + 1..])
    ensures Minted(knows, r, e, items[i]) && ItemsMinted(knows, r, e, items[i + 1..])
    ensures now + FlattenAll(ItemTrees(env, e, items[i..]))
         == now + Flatten(TreeOf(env, e, items[i])) + FlattenAll(ItemTrees(env, e, items[i + 1..]))
  {
    hide TreeOf, Flatten, Shaped, Minted;
    assert items[i..][1..] == items[i + 1..];
    Sequences.Assoc(now, Flatten(TreeOf(env, e, items[i])), FlattenAll(ItemTrees(env, e, items[i + 1..])));
  }

  lemma ItemsDone(env: Env, e: Type, items: seq<Staged>, i: nat, now: seq<Event>)
    requires i == |items|
    ensures ItemsShaped(env.qt, e, items[i..]) && now + FlattenAll(ItemTrees(env, e, items[i..])) == now
  {
  }

  lemma ItemsEvents(env: Env, e: Type, items: seq<Staged>, before: seq<Event>)
    requires ItemsShaped(env.qt, e, items)
    ensures before + [BeginArray(Print(e))] + FlattenAll(ItemTrees(env, e, items)) + [EndArray]
         == before + Flatten(Sequence(Print(e), ItemTrees(env, e, items)))
  {
  }

  lemma EntryStep(env: Env, knows: set<string>, r: Registry, key: char, u: Type, entries: seq<Staged>, i: nat,
      now: seq<Event>)
    requires i < |entries| && EntriesShaped(env.qt, key, u, entries[i..]) && EntriesMinted(knows, r, u, entries[i..])
    ensures EntryShaped(env.qt, key, u, entries[i]) && Minted(knows, r, u, entries[i].items[1])
    ensures EntriesShaped(env.qt, key, u, entries[i + 1..]) && EntriesMinted(knows, r, u, entries[i + 1..])
    ensures now + FlattenAll(EntryTrees(env, key, u, entries[i..]))
         == now + Flatten(EntryTree(env, key, u, entries[i])) + FlattenAll(EntryTrees(env, key, u, entries[i + 1..]))
  {
    hide EntryTree;
    hide Flatten;
    hide Minted;
    assert entries[i..][1..] == entries[i + 1..];
    Sequences.Assoc(now, Flatten(EntryTree(env, key, u, entries[i])), FlattenAll(EntryTrees(env, key, u, entries[i + 1..])));
  }

  lemma EntriesDone(env: Env, key: char, u: Type, entries: seq<Staged>, i: nat, now: seq<Event>)
    requires i == |entries|
    ensures EntriesShaped(env.qt, key, u, entries[i..]) && now + FlattenAll(EntryTrees(env, key, u, entries[i..])) == now
  {
  }

  lemma EntryEvents(env: Env, key: char, u: Type, entry: Staged, before: seq<Event>)
    requires EntryShaped(env.qt, key, u, entry)
    ensures before + [BeginMapEntry] + Flatten(TreeOf(env, Type.Basic(key), entry.items[0])) + Flatten(TreeOf(env, u,
        entry.items[1])) + [EndMapEntry]
         == before + Flatten(EntryTree(env, key, u, entry))
  {
    hide TreeOf;
    var a, b := TreeOf(env, Type.Basic(key), entry.items[0]), TreeOf(env, u, entry.items[1]);
    PairEvents(a, b, before);
  }

  lemma PairEvents(a: Tree, b: Tree, before: seq<Event>)
    ensures before + [BeginMapEntry] + Flatten(a) + Flatten(b) + [EndMapEntry] == before + Flatten(Pair(a, b))
  {
    var fa, fb := Flatten(a), Flatten(b);
    assert Flatten(Pair(a, b)) == [BeginMapEntry] + (fa + fb) + [EndMapEntry];
    Bracketed(before, BeginMapEntry, fa, fb, EndMapEntry);
  }

  lemma Bracketed<T>(before: seq<T>, x: T, a: seq<T>, b: seq<T>, y: T)
    ensures before + [x] + a + b + [y] == before + ([x] + (a + b) + [y])
  {
  }

  lemma TableEvents(env: Env, key: char, u: Type, entries: seq<Staged>, before: seq<Event>)
    requires EntriesShaped(env.qt, key, u, entries)
    ensures before + [BeginMap([key], Print(u))] + FlattenAll(EntryTrees(env, key, u, entries)) + [EndMap]
         == before + Flatten(Table([key], Print(u), EntryTrees(env, key, u, entries)))
  {
  }

  lemma EmptyIsNoType()
    ensures !Valid("", Single)
  {
    forall t | Fits(t, 0, 0) ensures Print(t) != "" {
      PrintHead(t);
    }
  }

  lemma OnlyTree(t: Type)
    requires WellFormed(t)
    ensures forall u :: WellFormed(u) && Print(u) == Print(t) ==> u == t
  {
    forall u | WellFormed(u) && Print(u) == Print(t) ensures u == t {
      UniquePrint(u, "", t, "");
    }
  }

  /** A written body, looked at without knowing how it was written: properly nested,
      one value, and of the declared type. */
  lemma WrittenBody(env: Env, t: Type, st: Staged)
    requires InfersTyped(env) && WellFormed(t) && Shaped(env.qt, t, st)
    ensures var w := TreeOf(env, t, st);
            Parse(Flatten(w)) == Some((w, |Flatten(w)|)) && Typed(w, t) && SignatureOf(w) == Print(t)
  {
    var w := TreeOf(env, t, st);
    TreeIsTyped(env, t, st);
    TypedSignature(w, t);
    ParseFlatten(w, []);
    assert Flatten(w) + [] == Flatten(w);
  }

  class SignatureWriter {
    const env: Env
    const pool: SlotPool

    constructor (env: Env, pool: SlotPool)
      ensures this.env == env && this.pool == pool
    {
      this.env := env;
      this.pool := pool;
    }

    /** produceBasic: the only producer of basic wire values. */
    method ProduceBasic(c: char, v: Value) returns (r: Option<Payload>)
      ensures r == Produce(env.qt, c, v)
    {
      var q := env.qt;
      if FailureIn(v) { return None; }
      match c {
        case 'y' => return Some(Num(q.toUInt(v) % 0x100));
        case 'b' => return Some(Flag(q.toBool(v)));
        case 'n' => return Some(Num(Signed16(q.toInt(v))));
        case 'q' => return Some(Num(q.toUInt(v) % 0x10000));
        case 'i' => return Some(Num(q.toInt(v)));
        case 'u' => return Some(Num(q.toUInt(v)));
        case 'x' => return Some(Num(q.toInt64(v)));
        case 't' => return Some(Num(q.toUInt64(v)));
        case 'd' => return Some(Real(q.toDouble(v)));
        case 's' => return Some(Str(q.toText(v)));
        case 'o' =>
          var ok := ValidObjectPath(PathText(q, v));
          return if ok then Some(Str(PathText(q, v))) else None;
        case 'g' =>
          var ok := ValidateSignature(SignatureText(q, v), Message);
          return if ok then Some(Str(SignatureText(q, v))) else None;
        case 'h' => return if WireFd(v).Some? then Some(Fd(WireFd(v).value)) else None;
        case _ => return None;
      }
    }

    /** A probe leaves the wire alone, may only add to the pool, and finds what
        `Stage` says; it refuses a stageable value only for want of a free slot. */
    method Probe(sig: string, v: Value, depth: nat, ghost t: Type) returns (r: Option<Staged>)
      requires pool.Valid() && sig == Print(t) && Fits(t, 0, 0) && |sig| <= MAX_SIGNATURE_LENGTH
      modifies pool
      ensures pool.Valid() && Extends(pool.View(), old(pool.View()))
      ensures r.Some? ==> r == Stage(env.qt, t, v, depth) && Minted(pool.qtKnows, pool.View(), t, r.value)
      ensures r.None? ==> Stage(env.qt, t, v, depth).None? || pool.nextFree == POOL_SIZE
      decreases Size(t), 4
    {
      TextTellsKind(t);
      if depth > MAX_WRITE_DEPTH {
        return None;
      }
      if BasicText(sig) {
        var p := ProduceBasic(sig[0], v);
        return if p.None? then None else Some(Ready(p.value));
      }
      if sig == "v" {
        return if env.qt.marshalable(v) then Some(Whole(v)) else None;
      }
      if sig == "ay" {
        return Some(Bytes(ToByteArray(env.qt, v)));
      }
      if sig == "as" {
        return Some(Texts(ToStringList(env.qt, v)));
      }
      r := ProbeContainer(sig, v, depth, t);
    }

    /** The struct, map and general array branches of writeProbe. */
    method ProbeContainer(sig: string, v: Value, depth: nat, ghost t: Type) returns (r: Option<Staged>)
      requires pool.Valid() && sig == Print(t) && Fits(t, 0, 0) && |sig| <= MAX_SIGNATURE_LENGTH
      requires depth <= MAX_WRITE_DEPTH && (t.Struct? || t.Dict? || (t.Array?
          && t.elem !in {Type.Basic('y'), Type.Basic('s')}))
      modifies pool
      ensures pool.Valid() && Extends(pool.View(), old(pool.View()))
      ensures r.Some? ==> r == Stage(env.qt, t, v, depth) && Minted(pool.qtKnows, pool.View(), t, r.value)
      ensures r.None? ==> Stage(env.qt, t, v, depth).None? || pool.nextFree == POOL_SIZE
      decreases Size(t), 3, 1
    {
      TextTellsKind(t);
      var items: Option<seq<Staged>>;
      hide Extends;
      hide RegistryValid;
      hide MembersMinted;
      hide ItemsMinted;
      hide EntriesMinted;
      hide StageMembers;
      hide StageItems;
      hide StageEntries;
      if sig[0] == '(' {
        items := ProbeMembers(sig, ToList(v), depth + 1, t.members);
      } else if sig[1] == '{' {
        items := ProbeEntries(sig, ToMap(v), depth + 1, t.key, t.value);
      } else {
        items := ProbeItems(sig, ToList(v), depth + 1, t.elem);
      }
      r := Wrap(items);
    }

    /** The member loop of the struct branch. */
    method ProbeMembers(sig: string, members: seq<Value>, depth: nat, ghost ms: seq<Type>) returns (r: Option<seq<Staged>>)
      requires pool.Valid() && sig == Print(Struct(ms)) && Fits(Struct(ms), 0, 0) && |sig| <= MAX_SIGNATURE_LENGTH
      modifies pool
      ensures pool.Valid() && Extends(pool.View(), old(pool.View()))
      ensures r.Some? ==> r == StageMembers(env.qt, ms, members, depth) && MembersMinted(pool.qtKnows, pool.View(), ms, r.value)
      ensures r.None? ==> StageMembers(env.qt, ms, members, depth).None? || pool.nextFree == POOL_SIZE
      decreases Size(Struct(ms)), 3, 0
    {
      hide Print, PrintAll, Stage, StageMembers, MembersMinted, Fits, Valid;
      StructInner(ms);
      var inner := sig[1..|sig| - 1];
      var staged: seq<Staged> := [];
      var pos, mi := 0, 0;
      ghost var done: seq<Type>, left := [], ms;
      ProbingStarts(env.qt, ms, members, depth);
      MembersStart(pool.qtKnows, pool.View());
      ExtendsItself(pool.View());
      assert Size(Struct(ms)) == 1 + SizeAll(ms);
      hide *;
      while pos < |inner|
        invariant pool.Valid() && Extends(pool.View(), old(pool.View()))
        invariant pos <= |inner| && inner[pos..] == PrintAll(left) && AllFit(left, 0, 0)
        invariant ProbingMembers(env.qt, ms, members, depth, done, left, mi, staged)
        invariant MembersMinted(pool.qtKnows, pool.View(), done, staged)
        decreases |inner| - pos
      {
        ghost var before := pool.View();
        var memberSig;
        memberSig, pos := MemberSignature(inner, pos, left);
        ProbingStep(env.qt, ms, members, depth, done, left, mi, staged);
        ProbingIsSmaller(env.qt, ms, members, depth, done, left, mi, staged);
        var p := Probe(memberSig, if mi < |members| then members[mi] else Invalid, depth, left[0]);
        if p.None? {
          return None;
        }
        ExtendsTransitive(old(pool.View()), before, pool.View());
        MembersMintedGrow(pool.qtKnows, before, pool.View(), done, staged);
        MembersMintedAppend(pool.qtKnows, pool.View(), done, staged, left[0], p.value);
        staged := staged + [p.value];
        mi := mi + 1;
        done, left := done + [left[0]], left[1..];
      }
      assert inner[pos..] == "";
      EndOfMembers(left);
      ProbingEnds(env.qt, ms, members, depth, done, mi, staged);
      return Some(staged);
    }

    /** The declared type at the cursor of a struct body. */
    method MemberSignature(inner: string, start: nat, ghost left: seq<Type>) returns (memberSig: string, pos: nat)
      requires start < |inner| && inner[start..] == PrintAll(left) && AllFit(left, 0, 0) && |inner| <= MAX_SIGNATURE_LENGTH
      ensures left != [] && memberSig == Print(left[0]) && start < pos <= |inner| && inner[pos..] == PrintAll(left[1..])
      ensures Fits(left[0], 0, 0) && AllFit(left[1..], 0, 0) && |memberSig| <= MAX_SIGNATURE_LENGTH
    {
      NextMember(left);
      memberSig, pos := FirstCompleteType(inner, start, 0);
      assert inner[pos..] == inner[start..][|memberSig|..];
    }

    /** The element loop of the array branches. */
    method ProbeItems(sig: string, list: seq<Value>, depth: nat, ghost e: Type) returns (r: Option<seq<Staged>>)
      requires pool.Valid() && sig == Print(Array(e)) && Fits(Array(e), 0, 0) && |sig| <= MAX_SIGNATURE_LENGTH
      modifies pool
      ensures pool.Valid() && Extends(pool.View(), old(pool.View()))
      ensures r.Some? ==>
                && r == StageItems(env.qt, e, list, depth) && ItemsMinted(pool.qtKnows, pool.View(), e, r.value)
                && HasType(pool.qtKnows, pool.View(), Print(e))
      ensures r.None? ==> StageItems(env.qt, e, list, depth).None? || pool.nextFree == POOL_SIZE
      decreases Size(Array(e)), 3, 0
    {
      hide Print, Fits, Size, Stage, StageItems, ItemsMinted, Valid;
      ArrayInner(e);
      var elemSig := sig[1..];
      var mt := pool.MetaTypeForSignature(elemSig);
      if mt == NoType {
        return None;
      }
      var staged: seq<Staged> := [];
      var i := 0;
      PrependStep(staged, Ready(Num(0)), StageItems(env.qt, e, list, depth));
      NoItems(env.qt, pool.qtKnows, pool.View(), e, depth);
      assert list[0..] == list;
      while i < |list|
        invariant pool.Valid() && Extends(pool.View(), old(pool.View()))
        invariant i <= |list|
        invariant StageItems(env.qt, e, list, depth) == Prepend(staged, StageItems(env.qt, e, list[i..], depth))
        invariant ItemsMinted(pool.qtKnows, pool.View(), e, staged) && HasType(pool.qtKnows, pool.View(), Print(e))
      {
        ghost var before := pool.View();
        StageItemsStep(env.qt, e, list, i, depth, staged);
        var p := Probe(elemSig, list[i], depth, e);
        if p.None? {
          return None;
        }
        ItemsMintedGrow(pool.qtKnows, before, pool.View(), e, staged);
        ItemsMintedAppend(pool.qtKnows, pool.View(), e, staged, p.value);
        staged := staged + [p.value];
        i := i + 1;
      }
      assert list[i..] == [];
      assert staged + [] == staged;
      return Some(staged);
    }

    /** The entry loop of the map branches. */
    method ProbeEntries(sig: string, map_: seq<Entry>, depth: nat, ghost key: char,
        ghost u: Type) returns (r: Option<seq<Staged>>)
      requires pool.Valid() && sig == Print(Dict(key, u)) && Fits(Dict(key, u), 0, 0) && |sig| <= MAX_SIGNATURE_LENGTH
      modifies pool
      ensures pool.Valid() && Extends(pool.View(), old(pool.View()))
      ensures r.Some? ==>
                && r == StageEntries(env.qt, key, u, map_, depth)
                && EntriesMinted(pool.qtKnows, pool.View(), u, r.value)
                && HasType(pool.qtKnows, pool.View(), [key]) && HasType(pool.qtKnows, pool.View(), Print(u))
      ensures r.None? ==> StageEntries(env.qt, key, u, map_, depth).None? || pool.nextFree == POOL_SIZE
      decreases Size(Dict(key, u)), 3, 0
    {
      var ready, keySig, valSig := EntryTypes(sig[1..], key, u);
      if !ready {
        return None;
      }
      var staged: seq<Staged> := [];
      var i := 0;
      assert map_[0..] == map_;
      PrependStep(staged, Ready(Num(0)), StageEntries(env.qt, key, u, map_, depth));
      EntriesStart(pool.qtKnows, pool.View(), env.qt, key, u, depth);
      HasTypeGrows(pool.qtKnows);
      assert Size(Type.Basic(key)) < Size(Dict(key, u)) && Size(u) < Size(Dict(key, u));
      hide *;
      while i < |map_|
        invariant pool.Valid() && Extends(pool.View(), old(pool.View()))
        invariant i <= |map_|
        invariant StageEntries(env.qt, key, u, map_, depth) == Prepend(staged, StageEntries(env.qt, key, u,
            map_[i..], depth))
        invariant EntriesMinted(pool.qtKnows, pool.View(), u, staged)
        invariant HasType(pool.qtKnows, pool.View(), [key]) && HasType(pool.qtKnows, pool.View(), Print(u))
      {
        ghost var before := pool.View();
        StageEntriesStep(env.qt, key, u, map_, i, depth, staged);
        var p := ProbeEntry(keySig, valSig, map_[i], depth, key, u);
        if p.None? {
          return None;
        }
        ExtendsTransitive(old(pool.View()), before, pool.View());
        EntriesMintedGrow(pool.qtKnows, before, pool.View(), u, staged);
        EntriesMintedAppend(pool.qtKnows, pool.View(), u, staged, p.value);
        staged := staged + [p.value];
        i := i + 1;
      }
      assert map_[i..] == [];
      EntriesStart(pool.qtKnows, pool.View(), env.qt, key, u, depth);
      assert staged + [] == staged;
      return Some(staged);
    }

    /** Both metatypes of a map, before anything is staged. */
    method EntryTypes(elemSig: string, ghost key: char, ghost u: Type) returns (ready: bool, keySig: string, valSig: string)
      requires pool.Valid() && Fits(Dict(key, u), 0, 0) && elemSig == Print(Dict(key, u))[1..]
          && |elemSig| < MAX_SIGNATURE_LENGTH
      modifies pool
      ensures pool.Valid() && Extends(pool.View(), old(pool.View()))
      ensures keySig == [key] == Print(Type.Basic(key)) && valSig == Print(u) && |valSig| <= MAX_SIGNATURE_LENGTH
      ensures Fits(Type.Basic(key), 0, 0) && Fits(u, 0, 0)
      ensures ready ==> HasType(pool.qtKnows, pool.View(), [key]) && HasType(pool.qtKnows, pool.View(), Print(u))
      ensures !ready ==> pool.nextFree == POOL_SIZE
    {
      keySig, valSig := EntrySignatures(elemSig, key, u);
      var kMt := pool.MetaTypeForSignature(keySig);
      if kMt == NoType {
        return false, keySig, valSig;
      }
      ghost var between := pool.View();
      var vMt := pool.MetaTypeForSignature(valSig);
      HasTypeGrows(pool.qtKnows);
      ExtendsTransitive(old(pool.View()), between, pool.View());
      return vMt != NoType, keySig, valSig;
    }

    method ProbeEntry(keySig: string, valSig: string, entry: Entry, depth: nat, ghost key: char,
        ghost u: Type) returns (r: Option<Staged>)
      requires pool.Valid()
      requires keySig == Print(Type.Basic(key)) && Fits(Type.Basic(key), 0, 0)
      requires valSig == Print(u) && Fits(u, 0, 0) && |valSig| <= MAX_SIGNATURE_LENGTH
      modifies pool
      ensures pool.Valid() && Extends(pool.View(), old(pool.View()))
      ensures r.Some? ==> r == StageEntry(env.qt, key, u, entry, depth)
                          && r.value.Items? && |r.value.items| == 2 && Minted(pool.qtKnows, pool.View(), u, r.value.items[1])
      ensures r.None? ==> StageEntry(env.qt, key, u, entry, depth).None? || pool.nextFree == POOL_SIZE
      decreases Size(Dict(key, u)), 2
    {
      var kp := Probe(keySig, Text(entry.key), depth, Type.Basic(key));
      ghost var between := pool.View();
      var vp := Probe(valSig, entry.value, depth, u);
      ExtendsTransitive(old(pool.View()), between, pool.View());
      PoolOnlyFills(between, pool.View());
      return if kp.None? || vp.None? then None else Some(Items([kp.value, vp.value]));
    }

    /** Splitting a dict entry: the key's type, then the value's. */
    method EntrySignatures(elemSig: string, ghost key: char, ghost u: Type) returns (keySig: string, valSig: string)
      requires Fits(Dict(key, u), 0, 0) && elemSig == Print(Dict(key, u))[1..] && |elemSig| < MAX_SIGNATURE_LENGTH
      ensures keySig == [key] == Print(Type.Basic(key)) && valSig == Print(u) && |valSig| <= MAX_SIGNATURE_LENGTH
      ensures Fits(Type.Basic(key), 0, 0) && Valid(keySig, Single)
      ensures Fits(u, 0, 0) && Valid(valSig, Single)
    {
      DictInner(key, u);
      var afterKey, afterVal;
      keySig, afterKey := FirstCompleteType(elemSig, 1, 0);
      valSig, afterVal := FirstCompleteType(elemSig, afterKey, 0);
      assert keySig == Print(Type.Basic(key)) && Fits(Type.Basic(key), 0, 0);
    }

    /** appendStaged: streams staged input and cannot fail. It appends exactly the
        value's events, finds every metatype already minted, and leaves the pool as
        it was. */
    method AppendStaged(arg: Argument, sig: string, staged: Staged, ghost t: Type)
      requires pool.Valid() && sig == Print(t) && Fits(t, 0, 0) && |sig| <= MAX_SIGNATURE_LENGTH
      requires Shaped(env.qt, t, staged) && Minted(pool.qtKnows, pool.View(), t, staged)
      modifies arg, pool
      ensures pool.Valid() && pool.View() == old(pool.View())
      ensures arg.events == old(arg.events) + Flatten(TreeOf(env, t, staged))
      decreases Size(t), 4
    {
      TextTellsKind(t);
      if BasicText(sig) {
        arg.Push(Event.Basic(sig[0], staged.payload));
      } else if sig == "v" {
        arg.PushValue(Box(env.infer(staged.value).0, env.infer(staged.value).1));
      } else if sig == "ay" {
        arg.PushValue(Sequence("y", ByteTrees(staged.bytes)));
      } else if sig == "as" {
        arg.PushValue(Sequence("s", TextTrees(staged.texts)));
      } else if sig[0] == '(' {
        AppendMembers(arg, sig, staged.items, t.members);
      } else if sig[1] == '{' {
        AppendEntries(arg, sig, staged.items, t.key, t.value);
      } else {
        AppendItems(arg, sig, staged.items, t.elem);
      }
    }

    /** The struct branch: `members[mi]` is in range because the probe staged one value
        per declared member. */
    method AppendMembers(arg: Argument, sig: string, members: seq<Staged>, ghost ms: seq<Type>)
      requires pool.Valid() && sig == Print(Struct(ms)) && Fits(Struct(ms), 0, 0) && |sig| <= MAX_SIGNATURE_LENGTH
      requires |ms| == |members| && MembersShaped(env.qt, ms, members)
          && MembersMinted(pool.qtKnows, pool.View(), ms, members)
      modifies arg, pool
      ensures pool.Valid() && pool.View() == old(pool.View())
      ensures arg.events == old(arg.events) + Flatten(Record(MemberTrees(env, ms, members)))
      decreases Size(Struct(ms)), 3, 0
    {
      StructInner(ms);
      var inner := sig[1..|sig| - 1];
      var pos, mi := 0, 0;
      arg.Push(BeginStruct);
      ghost var start, left := arg.events, ms;
      AppendingStarts(env, pool.qtKnows, pool.View(), ms, members, start);
      assert Size(Struct(ms)) == 1 + SizeAll(ms);
      hide *;
      while pos < |inner|
        invariant pool.Valid() && pool.View() == old(pool.View())
        invariant pos <= |inner| && inner[pos..] == PrintAll(left) && AllFit(left, 0, 0)
        invariant AppendingMembers(env, pool.qtKnows, pool.View(), ms, members, left, mi, start, arg.events)
        decreases |inner| - pos
      {
        var memberSig;
        memberSig, pos := MemberSignature(inner, pos, left);
        ghost var before := arg.events;
        AppendingStep(env, pool.qtKnows, pool.View(), ms, members, left, mi, start, before);
        AppendStaged(arg, memberSig, members[mi], left[0]);
        mi := mi + 1;
        left := left[1..];
      }
      assert inner[pos..] == "";
      EndOfMembers(left);
      AppendingEnds(env, pool.qtKnows, pool.View(), ms, members, mi, start, arg.events);
      arg.Push(EndStruct);
      RecordEvents(env, ms, members, old(arg.events));
    }

    /** The array branch. */
    method AppendItems(arg: Argument, sig: string, items: seq<Staged>, ghost e: Type)
      requires pool.Valid() && sig == Print(Array(e)) && Fits(Array(e), 0, 0) && |sig| <= MAX_SIGNATURE_LENGTH
      requires ItemsShaped(env.qt, e, items)
      requires HasType(pool.qtKnows, pool.View(), Print(e)) && ItemsMinted(pool.qtKnows, pool.View(), e, items)
      modifies arg, pool
      ensures pool.Valid() && pool.View() == old(pool.View())
      ensures arg.events == old(arg.events) + Flatten(Sequence(Print(e), ItemTrees(env, e, items)))
      decreases Size(Array(e)), 3, 0
    {
      hide Print, Fits, Size, Flatten, FlattenAll, ItemTrees, ItemsShaped, ItemsMinted;
      ArrayInner(e);
      var elemSig := sig[1..];
      var mt := KnownType(elemSig);
      arg.Push(BeginArray(SignatureOfMeta(Registry(pool.slots, pool.registered), mt)));
      ghost var start := arg.events;
      var i := 0;
      assert items[0..] == items;
      hide *;
      while i < |items|
        invariant pool.Valid() && pool.View() == old(pool.View())
        invariant i <= |items|
        invariant ItemsShaped(env.qt, e, items[i..]) && ItemsMinted(pool.qtKnows, pool.View(), e, items[i..])
        invariant arg.events + FlattenAll(ItemTrees(env, e, items[i..])) == start + FlattenAll(ItemTrees(env, e, items))
      {
        ItemStep(env, pool.qtKnows, pool.View(), e, items, i, arg.events);
        AppendStaged(arg, elemSig, items[i], e);
        i := i + 1;
      }
      ItemsDone(env, e, items, i, arg.events);
      arg.Push(EndArray);
      ItemsEvents(env, e, items, old(arg.events));
    }

    /** The map branch. */
    method AppendEntries(arg: Argument, sig: string, entries: seq<Staged>, ghost key: char, ghost u: Type)
      requires pool.Valid() && sig == Print(Dict(key, u)) && Fits(Dict(key, u), 0, 0) && |sig| <= MAX_SIGNATURE_LENGTH
      requires EntriesShaped(env.qt, key, u, entries)
      requires HasType(pool.qtKnows, pool.View(), [key]) && HasType(pool.qtKnows, pool.View(), Print(u))
      requires EntriesMinted(pool.qtKnows, pool.View(), u, entries)
      modifies arg, pool
      ensures pool.Valid() && pool.View() == old(pool.View())
      ensures arg.events == old(arg.events) + Flatten(Table([key], Print(u), EntryTrees(env, key, u, entries)))
      decreases Size(Dict(key, u)), 3, 0
    {
      var keySig, valSig := EntrySignatures(sig[1..], key, u);
      var kMt := KnownType(keySig);
      var vMt := KnownType(valSig);
      var reg := Registry(pool.slots, pool.registered);
      arg.Push(BeginMap(SignatureOfMeta(reg, kMt), SignatureOfMeta(reg, vMt)));
      ghost var start := arg.events;
      var i := 0;
      assert entries[0..] == entries;
      hide *;
      while i < |entries|
        invariant pool.Valid() && pool.View() == old(pool.View())
        invariant i <= |entries|
        invariant EntriesShaped(env.qt, key, u, entries[i..]) && EntriesMinted(pool.qtKnows, pool.View(), u, entries[i..])
        invariant arg.events + FlattenAll(EntryTrees(env, key, u,
            entries[i..])) == start + FlattenAll(EntryTrees(env, key, u, entries))
      {
        EntryStep(env, pool.qtKnows, pool.View(), key, u, entries, i, arg.events);
        AppendEntry(arg, keySig, valSig, entries[i], key, u);
        i := i + 1;
      }
      EntriesDone(env, key, u, entries, i, arg.events);
      arg.Push(EndMap);
      TableEvents(env, key, u, entries, old(arg.events));
    }

    method AppendEntry(arg: Argument, keySig: string, valSig: string, entry: Staged, ghost key: char, ghost u: Type)
      requires pool.Valid()
      requires keySig == Print(Type.Basic(key)) && Fits(Type.Basic(key), 0, 0)
      requires valSig == Print(u) && Fits(u, 0, 0) && |valSig| <= MAX_SIGNATURE_LENGTH
      requires EntryShaped(env.qt, key, u, entry) && Minted(pool.qtKnows, pool.View(), u, entry.items[1])
      modifies arg, pool
      ensures pool.Valid() && pool.View() == old(pool.View())
      ensures arg.events == old(arg.events) + Flatten(EntryTree(env, key, u, entry))
      decreases Size(Dict(key, u)), 2
    {
      arg.Push(BeginMapEntry);
      AppendStaged(arg, keySig, entry.items[0], Type.Basic(key));
      AppendStaged(arg, valSig, entry.items[1], u);
      arg.Push(EndMapEntry);
      EntryEvents(env, key, u, entry, old(arg.events));
    }

    /** writeValueBySignature: validate first, then commit. Either the whole value is
        appended or the argument is untouched. */
    method WriteValue(arg: Argument, sig: string, v: Value, ghost t: Type) returns (ok: bool)
      requires pool.Valid() && sig == Print(t) && Fits(t, 0, 0) && |sig| <= MAX_SIGNATURE_LENGTH
      modifies arg, pool
      ensures pool.Valid() && Extends(pool.View(), old(pool.View()))
      ensures !ok ==> arg.events == old(arg.events)
      ensures !ok ==> Stage(env.qt, t, v, 0).None? || pool.nextFree == POOL_SIZE
      ensures ok ==>
                var st := Stage(env.qt, t, v, 0);
                st.Some? && Shaped(env.qt, t, st.value) && arg.events == old(arg.events) + Flatten(TreeOf(env, t, st.value))
    {
      TextTellsKind(t);
      StageIsShaped(env.qt, t, v, 0);
      if sig == "ay" {
        arg.PushValue(Sequence("y", ByteTrees(ToByteArray(env.qt, v))));
        return true;
      }
      if sig == "as" {
        arg.PushValue(Sequence("s", TextTrees(ToStringList(env.qt, v))));
        return true;
      }
      if sig[0] == 'a' {
        ok := WriteContainer(arg, sig, v, t);
        return;
      }
      var staged := Probe(sig, v, 0, t);
      if staged.None? {
        return false;
      }
      AppendStaged(arg, sig, staged.value, t);
      return true;
    }

    /** The top-level map and array branches, which stage their own children. */
    method WriteContainer(arg: Argument, sig: string, v: Value, ghost t: Type) returns (ok: bool)
      requires pool.Valid() && sig == Print(t) && Fits(t, 0, 0) && |sig| <= MAX_SIGNATURE_LENGTH
      requires t.Dict? || (t.Array? && t.elem !in {Type.Basic('y'), Type.Basic('s')})
      modifies arg, pool
      ensures pool.Valid() && Extends(pool.View(), old(pool.View()))
      ensures !ok ==> arg.events == old(arg.events)
      ensures !ok ==> Stage(env.qt, t, v, 0).None? || pool.nextFree == POOL_SIZE
      ensures ok ==>
                var st := Stage(env.qt, t, v, 0);
                st.Some? && Shaped(env.qt, t, st.value) && arg.events == old(arg.events) + Flatten(TreeOf(env, t, st.value))
    {
      TextTellsKind(t);
      StageIsShaped(env.qt, t, v, 0);
      hide Extends;
      hide RegistryValid;
      if sig[1] == '{' {
        var entries := ProbeEntries(sig, ToMap(v), 1, t.key, t.value);
        if entries.None? {
          return false;
        }
        AppendEntries(arg, sig, entries.value, t.key, t.value);
      } else {
        var items := ProbeItems(sig, ToList(v), 1, t.elem);
        if items.None? {
          return false;
        }
        AppendItems(arg, sig, items.value, t.elem);
      }
      return true;
    }

    /** writeBySignature: the gate every caller goes through. It yields a body exactly
        when the signature is valid and every position accepts its value (unless the
        pool is exhausted); the body is then one complete value of that type. */
    method WriteBySignature(sig: string, v: Value) returns (r: Option<seq<Event>>)
      requires pool.Valid()
      modifies pool
      ensures pool.Valid() && Extends(pool.View(), old(pool.View()))
      ensures r.Some? ==> Signature.Valid(sig, Single)
      ensures r.Some? ==> forall t :: Fits(t, 0, 0) && Print(t) == sig ==>
                                        var st := Stage(env.qt, t, v, 0);
                                        st.Some? && Shaped(env.qt, t, st.value)
                                            && r.value == Flatten(TreeOf(env, t, st.value))
      ensures r.Some? && InfersTyped(env) ==>
                var body := Parse(r.value);
                body.Some? && body.value.1 == |r.value| && SignatureOf(body.value.0) == sig
      ensures r.None? && Signature.Valid(sig, Single) && pool.nextFree < 64 ==>
                forall t :: Fits(t, 0, 0) && Print(t) == sig ==> Stage(env.qt, t, v, 0) == None
    {
      ExtendsItself(pool.View());
      if sig == "" {
        EmptyIsNoType();
        return None;
      }
      var ok := ValidateSignature(sig, Single);
      if !ok {
        return None;
      }
      ghost var t :| Fits(t, 0, 0) && Print(t) == sig;
      OnlyTree(t);
      var arg := new Argument();
      ok := WriteValue(arg, sig, v, t);
      if !ok {
        return None;
      }
      if InfersTyped(env) {
        WrittenBody(env, t, Stage(env.qt, t, v, 0).value);
      }
      return Some(arg.events);
    }

    /** A metatype the probe already asked for: no new slot, and it stands for `sig`. */
    method KnownType(sig: string) returns (mt: MetaType)
      requires pool.Valid() && HasType(pool.qtKnows, pool.View(), sig)
      modifies pool
      ensures pool.Valid() && pool.View() == old(pool.View())
      ensures SignatureOfMeta(pool.View(), mt) == sig
    {
      ghost var before := pool.View();
      mt := pool.MetaTypeForSignature(sig);
      ExtendsItself(before);
      MetaTypeIsFaithful(pool.qtKnows, before, pool.View(), sig, sig);
    }
  }

  lemma ProbingIsSmaller(q: Qt, ms: seq<Type>, members: seq<Value>, depth: nat,
                         done: seq<Type>, left: seq<Type>, mi: nat, staged: seq<Staged>)
    requires ProbingMembers(q, ms, members, depth, done, left, mi, staged) && left != []
    ensures Size(left[0]) < SizeAll(ms)
  {
  }

  lemma MembersStart(knows: set<string>, r: Registry)
    ensures MembersMinted(knows, r, [], [])
  {
  }

  lemma PoolOnlyFills(before: Registry, now: Registry)
    requires Extends(now, before)
    ensures |before.registered| <= |now.registered|
  {
  }

  lemma EntriesStart(knows: set<string>, r: Registry, q: Qt, key: char, u: Type, depth: nat)
    ensures EntriesMinted(knows, r, u, [])
    ensures StageEntries(q, key, u, [], depth) == Some([])
  {
  }

  lemma EndOfMembers(ts: seq<Type>)
    requires AllFit(ts, 0, 0)
    ensures PrintAll(ts) == "" <==> ts == []
  {
    if ts != [] {
      PrintHead(ts[0]);
    }
  }
}
