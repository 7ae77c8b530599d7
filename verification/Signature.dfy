/** D-Bus type signatures: the grammar, the validator that walks it recursively,
    and the splitter that finds one complete type by counting brackets.

    The two walkers are written independently in dbusconnection.cpp; here both are
    proved against one grammar, given as type trees and their printing. */
module Signature {

  const MAX_SIGNATURE_LENGTH := 255
  const MAX_SIGNATURE_DEPTH := 32

  /** Basic types, without the variant: exactly the codes a dict key may have. */
  const BASIC_CODES := "ybnqiuxtdhsog"

  /** A complete type. `Dict` is an array whose element is a dict entry: the
      grammar has no other place for an entry. */
  datatype Type =
    | Basic(code: char)
    | Variant
    | Array(elem: Type)
    | Struct(members: seq<Type>)
    | Dict(key: char, value: Type)

  function Print(t: Type): string
    decreases t, 1
  {
    match t
    case Basic(c) => [c]
    case Variant => "v"
    case Array(e) => "a" + Print(e)
    case Struct(ms) => "(" + PrintAll(ms) + ")"
    case Dict(k, v) => "a{" + [k] + Print(v) + "}"
  }

  function PrintAll(ts: seq<Type>): string
    decreases ts, 0
  {
    if ts == [] then "" else Print(ts[0]) + PrintAll(ts[1..])
  }

  predicate WellFormed(t: Type)
    decreases t, 1
  {
    match t
    case Basic(c) => c in "ybnqiuxtdhsog"
    case Variant => true
    case Array(e) => WellFormed(e)
    case Struct(ms) => ms != [] && AllWellFormed(ms)
    case Dict(k, v) => k in "ybnqiuxtdhsog" && WellFormed(v)
  }

  predicate AllWellFormed(ts: seq<Type>)
    decreases ts, 0
  {
    ts == [] || (WellFormed(ts[0]) && AllWellFormed(ts[1..]))
  }

  /** A termination measure: the number of nodes, counting a dict key as one. */
  function Size(t: Type): nat
    decreases t, 1
  {
    match t
    case Basic(_) => 1
    case Variant => 1
    case Array(e) => 1 + Size(e)
    case Struct(ms) => 1 + SizeAll(ms)
    case Dict(_, v) => 2 + Size(v)
  }

  function SizeAll(ts: seq<Type>): nat
    decreases ts, 0
  {
    if ts == [] then 0 else 1 + Size(ts[0]) + SizeAll(ts[1..])
  }

  function Max(a: nat, b: nat): nat { if a < b then b else a }

  /** Nesting depth in arrays. */
  function Arrays(t: Type): nat
    decreases t, 1
  {
    match t
    case Basic(_) => 0
    case Variant => 0
    case Array(e) => 1 + Arrays(e)
    case Struct(ms) => ArraysAll(ms)
    case Dict(_, v) => 1 + Arrays(v)
  }

  function ArraysAll(ts: seq<Type>): nat
    decreases ts, 0
  {
    if ts == [] then 0 else Max(Arrays(ts[0]), ArraysAll(ts[1..]))
  }

  /** Nesting depth in structs and dict entries. */
  function Structs(t: Type): nat
    decreases t, 1
  {
    match t
    case Basic(_) => 0
    case Variant => 0
    case Array(e) => Structs(e)
    case Struct(ms) => 1 + StructsAll(ms)
    case Dict(_, v) => 1 + Structs(v)
  }

  function StructsAll(ts: seq<Type>): nat
    decreases ts, 0
  {
    if ts == [] then 0 else Max(Structs(ts[0]), StructsAll(ts[1..]))
  }

  /** `t` is in the grammar and stays within both depth limits below `arrays` open
      arrays and `structs` open structs or dict entries. */
  predicate Fits(t: Type, arrays: nat, structs: nat) {
    WellFormed(t) && arrays + Arrays(t) <= 32 && structs + Structs(t) <= 32
  }

  predicate AllFit(ts: seq<Type>, arrays: nat, structs: nat) {
    AllWellFormed(ts) && arrays + ArraysAll(ts) <= 32 && structs + StructsAll(ts) <= 32
  }

  datatype Kind = Single | Message

  /** "Valid Signatures" of the D-Bus Specification, as a statement about trees. */
  ghost predicate Valid(sig: string, kind: Kind) {
    && |sig| <= 255
    && match kind
       case Single => exists t :: Fits(t, 0, 0) && Print(t) == sig
       case Message => exists ts :: AllFit(ts, 0, 0) && PrintAll(ts) == sig
  }

  // ---------------------------------------------------------------- the grammar

  lemma {:induction false} AllWellFormedAppend(ts: seq<Type>, us: seq<Type>)
    ensures AllWellFormed(ts + us) <==> AllWellFormed(ts) && AllWellFormed(us)
    ensures ArraysAll(ts + us) == Max(ArraysAll(ts), ArraysAll(us))
    ensures StructsAll(ts + us) == Max(StructsAll(ts), StructsAll(us))
    ensures PrintAll(ts + us) == PrintAll(ts) + PrintAll(us)
  {
    if ts == [] {
      assert ts + us == us;
    } else {
      hide Print, WellFormed, Arrays, Structs;
      AllWellFormedAppend(ts[1..], us);
      assert (ts + us)[1..] == ts[1..] + us;
    }
  }

  lemma AllFitAppend(ts: seq<Type>, t: Type, arrays: nat, structs: nat)
    requires ts == [] || AllFit(ts, arrays, structs)
    requires Fits(t, arrays, structs)
    ensures AllFit(ts + [t], arrays, structs)
    ensures PrintAll(ts + [t]) == PrintAll(ts) + Print(t)
  {
    AllWellFormedAppend(ts, [t]);
  }

  /** A printing starts with a type code: it is not empty and it does not start
      with a closing bracket or with a dict entry. */
  lemma PrintHead(t: Type)
    requires WellFormed(t)
    ensures |Print(t)| > 0 && Print(t)[0] !in ")}{"
    ensures Print(t)[0] == 'a' <==> t.Array? || t.Dict?
    ensures Print(t)[0] == '(' <==> t.Struct?
    ensures Print(t)[0] == 'v' <==> t.Variant?
  {
  }

  /** What can follow a list of complete types: the end, or a closing bracket. */
  predicate Stops(r: string) {
    r == "" || r[0] == ')'
  }

  lemma HeadContinues(ts: seq<Type>, r: string)
    requires AllWellFormed(ts)
    ensures ts == [] ==> PrintAll(ts) + r == r
    ensures ts != [] ==> !Stops(PrintAll(ts) + r) && PrintAll(ts) + r == Print(ts[0]) + (PrintAll(ts[1..]) + r)
  {
    if ts != [] {
      PrintHead(ts[0]);
      assert (PrintAll(ts) + r)[0] == Print(ts[0])[0];
    }
  }

  /** The first character decides the constructor; after `a` the second decides
      between a dict and an array. */
  lemma SameShape(t: Type, r: string, u: Type, q: string)
    requires WellFormed(t) && WellFormed(u)
    requires Print(t) + r == Print(u) + q
    ensures t.Basic? <==> u.Basic?
    ensures t.Variant? <==> u.Variant?
    ensures t.Array? <==> u.Array?
    ensures t.Struct? <==> u.Struct?
    ensures t.Dict? <==> u.Dict?
  {
    PrintHead(t);
    PrintHead(u);
    assert (Print(t) + r)[0] == Print(t)[0] && (Print(u) + q)[0] == Print(u)[0];
    SecondChar(t, r);
    SecondChar(u, q);
  }

  lemma SecondChar(t: Type, r: string)
    requires WellFormed(t)
    ensures t.Array? || t.Dict? ==> |Print(t) + r| > 1 && ((Print(t) + r)[1] == '{' <==> t.Dict?)
  {
    if t.Array? {
      PrintHead(t.elem);
    }
  }

  /** The grammar is prefix-free: a complete type at the start of a string is unique. */
  lemma {:induction false} UniquePrint(t: Type, r: string, u: Type, q: string)
    requires WellFormed(t) && WellFormed(u)
    requires Print(t) + r == Print(u) + q
    ensures t == u && r == q
    decreases t, 1
  {
    SameShape(t, r, u, q);
    Rest(t, r);
    Rest(u, q);
    match t {
      case Basic(_) =>
      case Variant =>
      case Array(e) =>
        UniquePrint(e, r, u.elem, q);
      case Struct(ms) =>
        UniqueAll(ms, ")" + r, u.members, ")" + q);
        assert r == (")" + r)[1..] == (")" + q)[1..] == q;
      case Dict(k, v) =>
        assert (Print(t) + r)[2] == k && (Print(u) + q)[2] == u.key;
        UniquePrint(v, "}" + r, u.value, "}" + q);
        assert r == ("}" + r)[1..] == ("}" + q)[1..] == q;
    }
  }

  lemma Opened(head: string, body: string, tail: string, r: string)
    ensures (head + body + tail + r)[|head|..] == body + (tail + r)
    ensures tail == "" ==> head + body + tail == head + body && tail + r == r
  {
  }

  /** Peeling the opening of a printing off a string that starts with it. */
  lemma Rest(t: Type, r: string)
    ensures t.Basic? || t.Variant? ==> (Print(t) + r)[1..] == r
    ensures t.Array? ==> (Print(t) + r)[1..] == Print(t.elem) + r
    ensures t.Struct? ==> (Print(t) + r)[1..] == PrintAll(t.members) + (")" + r)
    ensures t.Dict? ==> |Print(t) + r| > 2 && (Print(t) + r)[3..] == Print(t.value) + ("}" + r)
  {
    match t
    case Basic(_) =>
    case Variant =>
    case Array(elem) => Opened("a", Print(elem), "", r);
    case Struct(members) => Opened("(", PrintAll(members), ")", r);
    case Dict(k, value) => Opened("a{" + [k], Print(value), "}", r);
  }

  lemma {:induction false} UniqueAll(ts: seq<Type>, r: string, us: seq<Type>, q: string)
    requires AllWellFormed(ts) && AllWellFormed(us) && Stops(r) && Stops(q)
    requires PrintAll(ts) + r == PrintAll(us) + q
    ensures ts == us && r == q
    decreases ts, 0
  {
    HeadContinues(ts, r);
    HeadContinues(us, q);
    if ts != [] {
      UniquePrint(ts[0], PrintAll(ts[1..]) + r, us[0], PrintAll(us[1..]) + q);
      UniqueAll(ts[1..], r, us[1..], q);
      assert ts == [ts[0]] + ts[1..] && us == [us[0]] + us[1..];
    }
  }

  predicate BasicText(sig: string) {
    |sig| == 1 && sig[0] in "ybnqiuxtdsogh"
  }

  /** The tests on the signature text decide the constructor of its tree. */
  lemma TextTellsKind(t: Type)
    requires WellFormed(t)
    ensures Print(t) != ""
    ensures BasicText(Print(t)) <==> t.Basic?
    ensures Print(t) == "v" <==> t.Variant?
    ensures Print(t) == "ay" <==> t == Array(Type.Basic('y'))
    ensures Print(t) == "as" <==> t == Array(Type.Basic('s'))
    ensures Print(t)[0] == '(' <==> t.Struct?
    ensures Print(t)[0] == 'a' <==> t.Array? || t.Dict?
    ensures t.Dict? <==> |Print(t)| > 1 && Print(t)[0] == 'a' && Print(t)[1] == '{'
  {
    PrintHead(t);
    SecondChar(t, "");
    assert Print(t) + "" == Print(t);
    assert Print(Array(Type.Basic('y'))) == "ay" && Print(Array(Type.Basic('s'))) == "as";
    if Print(t) == "ay" { UniquePrint(t, "", Array(Type.Basic('y')), ""); }
    if Print(t) == "as" { UniquePrint(t, "", Array(Type.Basic('s')), ""); }
  }

  // -------------------------------------------------------------- the validator

  /** `us` continues the members `ts` already read, and what is left of `us` comes
      next, closed by a bracket. */
  ghost predicate Continues(us: seq<Type>, ts: seq<Type>, rest: string) {
    ts <= us && PrintAll(us[|ts|..]) + ")" <= rest
  }

  lemma PrefixSplit(s: string, p: string, q: string)
    requires p + q <= s
    ensures p <= s && q <= s[|p|..]
  {
    assert s == (p + q) + s[|p + q|..];
    assert s[..|p|] == p;
    assert s[|p|..] == q + s[|p + q|..];
  }

  lemma BodyEnds(vs: seq<Type>, rest: string)
    requires PrintAll(vs) + ")" <= rest
    ensures vs == [] ==> |rest| > 0 && rest[0] == ')'
  {
  }

  /** One more member was read: whatever tree still agrees with the input agrees
      with that member too. */
  lemma ContinuesStep(us: seq<Type>, ts: seq<Type>, t: Type, rest: string)
    requires AllWellFormed(us) && WellFormed(t) && Continues(us, ts, rest)
    requires Print(t) <= rest && (rest == "" || rest[0] != ')')
    ensures Continues(us, ts + [t], rest[|Print(t)|..])
  {
    var vs := us[|ts|..];
    PrintHead(t);
    BodyEnds(vs, rest);
    assert us == us[..|ts|] + vs;
    AllWellFormedAppend(us[..|ts|], vs);
    assert PrintAll(vs) + ")" == Print(vs[0]) + (PrintAll(vs[1..]) + ")");
    PrefixSplit(rest, Print(vs[0]), PrintAll(vs[1..]) + ")");
    assert rest == Print(vs[0]) + rest[|Print(vs[0])|..] == Print(t) + rest[|Print(t)|..];
    UniquePrint(vs[0], rest[|Print(vs[0])|..], t, rest[|Print(t)|..]);
    assert us[|ts|] == t;
    assert us[|ts + [t]|..] == vs[1..];
  }

  /** If no tree that fits starts at `rest`, no struct body that fits continues there. */
  lemma ContinuesStuck(us: seq<Type>, ts: seq<Type>, rest: string, arrays: nat, structs: nat)
    requires AllFit(us, arrays, structs) && Continues(us, ts, rest)
    requires rest == "" || rest[0] != ')'
    ensures exists t :: Fits(t, arrays, structs) && Print(t) <= rest
  {
    var vs := us[|ts|..];
    BodyEnds(vs, rest);
    assert us == us[..|ts|] + vs;
    AllWellFormedAppend(us[..|ts|], vs);
    assert PrintAll(vs) + ")" == Print(vs[0]) + (PrintAll(vs[1..]) + ")");
    PrefixSplit(rest, Print(vs[0]), PrintAll(vs[1..]) + ")");
    assert Fits(vs[0], arrays, structs);
  }

  /** validateTypeAt: reads one complete type at `start`. It accepts exactly when a
      tree that fits the depths already open is printed there, and then it stops at
      the end of that printing. */
  method ValidateTypeAt(sig: string, start: nat, arrays: nat, structs: nat) returns (ok: bool, pos: nat, ghost tree: Type)
    requires start <= |sig|
    ensures ok ==> start < pos <= |sig| && Fits(tree, arrays, structs) && sig[start..pos] == Print(tree)
    ensures !ok ==> forall t :: Fits(t, arrays, structs) ==> !(Print(t) <= sig[start..])
    decreases |sig| - start
  {
    pos := start;
    tree := Variant;
    if pos >= |sig| || arrays > MAX_SIGNATURE_DEPTH || structs > MAX_SIGNATURE_DEPTH {
      forall t | Fits(t, arrays, structs) ensures !(Print(t) <= sig[start..]) {
        PrintHead(t);
      }
      return false, pos, tree;
    }
    var c := sig[pos];
    pos := pos + 1;
    assert sig[start..] == [c] + sig[pos..];
    if c in "ybnqiuxtdhsogv" {
      tree := if c == 'v' then Variant else Basic(c);
      assert sig[start..pos] == [c];
      return true, pos, tree;
    }
    if c == 'a' {
      if pos < |sig| && sig[pos] == '{' {
        ok, pos, tree := ValidateDictEntry(sig, start, arrays, structs);
        return;
      }
      ok, pos, tree := ValidateTypeAt(sig, pos, arrays + 1, structs);
      if ok {
        tree := Array(tree);
        assert sig[start..pos] == [c] + sig[start + 1..pos];
      } else {
        ArrayStuck(sig[start..], arrays, structs);
      }
      return;
    }
    if c == '(' {
      ok, pos, tree := ValidateStruct(sig, start, arrays, structs);
      return;
    }
    forall t | Fits(t, arrays, structs) ensures !(Print(t) <= sig[start..]) {
      PrintHead(t);
      assert t.Basic? ==> Print(t)[0] == t.code;
    }
    return false, pos, tree;
  }

  lemma ArrayStuck(s: string, arrays: nat, structs: nat)
    requires |s| > 0 && s[0] == 'a' && !(|s| > 1 && s[1] == '{')
    requires forall t :: Fits(t, arrays + 1, structs) ==> !(Print(t) <= s[1..])
    ensures forall t :: Fits(t, arrays, structs) ==> !(Print(t) <= s)
  {
    forall t | Fits(t, arrays, structs) ensures !(Print(t) <= s) {
      if Print(t) <= s {
        PrintHead(t);
        assert Print(t)[0] == s[0];
        SecondChar(t, "");
        assert Print(t) + "" == Print(t);
        PrefixSplit(s, "a", Print(t.elem));
        assert Fits(t.elem, arrays + 1, structs);
      }
    }
  }

  /** The dict-entry arm of validateTypeAt: `a{`, a basic key, one value, `}`. */
  method ValidateDictEntry(sig: string, start: nat, arrays: nat, structs: nat) returns (ok: bool, pos: nat, ghost tree: Type)
    requires start + 1 < |sig| && sig[start] == 'a' && sig[start + 1] == '{'
    requires arrays <= MAX_SIGNATURE_DEPTH && structs <= MAX_SIGNATURE_DEPTH
    ensures ok ==> start < pos <= |sig| && Fits(tree, arrays, structs) && sig[start..pos] == Print(tree)
    ensures !ok ==> forall t :: Fits(t, arrays, structs) ==> !(Print(t) <= sig[start..])
    decreases |sig| - start, 0
  {
    pos := start + 2;
    tree := Variant;
    if pos >= |sig| || sig[pos] !in BASIC_CODES {
      forall t | Fits(t, arrays, structs) ensures !(Print(t) <= sig[start..]) {
        DictShape(sig[start..], t);
      }
      return false, pos, tree;
    }
    var key := sig[pos];
    pos := pos + 1;
    ghost var entry := sig[start..];
    assert entry[3..] == sig[pos..];
    ok, pos, tree := ValidateTypeAt(sig, pos, arrays + 1, structs + 1);
    if !ok {
      DictValueStuck(entry, arrays, structs);
      return;
    }
    assert entry[3..] == Print(tree) + sig[pos..];
    if pos >= |sig| || sig[pos] != '}' {
      DictUnclosed(entry, tree, sig[pos..], arrays, structs);
      return false, pos, tree;
    }
    DictDone(sig, start, pos, key, tree);
    return true, pos + 1, Dict(key, tree);
  }

  lemma DictDone(s: string, start: nat, pos: nat, key: char, v: Type)
    requires start + 3 <= pos < |s| && s[start] == 'a' && s[start + 1] == '{' && s[start + 2] == key && s[pos] == '}'
    requires s[start + 3..pos] == Print(v)
    ensures s[start..pos + 1] == Print(Dict(key, v))
  {
    assert s[start..pos + 1] == "a{" + [key] + s[start + 3..pos] + "}";
  }

  lemma DictValueStuck(s: string, arrays: nat, structs: nat)
    requires |s| > 2 && s[0] == 'a' && s[1] == '{'
    requires forall t :: Fits(t, arrays + 1, structs + 1) ==> !(Print(t) <= s[3..])
    ensures forall t :: Fits(t, arrays, structs) ==> !(Print(t) <= s)
  {
    forall t | Fits(t, arrays, structs) ensures !(Print(t) <= s) {
      DictShape(s, t);
    }
  }

  lemma DictUnclosed(s: string, v: Type, rest: string, arrays: nat, structs: nat)
    requires |s| > 2 && s[0] == 'a' && s[1] == '{' && WellFormed(v)
    requires s[3..] == Print(v) + rest && !("}" <= rest)
    ensures forall t :: Fits(t, arrays, structs) ==> !(Print(t) <= s)
  {
    forall t | Fits(t, arrays, structs) ensures !(Print(t) <= s) {
      DictShape(s, t);
      if Print(t) <= s {
        var n := |Print(t.value)|;
        assert s[3..] == Print(t.value) + s[3..][n..];
        UniquePrint(t.value, s[3..][n..], v, rest);
      }
    }
  }

  /** What a tree printed at the start of `a{...` must be. */
  lemma DictShape(s: string, t: Type)
    requires |s| > 1 && s[0] == 'a' && s[1] == '{' && WellFormed(t)
    ensures Print(t) <= s ==>
              && t.Dict? && |s| > 2 && s[2] == t.key && t.key in BASIC_CODES
              && Print(t.value) <= s[3..]
              && |s| > 3 + |Print(t.value)| && s[3 + |Print(t.value)|] == '}'
  {
    if Print(t) <= s {
      PrintHead(t);
      assert Print(t)[0] == s[0];
      SecondChar(t, "");
      assert Print(t) + "" == Print(t);
      var p := "a{" + [t.key];
      assert Print(t) == p + (Print(t.value) + "}");
      PrefixSplit(s, p, Print(t.value) + "}");
      PrefixSplit(s[3..], Print(t.value), "}");
      assert s[..3] == p;
    }
  }

  /** Whatever struct body agrees with the input starts with the members read so far. */
  ghost predicate Tracks(body: string, ts: seq<Type>, rest: string, arrays: nat, structs: nat) {
    forall us :: AllFit(us, arrays, structs) && PrintAll(us) + ")" <= body ==> Continues(us, ts, rest)
  }

  lemma TracksStep(body: string, ts: seq<Type>, t: Type, rest: string, arrays: nat, structs: nat)
    requires Tracks(body, ts, rest, arrays, structs)
    requires WellFormed(t) && Print(t) <= rest && rest[0] != ')'
    ensures Tracks(body, ts + [t], rest[|Print(t)|..], arrays, structs)
  {
    forall us | AllFit(us, arrays, structs) && PrintAll(us) + ")" <= body
      ensures Continues(us, ts + [t], rest[|Print(t)|..])
    {
      ContinuesStep(us, ts, t, rest);
    }
  }

  /** No member can be read, so no struct is printed here. */
  lemma StructStuck(s: string, ts: seq<Type>, rest: string, arrays: nat, structs: nat)
    requires |s| > 0 && s[0] == '(' && Tracks(s[1..], ts, rest, arrays, structs + 1)
    requires rest == "" || rest[0] != ')'
    requires forall t :: Fits(t, arrays, structs + 1) ==> !(Print(t) <= rest)
    ensures forall t :: Fits(t, arrays, structs) ==> !(Print(t) <= s)
  {
    forall t | Fits(t, arrays, structs) ensures !(Print(t) <= s) {
      StructShape(s, t);
      if Print(t) <= s {
        ContinuesStuck(t.members, ts, rest, arrays, structs + 1);
      }
    }
  }

  /** The body ended without a member, or without its closing bracket. */
  lemma StructUnfinished(s: string, ts: seq<Type>, rest: string, arrays: nat, structs: nat)
    requires |s| > 0 && s[0] == '(' && Tracks(s[1..], ts, rest, arrays, structs + 1)
    requires Stops(rest) && (ts == [] || rest == "")
    ensures forall t :: Fits(t, arrays, structs) ==> !(Print(t) <= s)
  {
    forall t | Fits(t, arrays, structs) ensures !(Print(t) <= s) {
      StructShape(s, t);
      if Print(t) <= s {
        ContinuesToEnd(t.members, ts, rest);
      }
    }
  }

  lemma ContinuesToEnd(us: seq<Type>, ts: seq<Type>, rest: string)
    requires AllWellFormed(us) && us != [] && Continues(us, ts, rest) && Stops(rest)
    ensures ts != [] && rest != ""
  {
    var vs := us[|ts|..];
    assert us == us[..|ts|] + vs;
    AllWellFormedAppend(us[..|ts|], vs);
    HeadContinues(vs, ")");
  }

  lemma Cut(s: string, i: nat, j: nat, k: nat)
    requires i <= j <= k <= |s|
    ensures s[i..k] == s[i..j] + s[j..k]
    ensures s[j..] == s[j..k] + s[k..]
    ensures s[j..][k - j..] == s[k..]
  {
  }

  lemma StructDone(s: string, start: nat, pos: nat, ts: seq<Type>, arrays: nat, structs: nat)
    requires start + 1 <= pos < |s| && s[start] == '(' && s[pos] == ')'
    requires ts != [] && AllFit(ts, arrays, structs + 1) && s[start + 1..pos] == PrintAll(ts)
    ensures Fits(Struct(ts), arrays, structs) && s[start..pos + 1] == Print(Struct(ts))
  {
    assert s[start..pos + 1] == "(" + s[start + 1..pos] + ")";
  }

  /** The struct arm of validateTypeAt: the loop over the members. */
  method ValidateStruct(sig: string, start: nat, arrays: nat, structs: nat) returns (ok: bool, pos: nat, ghost tree: Type)
    requires start < |sig| && sig[start] == '('
    requires arrays <= MAX_SIGNATURE_DEPTH && structs <= MAX_SIGNATURE_DEPTH
    ensures ok ==> start < pos <= |sig| && Fits(tree, arrays, structs) && sig[start..pos] == Print(tree)
    ensures !ok ==> forall t :: Fits(t, arrays, structs) ==> !(Print(t) <= sig[start..])
    decreases |sig| - start, 0
  {
    pos := start + 1;
    tree := Variant;
    var any := false;
    ghost var members: seq<Type> := [];
    ghost var s, body := sig[start..], sig[start + 1..];
    assert s[1..] == body;
    while pos < |sig| && sig[pos] != ')'
      invariant start < pos <= |sig|
      invariant any <==> members != []
      invariant any ==> AllFit(members, arrays, structs + 1)
      invariant sig[start + 1..pos] == PrintAll(members)
      invariant Tracks(body, members, sig[pos..], arrays, structs + 1)
      decreases |sig| - pos
    {
      ghost var before := pos;
      var good;
      ghost var member;
      good, pos, member := ValidateTypeAt(sig, pos, arrays, structs + 1);
      if !good {
        StructStuck(s, members, sig[before..], arrays, structs);
        return false, pos, tree;
      }
      Cut(sig, start + 1, before, pos);
      TracksStep(body, members, member, sig[before..], arrays, structs + 1);
      AllFitAppend(members, member, arrays, structs + 1);
      members := members + [member];
      any := true;
    }
    if !any || pos >= |sig| {
      StructUnfinished(s, members, sig[pos..], arrays, structs);
      return false, pos, tree;
    }
    StructDone(sig, start, pos, members, arrays, structs);
    return true, pos + 1, Struct(members);
  }

  /** What a tree printed at the start of `(...` must be. */
  lemma StructShape(s: string, t: Type)
    requires |s| > 0 && s[0] == '(' && WellFormed(t)
    ensures Print(t) <= s ==> t.Struct? && PrintAll(t.members) + ")" <= s[1..]
  {
    if Print(t) <= s {
      PrintHead(t);
      assert Print(t)[0] == s[0];
      assert Print(t) == "(" + (PrintAll(t.members) + ")");
      PrefixSplit(s, "(", PrintAll(t.members) + ")");
    }
  }

  // ------------------------------------------------------- the whole signature

  /** Encoded length of a character in UTF-8. */
  function Utf8Length(c: char): nat {
    var n := c as int;
    if n < 0x80 then 1 else if n < 0x800 then 2 else if n < 0x10000 then 3 else 4
  }

  function Utf8Size(s: string): nat {
    if s == "" then 0 else Utf8Length(s[0]) + Utf8Size(s[1..])
  }

  lemma {:induction false} Utf8AtLeastLength(s: string)
    ensures Utf8Size(s) >= |s|
    ensures (forall i :: 0 <= i < |s| ==> s[i] as int < 0x80) ==> Utf8Size(s) == |s|
  {
    if s != "" {
      Utf8AtLeastLength(s[1..]);
    }
  }

  lemma {:induction false} PrintIsAscii(t: Type)
    requires WellFormed(t)
    ensures forall i :: 0 <= i < |Print(t)| ==> Print(t)[i] as int < 0x80
    decreases t, 1
  {
    match t {
      case Basic(_) =>
      case Variant =>
      case Array(e) => PrintIsAscii(e);
      case Struct(ms) => PrintAllIsAscii(ms);
      case Dict(_, v) => PrintIsAscii(v);
    }
  }

  lemma {:induction false} PrintAllIsAscii(ts: seq<Type>)
    requires AllWellFormed(ts)
    ensures forall i :: 0 <= i < |PrintAll(ts)| ==> PrintAll(ts)[i] as int < 0x80
    decreases ts, 0
  {
    if ts != [] {
      PrintIsAscii(ts[0]);
      PrintAllIsAscii(ts[1..]);
    }
  }

  /** validateSignature: the length cap counts UTF-8 bytes, the grammar only has
      ASCII, and the two together accept exactly the valid signatures. */
  method ValidateSignature(sig: string, kind: Kind) returns (ok: bool)
    ensures ok <==> Valid(sig, kind)
  {
    Utf8AtLeastLength(sig);
    if Utf8Size(sig) > MAX_SIGNATURE_LENGTH {
      TooManyBytes(sig, kind);
      return false;
    }
    var pos := 0;
    if kind == Single {
      ghost var tree;
      ok, pos, tree := ValidateTypeAt(sig, 0, 0, 0);
      if ok { WholeSingle(sig, pos, tree); } else { assert sig[0..] == sig; }
      ok := ok && pos == |sig|;
      return;
    }
    ghost var trees: seq<Type> := [];
    while pos < |sig|
      invariant pos <= |sig|
      invariant AllFit(trees, 0, 0) && sig[..pos] == PrintAll(trees)
    {
      ghost var before := pos;
      var good;
      ghost var tree;
      good, pos, tree := ValidateTypeAt(sig, pos, 0, 0);
      if !good {
        MessageStuck(sig, before, trees);
        return false;
      }
      AllFitAppend(trees, tree, 0, 0);
      assert sig[..pos] == sig[..before] + sig[before..pos];
      trees := trees + [tree];
    }
    assert sig[..pos] == sig;
    return true;
  }

  lemma TooManyBytes(sig: string, kind: Kind)
    requires Utf8Size(sig) > MAX_SIGNATURE_LENGTH
    ensures !Valid(sig, kind)
  {
    Utf8AtLeastLength(sig);
    if kind == Single {
      forall t | Fits(t, 0, 0) && Print(t) == sig ensures |sig| > MAX_SIGNATURE_LENGTH { PrintIsAscii(t); }
    } else {
      forall ts | AllFit(ts, 0, 0) && PrintAll(ts) == sig ensures |sig| > MAX_SIGNATURE_LENGTH { PrintAllIsAscii(ts); }
    }
  }

  lemma WholeSingle(sig: string, pos: nat, tree: Type)
    requires pos <= |sig| && Fits(tree, 0, 0) && sig[0..pos] == Print(tree)
    ensures forall t :: Fits(t, 0, 0) && Print(t) == sig ==> pos == |sig|
  {
    forall t | Fits(t, 0, 0) && Print(t) == sig ensures pos == |sig| {
      assert Print(t) + "" == Print(tree) + sig[pos..];
      UniquePrint(t, "", tree, sig[pos..]);
    }
  }

  lemma LaterFits(trees: seq<Type>, ts: seq<Type>)
    requires trees <= ts && AllFit(ts, 0, 0)
    ensures AllFit(ts[|trees|..], 0, 0)
  {
    assert ts == trees + ts[|trees|..];
    AllWellFormedAppend(trees, ts[|trees|..]);
  }

  lemma MessageStuck(sig: string, pos: nat, trees: seq<Type>)
    requires pos < |sig| && AllFit(trees, 0, 0) && sig[..pos] == PrintAll(trees)
    requires forall t :: Fits(t, 0, 0) ==> !(Print(t) <= sig[pos..])
    ensures forall ts :: AllFit(ts, 0, 0) ==> PrintAll(ts) != sig
  {
    forall ts | AllFit(ts, 0, 0) ensures PrintAll(ts) != sig {
      if PrintAll(ts) == sig {
        assert sig == PrintAll(trees) + sig[pos..];
        CommonStart(trees, sig[pos..], ts);
        LaterFits(trees, ts);
        HeadContinues(ts[|trees|..], "");
      }
    }
  }

  /** A list that prints the same as `ts` followed by something starts with `ts`. */
  lemma {:induction false} CommonStart(ts: seq<Type>, r: string, us: seq<Type>)
    requires AllWellFormed(ts) && AllWellFormed(us) && PrintAll(us) == PrintAll(ts) + r
    ensures ts <= us && PrintAll(us[|ts|..]) == r
    decreases |ts|
  {
    if ts == [] {
      assert us[0..] == us && PrintAll(ts) + r == r;
    } else {
      HeadContinues(ts, r);
      HeadContinues(us, "");
      assert PrintAll(us) + "" == PrintAll(us);
      assert Stops("");
      UniquePrint(ts[0], PrintAll(ts[1..]) + r, us[0], PrintAll(us[1..]) + "");
      assert PrintAll(us[1..]) + "" == PrintAll(us[1..]);
      CommonStart(ts[1..], r, us[1..]);
      assert us[1..][|ts[1..]|..] == us[|ts|..];
      assert ts == [ts[0]] + ts[1..] && us == [us[0]] + us[1..];
    }
  }
}
