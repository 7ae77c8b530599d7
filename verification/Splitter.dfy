/** firstCompleteType and the loops that split a signature with it.

    Unlike the validator this walker does not parse structs and dict entries: it
    only counts one kind of bracket. It is proved to agree with the grammar on every
    valid signature, and to make progress or give up on every string. */
module Splitter {
  import opened Signature

  /** Characters up to and including the bracket that brings the depth `d` to zero;
      0 if none does. Other bracket kinds are not looked at. */
  function Closing(s: string, d: nat, open: char, close: char): (n: nat)
    requires d > 0
    ensures n <= |s|
    decreases |s|
  {
    if s == "" then 0
    else
      var d' := if s[0] == open then d + 1 else if s[0] == close then d - 1 else d;
      if d' == 0 then 1
      else
        var n := Closing(s[1..], d', open, close);
        if n == 0 then 0 else n + 1
  }

  /** Length of the type the splitter finds at the start of `s`; 0 for a failure. */
  function CompleteLength(s: string, depth: nat): (n: nat)
    ensures n <= |s|
    decreases |s|
  {
    if s == "" || depth > MAX_SIGNATURE_DEPTH then 0
    else if s[0] in "ybnqiuxtdhsogv" then 1
    else if s[0] == 'a' then
      var n := CompleteLength(s[1..], depth + 1);
      if n == 0 then 0 else n + 1
    else if s[0] == '(' then
      var n := Closing(s[1..], 1, '(', ')');
      if n == 0 then 0 else n + 1
    else if s[0] == '{' then
      var n := Closing(s[1..], 1, '{', '}');
      if n == 0 then 0 else n + 1
    else 0
  }

  /** The bracket-counting loop of the struct and dict-entry branches. */
  method SkipBrackets(sig: string, start: nat, open: char, close: char) returns (closed: bool, pos: nat)
    requires start <= |sig| && open != close
    ensures start <= pos <= |sig|
    ensures closed <==> Closing(sig[start..], 1, open, close) != 0
    ensures closed ==> pos == start + Closing(sig[start..], 1, open, close)
  {
    pos := start;
    var d := 1;
    while pos < |sig| && d > 0
      invariant start <= pos <= |sig|
      invariant d > 0 ==>
                  var whole, rest := Closing(sig[start..], 1, open, close), Closing(sig[pos..], d, open, close);
                  whole == if rest == 0 then 0 else pos - start + rest
      invariant d == 0 ==> pos > start && Closing(sig[start..], 1, open, close) == pos - start
      decreases |sig| - pos, d
    {
      assert sig[pos..][1..] == sig[pos + 1..];
      if sig[pos] == open {
        d := d + 1;
      } else if sig[pos] == close {
        d := d - 1;
      }
      pos := pos + 1;
    }
    closed := d == 0;
  }

  /** firstCompleteType: returns the type's text and moves the cursor past it, or
      returns the empty text. */
  method FirstCompleteType(sig: string, start: nat, depth: nat) returns (ty: string, pos: nat)
    requires start <= |sig|
    ensures start <= pos <= |sig|
    ensures ty == sig[start..][..CompleteLength(sig[start..], depth)]
    ensures ty != "" ==> pos == start + |ty|
    decreases |sig| - start
  {
    hide Closing;
    pos := start;
    if pos >= |sig| || depth > MAX_SIGNATURE_DEPTH {
      return "", pos;
    }
    var c := sig[pos];
    pos := pos + 1;
    assert sig[start..][1..] == sig[pos..];
    if c in "ybnqiuxtdhsogv" {
      return sig[start..pos], pos;
    }
    if c == 'a' {
      var elem;
      elem, pos := FirstCompleteType(sig, pos, depth + 1);
      if elem == "" {
        return "", pos;
      }
      return sig[start..pos], pos;
    }
    if c == '(' {
      var closed;
      closed, pos := SkipBrackets(sig, pos, '(', ')');
      return if closed then sig[start..pos] else "", pos;
    }
    if c == '{' {
      var closed;
      closed, pos := SkipBrackets(sig, pos, '{', '}');
      return if closed then sig[start..pos] else "", pos;
    }
    return "", pos;
  }

  /** The types a split loop collects: it stops at the end or at the first failure. */
  function Pieces(s: string): seq<string>
    decreases |s|
  {
    var n := CompleteLength(s, 0);
    if n == 0 then [] else [s[..n]] + Pieces(s[n..])
  }

  method SplitSignature(sig: string) returns (out: seq<string>)
    ensures out == Pieces(sig)
  {
    out := [];
    var pos := 0;
    while pos < |sig|
      invariant pos <= |sig|
      invariant out + Pieces(sig[pos..]) == Pieces(sig)
      decreases |sig| - pos
    {
      var ty, next := FirstCompleteType(sig, pos, 0);
      if ty == "" {
        return;
      }
      assert sig[pos..][|ty|..] == sig[next..];
      assert out + ([ty] + Pieces(sig[next..])) == (out + [ty]) + Pieces(sig[next..]);
      out := out + [ty];
      pos := next;
    }
  }

  // ------------------------------------------------------- agreement with the grammar

  function Concat(ss: seq<string>): string {
    if ss == [] then "" else ss[0] + Concat(ss[1..])
  }

  function Prints(ts: seq<Type>): seq<string> {
    if ts == [] then [] else [Print(ts[0])] + Prints(ts[1..])
  }

  predicate BracketPair(open: char, close: char) {
    (open == '(' && close == ')') || (open == '{' && close == '}')
  }

  /** Scanning `k` characters further from a scan that needs `n`. */
  function Plus(k: nat, n: nat): nat {
    if n == 0 then 0 else k + n
  }

  function DepthAfter(c: char, d: nat, open: char, close: char): nat
    requires d > 0
  {
    if c == open then d + 1 else if c == close then d - 1 else d
  }

  lemma ClosingHead(c: char, r: string, d: nat, open: char, close: char)
    requires d > 0
    ensures Closing([c] + r, d, open, close) ==
            var d' := DepthAfter(c, d, open, close);
            if d' == 0 then 1 else Plus(1, Closing(r, d', open, close))
  {
    assert ([c] + r)[1..] == r;
  }

  lemma DictText(k: char, v: Type, r: string)
    ensures Print(Dict(k, v)) + r == "a" + ("{" + ([k] + (Print(v) + ("}" + r))))
    ensures |Print(Dict(k, v))| == |Print(v)| + 4
  {
    assert "a" + ("{" + ([k] + (Print(v) + ("}" + r)))) == "a{" + [k] + Print(v) + "}" + r;
  }

  lemma StructText(ms: seq<Type>, r: string)
    ensures Print(Struct(ms)) + r == "(" + (PrintAll(ms) + (")" + r))
    ensures |Print(Struct(ms))| == |PrintAll(ms)| + 2
  {
    assert "(" + (PrintAll(ms) + (")" + r)) == "(" + PrintAll(ms) + ")" + r;
  }

  /** Counting one kind of bracket across a printed type changes nothing: types are
      balanced, and a dict entry's braces do not disturb the parentheses. */
  lemma {:induction false} ClosingPastType(t: Type, r: string, d: nat, open: char, close: char)
    requires WellFormed(t) && d > 0 && BracketPair(open, close)
    ensures Closing(Print(t) + r, d, open, close) == Plus(|Print(t)|, Closing(r, d, open, close))
    decreases t, 1
  {
    hide Closing;
    match t {
      case Basic(c) => ClosingHead(c, r, d, open, close);
      case Variant => ClosingHead('v', r, d, open, close);
      case Array(e) =>
        assert Print(t) + r == "a" + (Print(e) + r);
        ClosingHead('a', Print(e) + r, d, open, close);
        ClosingPastType(e, r, d, open, close);
      case Struct(ms) =>
        ClosingPastAll(ms, ")" + r, DepthAfter('(', d, open, close), open, close);
        ClosingPastStruct(ms, r, d, open, close);
      case Dict(k, v) =>
        ClosingPastType(v, "}" + r, DepthAfter('{', d, open, close), open, close);
        ClosingPastDict(k, v, r, d, open, close);
    }
  }

  lemma ClosingPastStruct(ms: seq<Type>, r: string, d: nat, open: char, close: char)
    requires d > 0 && BracketPair(open, close)
    requires var d' := DepthAfter('(', d, open, close);
             var tail := ")" + r;
             Closing(PrintAll(ms) + tail, d', open, close) == Plus(|PrintAll(ms)|, Closing(tail, d', open, close))
    ensures Closing(Print(Struct(ms)) + r, d, open, close) == Plus(|Print(Struct(ms))|, Closing(r, d, open, close))
  {
    hide Closing;
    StructText(ms, r);
    ClosingHead('(', PrintAll(ms) + (")" + r), d, open, close);
    ClosingHead(')', r, DepthAfter('(', d, open, close), open, close);
  }

  lemma ClosingPastDict(k: char, v: Type, r: string, d: nat, open: char, close: char)
    requires k in BASIC_CODES && d > 0 && BracketPair(open, close)
    requires var d' := DepthAfter('{', d, open, close);
             var tail := "}" + r;
             Closing(Print(v) + tail, d', open, close) == Plus(|Print(v)|, Closing(tail, d', open, close))
    ensures Closing(Print(Dict(k, v)) + r, d, open, close) == Plus(|Print(Dict(k, v))|, Closing(r, d, open, close))
  {
    DictText(k, v, r);
    ClosingPastOpening(k, Print(v) + ("}" + r), d, open, close);
    ClosingHead('}', r, DepthAfter('{', d, open, close), open, close);
  }

  lemma ClosingPastOpening(k: char, tail: string, d: nat, open: char, close: char)
    requires k in BASIC_CODES && d > 0 && BracketPair(open, close)
    ensures Closing("a" + ("{" + ([k] + tail)), d, open, close) == Plus(3, Closing(tail, DepthAfter('{', d, open,
        close), open, close))
  {
    ClosingHead('a', "{" + ([k] + tail), d, open, close);
    ClosingHead('{', [k] + tail, d, open, close);
    ClosingHead(k, tail, DepthAfter('{', d, open, close), open, close);
  }

  lemma {:induction false} ClosingPastAll(ts: seq<Type>, r: string, d: nat, open: char, close: char)
    requires AllWellFormed(ts) && d > 0 && BracketPair(open, close)
    ensures Closing(PrintAll(ts) + r, d, open, close) == Plus(|PrintAll(ts)|, Closing(r, d, open, close))
    decreases ts, 0
  {
    HeadContinues(ts, r);
    if ts != [] {
      ClosingPastType(ts[0], PrintAll(ts[1..]) + r, d, open, close);
      ClosingPastAll(ts[1..], r, d, open, close);
    }
  }

  /** On a printed type the splitter finds exactly that type, as long as the array
      nesting stays within its own depth cap. */
  lemma {:induction false} FindsPrintedType(t: Type, r: string, depth: nat)
    requires WellFormed(t) && depth + Arrays(t) <= MAX_SIGNATURE_DEPTH
    ensures CompleteLength(Print(t) + r, depth) == |Print(t)|
  {
    hide Closing;
    match t {
      case Basic(_) =>
      case Variant =>
      case Array(e) =>
        FindsPrintedType(e, r, depth + 1);
        FindsArray(e, r, depth);
      case Struct(ms) =>
        FindsStruct(ms, r, depth);
      case Dict(k, v) =>
        FindsDict(k, v, r, depth);
    }
  }

  lemma FindsArray(e: Type, r: string, depth: nat)
    requires WellFormed(e) && depth <= MAX_SIGNATURE_DEPTH
    requires CompleteLength(Print(e) + r, depth + 1) == |Print(e)|
    ensures CompleteLength(Print(Array(e)) + r, depth) == |Print(Array(e))|
  {
    hide Closing;
    PrintHead(e);
    Rest(Array(e), r);
  }

  lemma FindsStruct(ms: seq<Type>, r: string, depth: nat)
    requires AllWellFormed(ms) && depth <= MAX_SIGNATURE_DEPTH
    ensures CompleteLength(Print(Struct(ms)) + r, depth) == |Print(Struct(ms))|
  {
    hide Closing;
    StructText(ms, r);
    ClosingPastAll(ms, ")" + r, 1, '(', ')');
    ClosingHead(')', r, 1, '(', ')');
    assert ("(" + (PrintAll(ms) + (")" + r)))[1..] == PrintAll(ms) + (")" + r);
  }

  lemma FindsDict(k: char, v: Type, r: string, depth: nat)
    requires k in BASIC_CODES && WellFormed(v) && depth < MAX_SIGNATURE_DEPTH
    ensures CompleteLength(Print(Dict(k, v)) + r, depth) == |Print(Dict(k, v))|
  {
    hide Closing;
    DictText(k, v, r);
    FindsEntry(k, v, r, depth + 1);
    assert ("a" + ("{" + ([k] + (Print(v) + ("}" + r)))))[1..] == "{" + ([k] + (Print(v) + ("}" + r)));
  }

  lemma FindsEntry(k: char, v: Type, r: string, depth: nat)
    requires k in BASIC_CODES && WellFormed(v) && depth <= MAX_SIGNATURE_DEPTH
    ensures CompleteLength("{" + ([k] + (Print(v) + ("}" + r))), depth) == |Print(v)| + 3
  {
    hide Closing;
    var tail := [k] + (Print(v) + ("}" + r));
    assert ("{" + tail)[1..] == tail;
    ClosingHead(k, Print(v) + ("}" + r), 1, '{', '}');
    ClosingPastType(v, "}" + r, 1, '{', '}');
    ClosingHead('}', r, 1, '{', '}');
  }

  lemma {:induction false} PiecesOfMessage(ts: seq<Type>)
    requires AllFit(ts, 0, 0)
    ensures Pieces(PrintAll(ts)) == Prints(ts)
  {
    if ts != [] {
      FindsPrintedType(ts[0], PrintAll(ts[1..]), 0);
      PrintHead(ts[0]);
      assert PrintAll(ts)[|Print(ts[0])|..] == PrintAll(ts[1..]);
      PiecesOfMessage(ts[1..]);
    }
  }

  lemma {:induction false} ConcatPrints(ts: seq<Type>)
    ensures Concat(Prints(ts)) == PrintAll(ts) && |Prints(ts)| == |ts|
    ensures forall i :: 0 <= i < |ts| ==> Prints(ts)[i] == Print(ts[i])
  {
    if ts != [] {
      ConcatPrints(ts[1..]);
    }
  }

  lemma {:induction false} PieceIsValid(ts: seq<Type>, i: nat)
    requires AllFit(ts, 0, 0) && i < |ts| && |PrintAll(ts)| <= MAX_SIGNATURE_LENGTH
    ensures Valid(Print(ts[i]), Single)
  {
    if i == 0 {
      assert Fits(ts[0], 0, 0);
    } else {
      PieceIsValid(ts[1..], i - 1);
    }
  }

  /** On a valid message signature the split loop yields complete types: each is a
      valid single signature and together they are the input. */
  lemma SplitterAgreesWithValidator(sig: string)
    requires Valid(sig, Message)
    ensures Concat(Pieces(sig)) == sig
    ensures forall i :: 0 <= i < |Pieces(sig)| ==> Valid(Pieces(sig)[i], Single)
  {
    var ts :| AllFit(ts, 0, 0) && PrintAll(ts) == sig;
    PiecesOfMessage(ts);
    ConcatPrints(ts);
    forall i | 0 <= i < |ts| ensures Valid(Prints(ts)[i], Single) {
      PieceIsValid(ts, i);
    }
  }

  /** There is no other way to cut a string into valid single signatures. */
  lemma {:induction false} SplitIsUnique(a: seq<string>, b: seq<string>)
    requires forall i :: 0 <= i < |a| ==> Valid(a[i], Single)
    requires forall i :: 0 <= i < |b| ==> Valid(b[i], Single)
    requires Concat(a) == Concat(b)
    ensures a == b
  {
    if a != [] {
      var t :| Fits(t, 0, 0) && Print(t) == a[0];
      PrintHead(t);
      assert b != [];
      var u :| Fits(u, 0, 0) && Print(u) == b[0];
      UniquePrint(t, Concat(a[1..]), u, Concat(b[1..]));
      SplitIsUnique(a[1..], b[1..]);
    } else if b != [] {
      var u :| Fits(u, 0, 0) && Print(u) == b[0];
      PrintHead(u);
    }
  }

  /** Whatever the string, the loop only collects non-empty pieces, in order, from
      its start: it cannot spin, and it cannot skip input. */
  lemma {:induction false} PiecesMakeProgress(s: string)
    ensures Concat(Pieces(s)) <= s
    ensures forall i :: 0 <= i < |Pieces(s)| ==> Pieces(s)[i] != ""
    ensures Concat(Pieces(s)) != s ==> CompleteLength(s[|Concat(Pieces(s))|..], 0) == 0
    decreases |s|
  {
    hide CompleteLength;
    var n := CompleteLength(s, 0);
    if n > 0 {
      PiecesMakeProgress(s[n..]);
      assert s == s[..n] + s[n..];
      assert s[n..][|Concat(Pieces(s[n..]))|..] == s[|Concat(Pieces(s))|..];
    }
  }

  /** Valid pieces are the printings of a list of trees. */
  lemma {:induction false} TreesOfPieces(pieces: seq<string>) returns (ts: seq<Type>)
    requires forall i :: 0 <= i < |pieces| ==> Valid(pieces[i], Single)
    ensures AllFit(ts, 0, 0) && PrintAll(ts) == Concat(pieces)
  {
    if pieces == [] {
      return [];
    }
    var t :| Fits(t, 0, 0) && Print(t) == pieces[0];
    var rest := TreesOfPieces(pieces[1..]);
    ts := [t] + rest;
    assert ts[1..] == rest;
    hide Print;
  }

  /** Splitter and validator agree about a message signature exactly if it is short enough, the
      pieces cover it, and the validator accepts each of them. */
  lemma ValidExactlyByPieces(sig: string)
    ensures Valid(sig, Message) <==>
              && |sig| <= MAX_SIGNATURE_LENGTH && Concat(Pieces(sig)) == sig
              && forall i :: 0 <= i < |Pieces(sig)| ==> Valid(Pieces(sig)[i], Single)
  {
    if Valid(sig, Message) {
      SplitterAgreesWithValidator(sig);
    }
    if Concat(Pieces(sig)) == sig && forall i :: 0 <= i < |Pieces(sig)| ==> Valid(Pieces(sig)[i], Single) {
      var ts := TreesOfPieces(Pieces(sig));
    }
  }

  /** The validity of the pieces cannot be left out: the splitter accepts strings the validator
      refuses, which is why every split result is validated again before use. */
  lemma SplitterAcceptsMore()
    ensures Pieces("({)") == ["({)"]
    ensures !Valid("({)", Single)
  {
    var s := "({)";
    assert s[1..] == "{)" && s[1..][1..] == ")" && s[1..][1..][1..] == "";
    assert Closing(")", 1, '(', ')') == 1;
    assert Closing("{)", 1, '(', ')') == 2;
    assert CompleteLength(s, 0) == 3;
    assert s[..3] == s && s[3..] == "";
    forall t | Fits(t, 0, 0) ensures Print(t) != s {
      PrintHead(t);
      if Print(t)[0] == '(' {
        HeadContinues(t.members, ")");
        assert Print(t)[1..] == PrintAll(t.members) + ")";
        PrintHead(t.members[0]);
      }
    }
  }

  // ------------------------------------------------------------ what it finds on any text

  /** Opening less closing brackets of one kind. */
  function Level(s: string, open: char, close: char): int {
    if s == "" then 0 else (if s[0] == open then 1 else if s[0] == close then -1 else 0) + Level(s[1..], open, close)
  }

  /** `s` brings `d` open brackets to none, and at its end for the first time. */
  predicate Closes(s: string, d: nat, open: char, close: char) {
    s != "" && d + Level(s, open, close) == 0 && forall i :: 0 <= i < |s| ==> d + Level(s[..i], open, close) > 0
  }

  /** What the splitter takes for one type: at most 32 array letters before a basic code or a variant, or before a
      bracketed group of one kind, whatever else it holds. */
  predicate Chunk(s: string, depth: nat)
    decreases |s|
  {
    && s != "" && depth <= 32
    && if |s| == 1 then s[0] in "ybnqiuxtdhsogv"
       else if s[0] == 'a' then Chunk(s[1..], depth + 1)
       else (s[0] == '(' && Closes(s[1..], 1, '(', ')')) || (s[0] == '{' && Closes(s[1..], 1, '{', '}'))
  }

  lemma {:induction false} ClosingCloses(s: string, d: nat, open: char, close: char, m: nat)
    requires d > 0 && open != close && m <= |s|
    ensures var n := Closing(s, d, open, close); n > 0 ==> Closes(s[..n], d, open, close)
    ensures Closes(s[..m], d, open, close) ==> m == Closing(s, d, open, close)
  {
    if s != "" {
      var d' := DepthAfter(s[0], d, open, close);
      var n := Closing(s, d, open, close);
      if d' == 0 {
        OneCloses(s, d, open, close, m);
      } else {
        ClosingCloses(s[1..], d', open, close, if m > 0 then m - 1 else 0);
        if n > 0 { ClosesStep(s, d, open, close, n); }
        if m > 0 { ClosesStep(s, d, open, close, m); }
      }
    }
  }

  lemma OneCloses(s: string, d: nat, open: char, close: char, m: nat)
    requires d > 0 && open != close && s != "" && m <= |s| && DepthAfter(s[0], d, open, close) == 0
    ensures Closes(s[..1], d, open, close)
    ensures Closes(s[..m], d, open, close) ==> m == 1
  {
    assert s[..1][1..] == "" && s[..1][..0] == "";
    if m > 1 {
      assert s[..m][..1] == s[..1];
    }
  }

  lemma ClosesStep(s: string, d: nat, open: char, close: char, m: nat)
    requires d > 0 && open != close && 0 < m <= |s| && DepthAfter(s[0], d, open, close) > 0
    ensures Closes(s[..m], d, open, close) <==> Closes(s[1..][..m - 1], DepthAfter(s[0], d, open, close), open, close)
  {
    var t := s[..m];
    assert t[1..] == s[1..][..m - 1];
    forall i | 0 < i <= m ensures Level(t[..i], open, close) == Level([s[0]], open, close) + Level(t[1..][..i - 1], open, close) {
      assert t[..i][1..] == t[1..][..i - 1];
      assert [s[0]][1..] == "";
    }
    assert t[..m] == t && t[1..][..m - 1] == t[1..];
    if Closes(t, d, open, close) {
      forall i | 0 <= i < |t[1..]| ensures DepthAfter(s[0], d, open, close) + Level(t[1..][..i], open, close) > 0 {
        assert d + Level(t[..i + 1], open, close) > 0;
      }
    }
  }

  /** On every text, valid or not, the splitter finds the one chunk the text starts with, or nothing if it
      starts with none. */
  lemma {:induction false} FindsTheChunk(s: string, depth: nat, m: nat)
    requires m <= |s|
    ensures var n := CompleteLength(s, depth); n > 0 ==> Chunk(s[..n], depth)
    ensures Chunk(s[..m], depth) ==> m == CompleteLength(s, depth)
    decreases |s|
  {
    hide Closes, Closing;
    if s != "" {
      var n := CompleteLength(s, depth);
      assert m > 0 ==> s[..m][1..] == s[1..][..m - 1] && s[..m][0] == s[0];
      assert n > 0 ==> s[..n][1..] == s[1..][..n - 1] && s[..n][0] == s[0];
      if s[0] == 'a' {
        FindsTheChunk(s[1..], depth + 1, if m > 0 then m - 1 else 0);
      } else if s[0] == '(' {
        ClosingCloses(s[1..], 1, '(', ')', if m > 0 then m - 1 else 0);
      } else if s[0] == '{' {
        ClosingCloses(s[1..], 1, '{', '}', if m > 0 then m - 1 else 0);
      }
    }
  }
}
