/** Whether an XML document declares an internal DTD subset, seen from its prolog alone
    (Extensible Markup Language 1.0, section 2.8). */
module Prolog {
  import opened Options

  const BOM := '\U{FEFF}'

  predicate IsXmlSpace(c: char) {
    c == ' ' || c == '\t' || c == '\r' || c == '\n'
  }

  predicate At(s: string, k: int, pat: string) {
    0 <= k && k + |pat| <= |s| && s[k..k + |pat|] == pat
  }

  /** indexOf. */
  function IndexOf(s: string, pat: string, from: nat): (r: Option<nat>)
    ensures r.Some? ==> from <= r.value && At(s, r.value, pat) && forall k :: from <= k < r.value ==> !At(s, k, pat)
    ensures r.None? ==> forall k :: from <= k ==> !At(s, k, pat)
    decreases |s| - from
  {
    if from + |pat| > |s| then None
    else if At(s, from, pat) then Some(from)
    else IndexOf(s, pat, from + 1)
  }

  // ------------------------------------------------------------------- what is meant

  /** The quote that is open at the end of a text. */
  function OpenQuote(s: string): Option<char> {
    if s == "" then None
    else
      var before, c := OpenQuote(s[..|s| - 1]), s[|s| - 1];
      if before.Some? then (if c == before.value then None else before)
      else if c == '\'' || c == '"' then Some(c)
      else None
  }

  const DOCTYPE := "<!DOCTYPE"

  /** Position `k` of a document type declaration is an unquoted `[` or `>`. */
  predicate Ends(s: string, k: int) {
    9 <= k < |s| && (s[k] == '[' || s[k] == '>') && OpenQuote(s[9..k]) == None
  }

  predicate FirstEnd(s: string, k: int) {
    Ends(s, k) && forall j :: 9 <= j < k ==> !Ends(s, j)
  }

  /** A document type declaration whose first unquoted `[` comes before its first unquoted `>`. */
  ghost predicate OpensSubset(s: string) {
    DOCTYPE <= s && exists k :: FirstEnd(s, k) && s[k] == '['
  }

  /** A complete piece of prolog that says nothing about a subset: one space, a comment, a
      processing instruction, or a document type declaration without one. */
  predicate Piece(s: string) {
    || (|s| == 1 && s[0] in " \t\r\n")
    || ("<!--" <= s && |s| >= 7 && At(s, |s| - 3, "-->") && forall k :: 4 <= k < |s| - 3 ==> !At(s, k, "-->"))
    || ("<?" <= s && |s| >= 4 && At(s, |s| - 2, "?>") && forall k :: 2 <= k < |s| - 2 ==> !At(s, k, "?>"))
    || (DOCTYPE <= s && |s| > 9 && FirstEnd(s, |s| - 1) && s[|s| - 1] == '>')
  }

  function Join(pieces: seq<string>): string {
    if pieces == [] then "" else pieces[0] + Join(pieces[1..])
  }

  /** The document, past an optional byte order mark, is pieces and then a document type
      declaration that opens a subset. */
  ghost predicate HasSubset(xml: string) {
    exists pieces: seq<string>, rest: string ::
      AllPieces(pieces) && Body(xml) == Join(pieces) + rest && OpensSubset(rest)
  }

  predicate AllPieces(pieces: seq<string>) {
    forall i :: 0 <= i < |pieces| ==> Piece(pieces[i])
  }

  function Body(xml: string): string {
    if xml != "" && xml[0] == BOM then xml[1..] else xml
  }

  // ------------------------------------------------------------------- how it is found

  datatype Look = Skip(n: nat) | Subset | Stop

  /** The inner loop, from position `k` with quote `q` open. */
  function ScanDoctype(s: string, k: nat, q: Option<char>): (r: Look)
    requires k <= |s|
    ensures r.Skip? ==> k < r.n <= |s|
    decreases |s| - k
  {
    if k == |s| then Stop
    else
      var c := s[k];
      if q.Some? then ScanDoctype(s, k + 1, if c == q.value then None else q)
      else if c == '\'' || c == '"' then ScanDoctype(s, k + 1, Some(c))
      else if c == '[' then Subset
      else if c == '>' then Skip(k + 1)
      else ScanDoctype(s, k + 1, None)
  }

  /** What stands at the start of a text. */
  function LookAt(s: string): (r: Look)
    ensures r.Skip? ==> 0 < r.n <= |s|
  {
    if s == "" then Stop
    else if IsXmlSpace(s[0]) then Skip(1)
    else if "<!--" <= s then
      var end := IndexOf(s, "-->", 4);
      if end.None? then Stop else Skip(end.value + 3)
    else if "<?" <= s then
      var end := IndexOf(s, "?>", 2);
      if end.None? then Stop else Skip(end.value + 2)
    else if DOCTYPE <= s then ScanDoctype(s, 9, None)
    else Stop
  }

  predicate Declares(s: string)
    decreases |s|
  {
    match LookAt(s)
    case Skip(n) => Declares(s[n..])
    case Subset => true
    case Stop => false
  }

  // -------------------------------------------------------------------- the two agree

  lemma QuoteStep(s: string, k: nat)
    requires 9 <= k < |s|
    ensures OpenQuote(s[9..k + 1]) ==
            var q := OpenQuote(s[9..k]);
            if q.Some? then (if s[k] == q.value then None else q) else if s[k] == '\''
                || s[k] == '"' then Some(s[k]) else None
  {
    assert s[9..k + 1][..k - 9] == s[9..k] && s[9..k + 1][k - 9] == s[k];
  }

  /** The inner loop stops exactly at the first end, if there is one. */
  lemma {:induction false} ScanFindsEnd(s: string, k: nat)
    requires 9 <= k <= |s| && forall j :: 9 <= j < k ==> !Ends(s, j)
    ensures var r := ScanDoctype(s, k, OpenQuote(s[9..k]));
            match r
            case Skip(n) => FirstEnd(s, n - 1) && s[n - 1] == '>'
            case Subset => exists e :: FirstEnd(s, e) && s[e] == '['
            case Stop => forall j :: !Ends(s, j)
    decreases |s| - k
  {
    if k < |s| {
      QuoteStep(s, k);
      if Ends(s, k) {
        assert FirstEnd(s, k);
      } else {
        ScanFindsEnd(s, k + 1);
      }
    }
  }

  lemma OneFirstEnd(s: string, a: int, b: int)
    requires FirstEnd(s, a) && FirstEnd(s, b)
    ensures a == b
  {
  }

  /** Ends look only at what comes before them. */
  lemma EndsInFront(s: string, t: string, k: int)
    requires 9 <= k < |s|
    ensures Ends(s + t, k) <==> Ends(s, k)
  {
    assert (s + t)[9..k] == s[9..k];
  }

  lemma FirstEndInFront(s: string, t: string, k: int)
    requires 9 <= k < |s|
    ensures FirstEnd(s + t, k) <==> FirstEnd(s, k)
  {
    forall j | 9 <= j <= k ensures Ends(s + t, j) <==> Ends(s, j) {
      EndsInFront(s, t, j);
    }
  }

  lemma AtInFront(s: string, t: string, k: int, pat: string)
    requires k + |pat| <= |s|
    ensures At(s + t, k, pat) <==> At(s, k, pat)
  {
    if 0 <= k {
      assert (s + t)[k..k + |pat|] == s[k..k + |pat|];
    }
  }

  lemma PrefixInFront(s: string, t: string, p: string)
    requires |p| <= |s|
    ensures p <= s + t <==> p <= s
  {
    assert (s + t)[..|p|] == s[..|p|];
  }

  /** A first occurrence in front stays the first. */
  lemma IndexInFront(s: string, t: string, pat: string, from: nat, end: nat)
    requires from <= end && At(s, end, pat) && forall k :: from <= k < end ==> !At(s, k, pat)
    ensures IndexOf(s + t, pat, from) == Some(end)
  {
    forall k | from <= k <= end ensures At(s + t, k, pat) <==> At(s, k, pat) {
      AtInFront(s, t, k, pat);
    }
  }

  lemma Openings(s: string)
    ensures "<!--" <= s ==> !("<?" <= s) && !(DOCTYPE <= s) && !IsXmlSpace(s[0])
    ensures "<?" <= s ==> !(DOCTYPE <= s) && !IsXmlSpace(s[0])
    ensures DOCTYPE <= s ==> !IsXmlSpace(s[0])
  {
    assert "<!--"[2] == '-' && "<?"[1] == '?' && DOCTYPE[1] == '!' && DOCTYPE[2] == 'D' && DOCTYPE[0] == '<';
    assert "<!--" <= s ==> s[2] == '-' && s[1] == '!' && s[0] == '<';
    assert "<?" <= s ==> s[1] == '?' && s[0] == '<';
    assert DOCTYPE <= s ==> s[1] == '!' && s[2] == 'D' && s[0] == '<';
  }

  /** Whatever follows a piece, the scanner steps over exactly the piece. */
  lemma PieceIsSkipped(p: string, t: string)
    requires Piece(p)
    ensures LookAt(p + t) == Skip(|p|)
  {
    var s := p + t;
    assert s[0] == p[0];
    Openings(s);
    if |p| == 1 && IsXmlSpace(p[0]) {
    } else if "<!--" <= p {
      PrefixInFront(p, t, "<!--");
      Openings(p);
      IndexInFront(p, t, "-->", 4, |p| - 3);
    } else if "<?" <= p {
      PrefixInFront(p, t, "<?");
      Openings(p);
      IndexInFront(p, t, "?>", 2, |p| - 2);
    } else {
      PrefixInFront(p, t, DOCTYPE);
      FirstEndInFront(p, t, |p| - 1);
      DoctypeLook(s, |p| - 1);
    }
  }

  lemma DoctypeLook(s: string, e: int)
    requires DOCTYPE <= s && FirstEnd(s, e)
    ensures LookAt(s) == if s[e] == '[' then Subset else Skip(e + 1)
  {
    Openings(s);
    assert s[9..9] == "";
    ScanFindsEnd(s, 9);
    var r := ScanDoctype(s, 9, None);
    if r.Skip? {
      OneFirstEnd(s, r.n - 1, e);
    } else if r.Subset? {
      var k :| FirstEnd(s, k) && s[k] == '[';
      OneFirstEnd(s, k, e);
    }
  }

  /** What the scanner steps over is a piece, and what it stops at with a subset opens one. */
  lemma LookIsRight(s: string)
    ensures LookAt(s).Skip? ==> Piece(s[..LookAt(s).n])
    ensures LookAt(s).Subset? <==> OpensSubset(s)
  {
    Openings(s);
    var r := LookAt(s);
    if DOCTYPE <= s {
      assert s[9..9] == "";
      ScanFindsEnd(s, 9);
      if r.Skip? {
        var p := s[..r.n];
        assert p + s[r.n..] == s;
        FirstEndInFront(p, s[r.n..], r.n - 1);
        PrefixInFront(p, s[r.n..], DOCTYPE);
        forall k | FirstEnd(s, k) ensures s[k] != '[' {
          OneFirstEnd(s, k, r.n - 1);
        }
      }
    } else if r.Skip? && !IsXmlSpace(s[0]) {
      var p := s[..r.n];
      assert p + s[r.n..] == s;
      if "<!--" <= s {
        PrefixInFront(p, s[r.n..], "<!--");
        forall k | 4 <= k <= |p| - 3 ensures At(p, k, "-->") <==> At(s, k, "-->") { AtInFront(p, s[r.n..], k, "-->"); }
      } else {
        PrefixInFront(p, s[r.n..], "<?");
        forall k | 2 <= k <= |p| - 2 ensures At(p, k, "?>") <==> At(s, k, "?>") { AtInFront(p, s[r.n..], k, "?>"); }
      }
    }
  }

  lemma {:induction false} DeclaresAfterPieces(pieces: seq<string>, rest: string)
    requires AllPieces(pieces)
    ensures Declares(Join(pieces) + rest) <==> Declares(rest)
  {
    if pieces == [] {
      assert Join(pieces) + rest == rest;
    } else {
      var p, tail := pieces[0], Join(pieces[1..]) + rest;
      assert Join(pieces) + rest == p + tail;
      assert (p + tail)[|p|..] == tail;
      PieceIsSkipped(p, tail);
      DeclaresAfterPieces(pieces[1..], rest);
    }
  }

  lemma {:induction false} DeclaresMeans(s: string) returns (pieces: seq<string>, rest: string)
    requires Declares(s)
    ensures AllPieces(pieces) && s == Join(pieces) + rest && OpensSubset(rest)
    decreases |s|
  {
    hide Piece, LookAt, OpensSubset;
    LookIsRight(s);
    match LookAt(s)
    case Skip(n) =>
      var tail;
      tail, rest := DeclaresMeans(s[n..]);
      pieces := [s[..n]] + tail;
      assert pieces[1..] == tail && s == s[..n] + s[n..];
      assert s[..n] + (Join(tail) + rest) == (s[..n] + Join(tail)) + rest;
    case Subset =>
      pieces, rest := [], s;
      assert Join(pieces) + rest == s;
  }

  lemma ScannerFindsSubset(xml: string)
    ensures Declares(Body(xml)) <==> HasSubset(xml)
  {
    if Declares(Body(xml)) {
      var pieces, rest := DeclaresMeans(Body(xml));
    }
    if HasSubset(xml) {
      var pieces: seq<string>, rest: string :| AllPieces(pieces) && Body(xml) == Join(pieces) + rest && OpensSubset(rest);
      DeclaresAfterPieces(pieces, rest);
      LookIsRight(rest);
    }
  }

  /** Comments, processing instructions and space in front of a document without a byte order
      mark never change the answer. */
  lemma PrefixChangesNothing(pieces: seq<string>, xml: string)
    requires AllPieces(pieces) && (xml == "" || xml[0] != BOM)
    ensures HasSubset(Join(pieces) + xml) <==> HasSubset(xml)
  {
    ScannerFindsSubset(xml);
    ScannerFindsSubset(Join(pieces) + xml);
    DeclaresAfterPieces(pieces, xml);
    if pieces != [] {
      assert (Join(pieces) + xml)[0] == pieces[0][0];
      assert "<!--"[0] == '<' && "<?"[0] == '<' && DOCTYPE[0] == '<';
    } else {
      assert Join(pieces) + xml == xml;
    }
  }

  // ------------------------------------------------------------------------ the scanner

  lemma SameIndex(xml: string, pos: nat, pat: string, from: nat)
    requires pos + from <= |xml|
    ensures var a, b := IndexOf(xml, pat, pos + from), IndexOf(xml[pos..], pat, from);
            a.Some? == b.Some? && (a.Some? ==> a.value == b.value + pos)
  {
    var s := xml[pos..];
    forall k: int | 0 <= k ensures At(s, k, pat) <==> At(xml, k + pos, pat) {
      if k + |pat| <= |s| {
        assert s[k..k + |pat|] == xml[k + pos..k + pos + |pat|];
      }
    }
    var a, b := IndexOf(xml, pat, pos + from), IndexOf(s, pat, from);
    assert b.Some? ==> At(xml, b.value + pos, pat);
    assert a.Some? ==> At(s, a.value - pos, pat);
  }

  /** What stands at position `pos`, in the terms the cursor uses. */
  lemma LookHere(xml: string, pos: nat)
    requires pos < |xml|
    ensures var s := xml[pos..];
            var comment, instruction := IndexOf(xml, "-->", pos + 4), IndexOf(xml, "?>", pos + 2);
            LookAt(s) == if IsXmlSpace(xml[pos]) then Skip(1)
                         else if "<!--" <= s then (if comment.None? then Stop else Skip(comment.value + 3 - pos))
                         else if "<?" <= s then (if instruction.None? then Stop else Skip(instruction.value + 2 - pos))
                         else if DOCTYPE <= s then ScanDoctype(s, 9, None)
                         else Stop
  {
    hide IndexOf, ScanDoctype, At;
    var s := xml[pos..];
    if "<!--" <= s {
      SameIndex(xml, pos, "-->", 4);
    } else if "<?" <= s {
      SameIndex(xml, pos, "?>", 2);
    }
  }

  lemma MoveOn(xml: string, pos: nat)
    requires pos < |xml|
    ensures match LookAt(xml[pos..])
            case Skip(n) => Declares(xml[pos..]) <==> Declares(xml[pos + n..])
            case Subset => Declares(xml[pos..])
            case Stop => !Declares(xml[pos..])
  {
    var r := LookAt(xml[pos..]);
    if r.Skip? {
      assert xml[pos..][r.n..] == xml[pos + r.n..];
    }
  }

  // ------------------------------------------------------------------------ the scanner

  /** The quote-aware loop behind `<!DOCTYPE`. */
  method SkipDoctype(xml: string, start: nat) returns (look: Look)
    requires start + 9 <= |xml|
    ensures look == ScanDoctype(xml[start..], 9, None)
  {
    ghost var s := xml[start..];
    var pos := start + 9;
    var quote: Option<char> := None;
    while pos < |xml|
      invariant start + 9 <= pos <= |xml|
      invariant ScanDoctype(s, 9, None) == ScanDoctype(s, pos - start, quote)
    {
      var c := xml[pos];
      assert c == s[pos - start];
      pos := pos + 1;
      if quote.Some? {
        if c == quote.value {
          quote := None;
        }
      } else if c == '\'' || c == '"' {
        quote := Some(c);
      } else if c == '[' {
        return Subset;
      } else if c == '>' {
        return Skip(pos - start);
      }
    }
    return Stop;
  }

  /** One turn of the outer loop: how far the cursor moves, or that it is over. */
  method LookAtCursor(xml: string, pos: nat) returns (look: Look)
    requires pos < |xml|
    ensures look == LookAt(xml[pos..])
  {
    LookHere(xml, pos);
    hide LookAt, IndexOf, ScanDoctype;
    if IsXmlSpace(xml[pos]) {
      return Skip(1);
    } else if "<!--" <= xml[pos..] {
      var end := IndexOf(xml, "-->", pos + 4);
      return if end.None? then Stop else Skip(end.value + 3 - pos);
    } else if "<?" <= xml[pos..] {
      var end := IndexOf(xml, "?>", pos + 2);
      return if end.None? then Stop else Skip(end.value + 2 - pos);
    } else if DOCTYPE <= xml[pos..] {
      look := SkipDoctype(xml, pos);
    } else {
      return Stop;
    }
  }

  /** declaresInternalSubset. The cursor only moves forward. */
  method DeclaresInternalSubset(xml: string) returns (found: bool)
    ensures found <==> HasSubset(xml)
  {
    hide *;
    var pos := if xml != "" && xml[0] == BOM then 1 else 0;
    ScannerFindsSubset(xml);
    BodyFrom(xml, pos);
    while pos < |xml|
      invariant 0 <= pos <= |xml|
      invariant Declares(Body(xml)) <==> Declares(xml[pos..])
      decreases |xml| - pos
    {
      var look := LookAtCursor(xml, pos);
      MoveOn(xml, pos);
      match look
      case Skip(n) => pos := pos + n;
      case Subset => return true;
      case Stop => return false;
    }
    NothingAtTheEnd(xml);
    return false;
  }

  lemma BodyFrom(xml: string, pos: nat)
    requires pos == if xml != "" && xml[0] == BOM then 1 else 0
    ensures xml[pos..] == Body(xml)
  {
  }

  lemma NothingAtTheEnd(xml: string)
    ensures !Declares(xml[|xml|..])
  {
  }
}
