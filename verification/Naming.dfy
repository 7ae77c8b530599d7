/** The naming ladder between QML member names and wire names. */
module Naming {
  import opened Options

  /** Unicode case mapping as far as the folds use it: one code unit up or down, a string down
      (where one unit may become several), and the upper-case test. */
  datatype Casing = Casing(upper: char -> char, lower: char -> char, full: char -> string, isUpper: char -> bool)

  /** What the Unicode tables guarantee: lower case stays lower case, and what is still upper case
      after lowering was not changed by it. The last law ties the two ways of lowering together: if
      lowering the upper case of a character as part of a text gives a text that starts with that
      character, then lowering it alone gives the character back, or there was nothing to raise. The
      tables agree on this because the two mappings differ only where the text form has several
      characters. */
  ghost predicate Lawful(u: Casing) {
    && (forall c: char :: u.lower(u.lower(c)) == u.lower(c))
    && (forall c: char :: u.isUpper(u.lower(c)) ==> u.lower(c) == c)
    && (forall c: char :: u.full(c) != "")
    && (forall c: char, i: nat :: i < |u.full(c)| ==>
          var x := u.full(c)[i];
          u.lower(x) == x && u.full(x) == [x] && (u.isUpper(x) ==> u.full(c) == [c]))
    && (forall c: char :: u.full(u.upper(c))[0] == c ==> Returns(u, c))
  }

  /** Raising and lowering a character gives it back, or there was nothing to raise. */
  predicate Returns(u: Casing, c: char) {
    u.upper(c) == c || u.lower(u.upper(c)) == c
  }

  function LowerAll(u: Casing, s: string): string {
    if s == "" then "" else LowerAll(u, s[..|s| - 1]) + u.full(s[|s| - 1])
  }

  /** How many upper-case units a name starts with. */
  function UpperRun(u: Casing, s: string): (n: nat)
    ensures n <= |s|
    ensures forall i :: 0 <= i < n ==> u.isUpper(s[i])
    ensures n < |s| ==> !u.isUpper(s[n])
  {
    if s == "" || !u.isUpper(s[0]) then 0 else 1 + UpperRun(u, s[1..])
  }

  /** dbusFoldName. */
  function Fold(u: Casing, name: string, collapseRuns: bool): string {
    if name == "" then name
    else if !collapseRuns || UpperRun(u, name) <= 1 then [u.lower(name[0])] + name[1..]
    else
      var upper := if UpperRun(u, name) < |name| then UpperRun(u, name) - 1 else UpperRun(u, name);
      LowerAll(u, name[..upper]) + name[upper..]
  }

  method FoldName(u: Casing, name: string, collapseRuns: bool) returns (folded: string)
    ensures folded == Fold(u, name, collapseRuns)
  {
    if name == "" {
      return name;
    }
    if !collapseRuns {
      return [u.lower(name[0])] + name[1..];
    }
    var upper := 0;
    while upper < |name| && u.isUpper(name[upper])
      invariant 0 <= upper <= |name|
      invariant UpperRun(u, name) == upper + UpperRun(u, name[upper..])
    {
      assert name[upper..][1..] == name[upper + 1..];
      upper := upper + 1;
    }
    if upper <= 1 {
      return [u.lower(name[0])] + name[1..];
    }
    if upper < |name| {
      upper := upper - 1;
    }
    return LowerAll(u, name[..upper]) + name[upper..];
  }

  // -------------------------------------------------------------------- idempotence

  lemma {:induction false} LowerAllAppend(u: Casing, a: string, b: string)
    ensures LowerAll(u, a + b) == LowerAll(u, a) + LowerAll(u, b)
  {
    if b == "" {
      assert a + b == a;
    } else {
      var n := |b| - 1;
      assert (a + b)[..|a| + n] == a + b[..n];
      LowerAllAppend(u, a, b[..n]);
    }
  }

  /** Characters that lowering leaves alone. */
  lemma {:induction false} LowerAllFixed(u: Casing, s: string)
    requires forall i :: 0 <= i < |s| ==> u.full(s[i]) == [s[i]]
    ensures LowerAll(u, s) == s
  {
    if s != "" {
      LowerAllFixed(u, s[..|s| - 1]);
    }
  }

  lemma RunIs(u: Casing, s: string, n: nat)
    requires n < |s| && !u.isUpper(s[n]) && forall i :: 0 <= i < n ==> u.isUpper(s[i])
    ensures UpperRun(u, s) == n
  {
  }

  /** The first character of a prefix that lowering changes. */
  function FirstChanged(u: Casing, s: string): (n: nat)
    ensures n <= |s|
    ensures forall i :: 0 <= i < n ==> u.full(s[i]) == [s[i]]
    ensures n < |s| ==> u.full(s[n]) != [s[n]]
  {
    if s == "" || u.full(s[0]) != [s[0]] then 0 else 1 + FirstChanged(u, s[1..])
  }

  lemma {:induction false} LowerAllNotEmpty(u: Casing, s: string)
    requires Lawful(u) && s != ""
    ensures |LowerAll(u, s)| >= 1 && LowerAll(u, s)[0] == u.full(s[0])[0]
  {
    if |s| > 1 {
      LowerAllNotEmpty(u, s[..|s| - 1]);
    }
  }

  /** Lowering a text leaves its unchanged beginning alone and starts the rest with the lowered
      form of its first changed character. */
  lemma LoweredParts(u: Casing, head: string, n: nat)
    requires Lawful(u) && n < |head| && forall i :: 0 <= i < n ==> u.full(head[i]) == [head[i]]
    ensures |LowerAll(u, head)| > n && LowerAll(u, head)[..n] == head[..n] && LowerAll(u, head)[n] == u.full(head[n])[0]
  {
    hide *;
    var fixed, tail := head[..n], head[n..];
    LowerAllFixed(u, fixed);
    LowerAllAppend(u, fixed, tail);
    assert fixed + tail == head;
    LowerAllNotEmpty(u, tail);
  }

  /** Folding again a text that starts with `n` unchanging upper-case characters and then one that
      lowering has already produced. */
  lemma FoldStops(u: Casing, once: string, n: nat)
    requires n < |once| && !u.isUpper(once[n])
    requires forall i :: 0 <= i < n ==> u.isUpper(once[i]) && u.full(once[i]) == [once[i]] && u.lower(once[i]) == once[i]
    requires u.lower(once[n]) == once[n]
    ensures Fold(u, once, true) == once
  {
    RunIs(u, once, n);
    if n > 1 {
      LowerAllFixed(u, once[..n - 1]);
    }
    hide LowerAll, UpperRun;
    if n <= 1 {
      assert [once[0]] + once[1..] == once;
    } else {
      assert once[..n - 1] + once[n - 1..] == once;
    }
  }

  /** Lowering a run twice: what it left upper case it did not change. */
  lemma FoldRunTwice(u: Casing, name: string, upper: nat)
    requires Lawful(u) && 1 <= upper <= |name| && (forall i :: 0 <= i < upper ==> u.isUpper(name[i]))
    ensures var once := LowerAll(u, name[..upper]) + name[upper..];
            once == name || Fold(u, once, true) == once
  {
    var head, rest := name[..upper], name[upper..];
    var n := FirstChanged(u, head);
    var once := LowerAll(u, head) + rest;
    if n == upper {
      LowerAllFixed(u, head);
      assert once == name;
    } else {
      LoweredParts(u, head, n);
      hide LowerAll, Fold, UpperRun, FirstChanged;
      assert once[n] == u.full(head[n])[0] && once[..n] == head[..n];
      forall i | 0 <= i < n ensures u.isUpper(once[i]) && u.full(once[i]) == [once[i]] && u.lower(once[i]) == once[i] {
        assert once[i] == once[..n][i] == head[i] == name[i];
        assert u.full(once[i])[0] == once[i];
      }
      FoldStops(u, once, n);
    }
  }

  /** Both folds are idempotent. */
  lemma FoldIsIdempotent(u: Casing, name: string, collapseRuns: bool)
    requires Lawful(u)
    ensures Fold(u, Fold(u, name, collapseRuns), collapseRuns) == Fold(u, name, collapseRuns)
  {
    if name != "" {
      if !collapseRuns || UpperRun(u, name) <= 1 {
        var once := [u.lower(name[0])] + name[1..];
        assert once[1..] == name[1..];
        if collapseRuns && u.isUpper(once[0]) {
          assert once == name;
        } else if collapseRuns {
          RunIs(u, once, 0);
        }
      } else {
        FoldRunTwice(u, name, if UpperRun(u, name) < |name| then UpperRun(u, name) - 1 else UpperRun(u, name));
      }
    }
  }

  /** Lowering a text lowers each of its characters, where the text form of each is a single one. */
  lemma {:induction false} LowerAllEach(u: Casing, s: string, i: nat)
    requires i < |s| && forall j :: 0 <= j < |s| ==> u.full(s[j]) == [u.lower(s[j])]
    ensures |LowerAll(u, s)| == |s| && LowerAll(u, s)[i] == u.lower(s[i])
  {
    if |s| > 1 {
      LowerAllEach(u, s[..|s| - 1], if i < |s| - 1 then i else 0);
    }
  }

  /** What the fold does to a name, by the way it starts. Without collapsing runs, or if at most its first
      character is upper case, that character is lowered. A name in upper case throughout is lowered
      throughout. A run of upper case before anything else is lowered up to its last character, which
      starts the next word. */
  lemma FoldCases(u: Casing, head: string, c: char, rest: string)
    ensures Fold(u, [c] + rest, false) == [u.lower(c)] + rest
    ensures !u.isUpper(c) || rest == "" || !u.isUpper(rest[0]) ==> Fold(u, [c] + rest, true) == [u.lower(c)] + rest
    ensures |head| > 1 && (forall i :: 0 <= i < |head| ==> u.isUpper(head[i])) ==> Fold(u, head, true) == LowerAll(u, head)
    ensures head != "" && (forall i :: 0 <= i < |head| ==> u.isUpper(head[i])) && u.isUpper(c) && rest != "" && !u.isUpper(rest[0])
        ==> Fold(u, head + ([c] + rest), true) == LowerAll(u, head) + ([c] + rest)
  {
    var word := [c] + rest;
    assert word[1..] == rest;
    if u.isUpper(c) && (rest == "" || !u.isUpper(rest[0])) {
      RunOf(u, word, 1);
    }
    if forall i :: 0 <= i < |head| ==> u.isUpper(head[i]) {
      RunOf(u, head, |head|);
      assert head[..|head|] == head && head[|head|..] == "";
      assert LowerAll(u, head) + "" == LowerAll(u, head);
      if u.isUpper(c) && rest != "" && !u.isUpper(rest[0]) {
        var name := head + word;
        assert name[|head|] == c && name[|head| + 1] == rest[0];
        RunOf(u, name, |head| + 1);
        assert name[..|head|] == head && name[|head|..] == word;
      }
    }
  }

  lemma RunOf(u: Casing, s: string, n: nat)
    requires n <= |s| && (forall i :: 0 <= i < n ==> u.isUpper(s[i])) && (n < |s| ==> !u.isUpper(s[n]))
    ensures UpperRun(u, s) == n
  {
  }

  // ---------------------------------------------------------------------- the ladder

  /** What an adaptor declares: the alias map (wire name to QML name, in key order), the declared
      signals' names, and the catalog's names, methods first. */
  datatype Names = Names(members: seq<(string, string)>, signalNames: seq<string>, catalog: seq<string>)

  /** Map keys are unique. */
  predicate IsMap(entries: seq<(string, string)>) {
    forall i, j :: 0 <= i < j < |entries| ==> entries[i].0 != entries[j].0
  }

  function KeyOf(entries: seq<(string, string)>, value: string): (r: Option<string>)
    ensures r.Some? ==> (r.value, value) in entries
    ensures r.None? ==> forall e :: e in entries ==> e.1 != value
  {
    if entries == [] then None
    else if entries[0].1 == value then Some(entries[0].0)
    else KeyOf(entries[1..], value)
  }

  function ValueOf(entries: seq<(string, string)>, key: string): (r: Option<string>)
    ensures r.Some? ==> (key, r.value) in entries
    ensures r.None? ==> forall e :: e in entries ==> e.0 != key
  {
    if entries == [] then None
    else if entries[0].0 == key then Some(entries[0].1)
    else ValueOf(entries[1..], key)
  }

  /** A name that folds to the QML name or, where that counts, is it. */
  predicate Matches(u: Casing, n: string, qmlName: string, exact: bool) {
    (exact && n == qmlName) || Fold(u, n, false) == qmlName
  }

  /** The first such name. */
  function FirstNamed(u: Casing, names: seq<string>, qmlName: string, exact: bool): (r: Option<string>)
    ensures r.Some? ==> Matches(u, r.value, qmlName, exact)
  {
    if names == [] then None
    else if Matches(u, names[0], qmlName, exact) then Some(names[0])
    else FirstNamed(u, names[1..], qmlName, exact)
  }

  /** The rungs above inference. */
  function Declared(u: Casing, names: Names, qmlName: string): Option<string> {
    var alias := KeyOf(names.members, qmlName);
    var declaredSignal := FirstNamed(u, names.signalNames, qmlName, true);
    if alias.Some? then alias
    else if declaredSignal.Some? then declaredSignal
    else FirstNamed(u, names.catalog, qmlName, false)
  }

  function Raise(u: Casing, name: string): string {
    if name == "" then name else [u.upper(name[0])] + name[1..]
  }

  function AdvertisedName(u: Casing, names: Names, qmlName: string): string {
    var declared := Declared(u, names, qmlName);
    if declared.Some? then declared.value else Raise(u, qmlName)
  }

  function CandidateQmlNames(u: Casing, names: Names, wireName: string): seq<string> {
    var aliased := ValueOf(names.members, wireName);
    var c1 := (if aliased.Some? && aliased.value != "" then [aliased.value] else []) + [wireName];
    var folded := Fold(u, wireName, false);
    var c2 := if folded != "" && folded != wireName then c1 + [folded] else c1;
    var runsFolded := Fold(u, wireName, true);
    if runsFolded != "" && runsFolded != wireName && runsFolded !in c2 then c2 + [runsFolded] else c2
  }

  lemma {:induction false} FirstAlias(entries: seq<(string, string)>, q: string, i: nat)
    requires i < |entries| && entries[i].1 == q && forall j :: 0 <= j < i ==> entries[j].1 != q
    ensures KeyOf(entries, q) == Some(entries[i].0)
  {
    if i > 0 {
      FirstAlias(entries[1..], q, i - 1);
    }
  }

  lemma {:induction false} FirstName(u: Casing, names: seq<string>, q: string, exact: bool, i: nat)
    requires i < |names| && Matches(u, names[i], q, exact) && forall j :: 0 <= j < i ==> !Matches(u, names[j], q, exact)
    ensures FirstNamed(u, names, q, exact) == Some(names[i])
  {
    hide Matches;
    if i > 0 {
      FirstName(u, names[1..], q, exact, i - 1);
    }
  }

  lemma {:induction false} NoName(u: Casing, names: seq<string>, q: string, exact: bool)
    requires forall n :: n in names ==> !Matches(u, n, q, exact)
    ensures FirstNamed(u, names, q, exact) == None
  {
    hide Matches;
    if names != [] {
      NoName(u, names[1..], q, exact);
    }
  }

  predicate NoAliasFor(names: Names, q: string) {
    forall e :: e in names.members ==> e.1 != q
  }

  predicate NoSignalFor(u: Casing, names: Names, q: string) {
    forall n :: n in names.signalNames ==> !Matches(u, n, q, true)
  }

  /** The order of the rungs: the first alias of a QML name; */
  lemma AliasComesFirst(u: Casing, names: Names, q: string, i: nat)
    requires i < |names.members| && names.members[i].1 == q && forall j :: 0 <= j < i ==> names.members[j].1 != q
    ensures AdvertisedName(u, names, q) == names.members[i].0
  {
    FirstAlias(names.members, q, i);
  }

  /** without one, the first declared signal that is the name or folds to it; */
  lemma SignalComesNext(u: Casing, names: Names, q: string, i: nat)
    requires NoAliasFor(names, q) && i < |names.signalNames| && Matches(u, names.signalNames[i], q, true)
    requires forall j :: 0 <= j < i ==> !Matches(u, names.signalNames[j], q, true)
    ensures AdvertisedName(u, names, q) == names.signalNames[i]
  {
    FirstName(u, names.signalNames, q, true, i);
  }

  /** without either, the first catalog name that folds to it; */
  lemma CatalogComesNext(u: Casing, names: Names, q: string, i: nat)
    requires NoAliasFor(names, q) && NoSignalFor(u, names, q)
    requires i < |names.catalog| && Matches(u, names.catalog[i], q, false)
    requires forall j :: 0 <= j < i ==> !Matches(u, names.catalog[j], q, false)
    ensures AdvertisedName(u, names, q) == names.catalog[i]
  {
    NoName(u, names.signalNames, q, true);
    FirstName(u, names.catalog, q, false, i);
  }

  /** without any, the name itself with its first character raised. */
  lemma InferenceComesLast(u: Casing, names: Names, c: char, rest: string)
    requires var q := [c] + rest;
             && NoAliasFor(names, q) && NoSignalFor(u, names, q)
             && forall n :: n in names.catalog ==> !Matches(u, n, q, false)
    ensures AdvertisedName(u, names, [c] + rest) == [u.upper(c)] + rest
  {
    var q := [c] + rest;
    NoName(u, names.signalNames, q, true);
    NoName(u, names.catalog, q, false);
    hide Matches;
    assert q[1..] == rest;
  }

  /** Dispatch tries the alias first, then the name itself, then its folds, the plain one first. */
  lemma CandidatesInOrder(u: Casing, names: Names, wireName: string)
    ensures var cs, alias := CandidateQmlNames(u, names, wireName), ValueOf(names.members, wireName);
            var n := if alias.Some? && alias.value != "" then 1 else 0;
            && n < |cs| <= n + 3 && cs[n] == wireName && (n == 1 ==> cs[0] == alias.value)
            && (|cs| == n + 3 ==> cs[n + 1] == Fold(u, wireName, false) && cs[n + 2] == Fold(u, wireName, true))
  {
    hide Fold, ValueOf;
  }

  /** What dispatch accepts for a wire name. */
  lemma CandidatesAre(u: Casing, names: Names, wireName: string, q: string)
    ensures q in CandidateQmlNames(u, names, wireName) <==>
              || (q != "" && ValueOf(names.members, wireName) == Some(q))
              || q == wireName
              || (q != "" && q == Fold(u, wireName, false))
              || (q != "" && q == Fold(u, wireName, true))
  {
    hide Fold, ValueOf;
    var aliased, folded := ValueOf(names.members, wireName), Fold(u, wireName, false);
    var c1 := (if aliased.Some? && aliased.value != "" then [aliased.value] else []) + [wireName];
    assert q in c1 <==> q == wireName || (q != "" && aliased == Some(q));
    var c2 := if folded != "" && folded != wireName then c1 + [folded] else c1;
    assert q in c2 <==> q in c1 || (q != "" && q == folded);
  }

  lemma AliasIsFound(entries: seq<(string, string)>, q: string)
    requires IsMap(entries) && KeyOf(entries, q).Some?
    ensures ValueOf(entries, KeyOf(entries, q).value) == Some(q)
  {
    var k := KeyOf(entries, q).value;
    assert (k, q) in entries;
    var i :| 0 <= i < |entries| && entries[i] == (k, q);
    var v := ValueOf(entries, k).value;
    var j :| 0 <= j < |entries| && entries[j] == (k, v);
    assert i == j;
  }

  lemma NoAlias(entries: seq<(string, string)>, w: string, q: string)
    requires KeyOf(entries, q).None?
    ensures ValueOf(entries, w) != Some(q)
  {
  }

  /** The run fold of a raised name can only give the name back if its first character returns. */
  lemma RaisedRunFold(u: Casing, q: string)
    requires Lawful(u) && q != "" && Fold(u, Raise(u, q), true) == q
    ensures Returns(u, q[0])
  {
    var w := Raise(u, q);
    if UpperRun(u, w) > 1 {
      var upper := if UpperRun(u, w) < |w| then UpperRun(u, w) - 1 else UpperRun(u, w);
      LowerAllNotEmpty(u, w[..upper]);
      assert q[0] == u.full(u.upper(q[0]))[0];
    } else {
      assert q[0] == u.lower(w[0]);
    }
  }

  /** Advertising and dispatch agree about a member exactly when a rung above inference names it
      or its first character survives being raised and lowered. */
  lemma LadderRoundTrip(u: Casing, names: Names, q: string)
    requires Lawful(u) && IsMap(names.members) && q != ""
    ensures q in CandidateQmlNames(u, names, AdvertisedName(u, names, q)) <==> Declared(u, names, q).Some? || Returns(u, q[0])
  {
    var w := AdvertisedName(u, names, q);
    CandidatesAre(u, names, w, q);
    if Declared(u, names, q).Some? {
      if KeyOf(names.members, q).Some? {
        AliasIsFound(names.members, q);
      }
    } else {
      assert [u.upper(q[0])] + q[1..] == w;
      assert w[1..] == q[1..];
      assert q == [q[0]] + q[1..];
      assert q == w <==> u.upper(q[0]) == q[0];
      assert Fold(u, w, false) == q <==> u.lower(u.upper(q[0])) == q[0];
      NoAlias(names.members, w, q);
      if Fold(u, w, true) == q {
        RaisedRunFold(u, q);
      }
    }
  }

  /** A member that starts with the dotless i is advertised under a name that does not lead back. */
  lemma DotlessIDiverges(u: Casing, rest: string)
    requires Lawful(u) && u.upper('\U{131}') == 'I' && u.lower('I') == 'i'
    ensures var q := ['\U{131}'] + rest; q !in CandidateQmlNames(u, Names([], [], []), AdvertisedName(u, Names([],
        [], []), q))
  {
    LadderRoundTrip(u, Names([], [], []), ['\U{131}'] + rest);
  }
}
