/** Object paths, "Valid Object Paths" of the D-Bus Specification. */
module ObjectPath {

  predicate IsPathChar(c: char) {
    'A' <= c <= 'Z' || 'a' <= c <= 'z' || '0' <= c <= '9' || c == '_'
  }

  predicate IsElement(e: string) {
    e != "" && forall i :: 0 <= i < |e| ==> IsPathChar(e[i])
  }

  /** "/a/b/c" from its elements. */
  function Join(es: seq<string>): string {
    if es == [] then "" else "/" + es[0] + Join(es[1..])
  }

  /** The specification: the root, or non-empty elements each behind one slash. */
  ghost predicate IsObjectPath(p: string) {
    p == "/" || exists es: seq<string> :: es != [] && (forall i :: 0 <= i < |es| ==> IsElement(es[i])) && Join(es) == p
  }

  predicate NoEmptyElement(p: string) {
    forall i :: 0 <= i < |p| - 1 ==> !(p[i] == '/' && p[i + 1] == '/')
  }

  /** validObjectPath: four checks on the characters, no parsing. */
  method ValidObjectPath(path: string) returns (ok: bool)
    ensures ok <==> IsObjectPath(path)
  {
    if path == "/" {
      return true;
    }
    if path == "" || path[0] != '/' || path[|path| - 1] == '/' || !NoEmptyElement(path) {
      ChecksAreNecessary(path);
      return false;
    }
    var i := 0;
    while i < |path|
      invariant i <= |path|
      invariant forall j :: 0 <= j < i ==> IsPathChar(path[j]) || path[j] == '/'
    {
      var c := path[i];
      if !('A' <= c <= 'Z' || 'a' <= c <= 'z' || '0' <= c <= '9' || c == '_' || c == '/') {
        ChecksAreNecessary(path);
        return false;
      }
      i := i + 1;
    }
    ChecksAreEnough(path);
    return true;
  }

  predicate Checks(path: string) {
    && path != "" && path[0] == '/' && path[|path| - 1] != '/' && NoEmptyElement(path)
    && forall j :: 0 <= j < |path| ==> IsPathChar(path[j]) || path[j] == '/'
  }

  lemma ChecksAreNecessary(path: string)
    ensures IsObjectPath(path) ==> path == "/" || Checks(path)
  {
    if IsObjectPath(path) && path != "/" {
      var es :| es != [] && (forall i :: 0 <= i < |es| ==> IsElement(es[i])) && Join(es) == path;
      JoinChecks(es);
    }
  }

  lemma ElementChecks(e: string)
    requires IsElement(e)
    ensures Checks("/" + e)
  {
    var head := "/" + e;
    assert forall j :: 0 <= j < |e| ==> head[j + 1] == e[j];
  }

  lemma {:induction false} JoinChecks(es: seq<string>)
    requires es != [] && forall i :: 0 <= i < |es| ==> IsElement(es[i])
    ensures Checks(Join(es))
  {
    hide Checks, IsElement;
    var head := "/" + es[0];
    ElementChecks(es[0]);
    if |es| > 1 {
      JoinChecks(es[1..]);
      JoinStep(head, Join(es[1..]));
    } else {
      assert es[1..] == [] && Join(es) == head;
    }
  }

  lemma JoinStep(a: string, b: string)
    requires Checks(a) && Checks(b)
    ensures Checks(a + b)
  {
    var s := a + b;
    forall i | 0 <= i < |s| - 1 ensures !(s[i] == '/' && s[i + 1] == '/') {
      assert s[i] == if i < |a| then a[i] else b[i - |a|];
      assert s[i + 1] == if i + 1 < |a| then a[i + 1] else b[i + 1 - |a|];
    }
  }

  lemma LastSlash(path: string) returns (n: nat)
    requires path != "" && path[0] == '/'
    ensures n < |path| && path[n] == '/' && forall j :: n < j < |path| ==> path[j] != '/'
  {
    n := |path| - 1;
    while path[n] != '/'
      invariant 0 <= n < |path|
      invariant forall j :: n < j < |path| ==> path[j] != '/'
      decreases n
    {
      n := n - 1;
    }
  }

  lemma OneElement(e: string)
    requires IsElement(e)
    ensures IsObjectPath("/" + e)
  {
    var es := [e];
    assert es[1..] == [];
    assert Join(es) == "/" + e;
    assert IsElement(es[0]);
  }

  lemma OneMoreElement(front: string, e: string)
    requires IsObjectPath(front) && front != "/" && IsElement(e)
    ensures IsObjectPath(front + ("/" + e))
  {
    hide IsElement;
    var es :| es != [] && (forall i :: 0 <= i < |es| ==> IsElement(es[i])) && Join(es) == front;
    JoinAppend(es, e);
    var all := es + [e];
    assert forall i :: 0 <= i < |all| ==> IsElement(all[i]);
  }

  /** Cutting a checked path at its last slash leaves a checked path or nothing. */
  lemma {:induction false} ChecksAreEnough(path: string)
    requires Checks(path)
    ensures IsObjectPath(path)
    decreases |path|
  {
    hide IsObjectPath;
    var n := LastSlash(path);
    var front, e := path[..n], path[n + 1..];
    assert IsElement(e);
    assert path == front + ("/" + e);
    if n == 0 {
      OneElement(e);
      assert path == "/" + e;
    } else {
      assert front[|front| - 1] == path[n - 1];
      ChecksAreEnough(front);
      assert front[|front| - 1] != '/';
      OneMoreElement(front, e);
    }
  }

  lemma {:induction false} JoinAppend(es: seq<string>, e: string)
    ensures Join(es + [e]) == Join(es) + ("/" + e)
  {
    if es == [] {
      assert [] + [e] == [e] && [e][1..] == [];
    } else {
      JoinAppend(es[1..], e);
      assert (es + [e])[1..] == es[1..] + [e];
    }
  }
}
