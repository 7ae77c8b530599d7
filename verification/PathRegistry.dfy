/** The dispatchers of one connection: a registry by object path, and for each capturing root an
    index of the paths it serves. */
module PathRegistry {
  import opened Options
  import opened Sequences

  /** DBusPathDispatcher, known by its path. */
  datatype Dispatcher = Dispatcher(
    captures: bool,
    requestedCapture: bool,
    capturedBy: Option<string>,
    children: set<string>,
    adaptors: seq<nat>)

  type Registry = map<string, Dispatcher>

  // --------------------------------------------------------------------------- paths

  /** `p` lies strictly beneath `r`. */
  predicate Under(p: string, r: string) {
    if r == "/" then |p| > 1 && p[0] == '/' else 0 < |r| < |p| && p[..|r|] == r && p[|r|] == '/'
  }

  /** lastIndexOf('/'). */
  function LastSlash(s: string): (i: int)
    ensures -1 <= i < |s|
    ensures i >= 0 ==> s[i] == '/'
    ensures forall k :: i < k < |s| ==> s[k] != '/'
  {
    if s == "" then -1
    else if s[|s| - 1] == '/' then |s| - 1
    else LastSlash(s[..|s| - 1])
  }

  function Parent(s: string): (r: string)
    requires LastSlash(s) >= 0
    ensures LastSlash(s) > 0 ==> |r| < |s|
  {
    if LastSlash(s) == 0 then "/" else s[..LastSlash(s)]
  }

  /** The walk attach makes over the ancestors of a new path. */
  function Walk(reg: Registry, s: string): (r: Option<string>)
    ensures r.Some? ==> r.value in reg && reg[r.value].captures
    decreases |s|
  {
    if LastSlash(s) < 0 then None
    else if Parent(s) in reg && reg[Parent(s)].captures then Some(Parent(s))
    else if LastSlash(s) == 0 then None
    else Walk(reg, Parent(s))
  }

  lemma UnderParent(s: string, r: string)
    ensures LastSlash(s) < 0 ==> !Under(s, r)
    ensures LastSlash(s) == 0 && Under(s, r) ==> r == Parent(s)
    ensures LastSlash(s) == 0 && |s| > 1 ==> Under(s, Parent(s))
    ensures LastSlash(s) > 0 ==> Under(s, Parent(s)) && (Under(s, r) <==> r == Parent(s) || Under(Parent(s), r))
  {
    var i := LastSlash(s);
    if i > 0 {
      var q := Parent(s);
      assert |q| == i && s[..i] == q && s[i] == '/';
      assert forall k :: 0 <= k < i ==> q[k] == s[k];
      if Under(s, r) && r != "/" {
        assert |r| <= i;
        assert |r| < i ==> q[..|r|] == s[..|r|];
        assert |r| == i ==> r == q;
      }
      if Under(q, r) && r != "/" {
        assert s[..|r|] == q[..|r|];
      }
    }
  }

  /** The walk finds a capturing ancestor exactly when there is one. */
  lemma {:induction false} WalkFinds(reg: Registry, s: string)
    ensures Walk(reg, s).Some? ==> var r := Walk(reg, s).value; r in reg && reg[r].captures && (Under(s, r) || s == r)
    ensures Walk(reg, s).None? ==> forall r :: r in reg && reg[r].captures ==> !Under(s, r)
    decreases |s|
  {
    if LastSlash(s) > 0 {
      WalkFinds(reg, Parent(s));
    }
    forall r ensures LastSlash(s) < 0 ==> !Under(s, r) {
      UnderParent(s, r);
    }
    if LastSlash(s) >= 0 {
      assert LastSlash(s) == 0 && |s| == 1 ==> s == Parent(s);
      UnderParent(s, "");
      forall r ensures Under(s, r) ==> r == Parent(s) || (LastSlash(s) > 0 && Under(Parent(s), r)) {
        UnderParent(s, r);
      }
      if Walk(reg, s).Some? {
        UnderParent(s, Walk(reg, s).value);
      }
    }
  }

  /** What it finds is the nearest: every other capturing ancestor lies above it. */
  lemma {:induction false} WalkFindsNearest(reg: Registry, s: string, q: string)
    requires Walk(reg, s).Some? && q in reg && reg[q].captures && Under(s, q)
    ensures q == Walk(reg, s).value || Under(Walk(reg, s).value, q)
    decreases |s|
  {
    UnderParent(s, q);
    if q != Parent(s) && Walk(reg, s) != Some(Parent(s)) {
      WalkFindsNearest(reg, Parent(s), q);
    }
  }

  /** Two paths above the same path are one above the other. */
  lemma AncestorsAreLinear(p: string, a: string, b: string)
    requires Under(p, a) && Under(p, b)
    ensures a == b || Under(a, b) || Under(b, a)
  {
    if a != "/" && b != "/" {
      var (s, t) := if |a| <= |b| then (a, b) else (b, a);
      assert t[..|s|] == p[..|t|][..|s|] == p[..|s|] == s;
      assert |s| == |t| ==> s == t;
      assert |s| < |t| ==> t[|s|] == p[|s|];
    } else if a == "/" && b != "/" {
      assert b[0] == p[0];
    } else if b == "/" && a != "/" {
      assert a[0] == p[0];
    }
  }

  // ------------------------------------------------------------------- attach and detach

  /** attach, up to the service name: the new registry and whether it succeeds. `accepted` is
      registerVirtualObject's answer. */
  function Attach(reg: Registry, path: string, capture: bool, adaptor: nat, accepted: bool): (Registry, bool) {
    if path in reg then
      if capture != reg[path].requestedCapture then (reg, false)
      else (reg[path := reg[path].(adaptors := reg[path].adaptors + [adaptor])], true)
    else
      var root := Walk(reg, path);
      if root.Some? then
        var r := root.value;
        (reg[r := reg[r].(children := reg[r].children + {path})][path := Dispatcher(false, capture, root, {},
            [adaptor])], true)
      else if !accepted then (reg, false)
      else (reg[path := Dispatcher(capture, capture, None, {}, [adaptor])], true)
  }

  /** detachAdaptor with the cleanup it triggers. */
  function Detach(reg: Registry, path: string, adaptor: nat): Registry {
    if path !in reg then reg
    else
      var d := reg[path].(adaptors := RemoveFirst(reg[path].adaptors, adaptor));
      if d.adaptors != [] then reg[path := d]
      else if d.capturedBy.Some? && d.capturedBy.value in reg then
        var r := d.capturedBy.value;
        var root := reg[r].(children := reg[r].children - {path});
        if root.adaptors == [] && root.children == {} then reg - {path, r} else reg[r := root] - {path}
      else if d.children != {} then reg[path := d]
      else reg - {path}
  }

  /** What QtDBus promises: it refuses a SubPath registration above anything registered with it,
      and an empty path. */
  predicate Honest(reg: Registry, path: string, capture: bool, accepted: bool) {
    accepted ==> path != "" && (capture ==> forall p :: p in reg && reg[p].capturedBy.None? ==> !Under(p, path))
  }

  // ------------------------------------------------------------------------ the invariant

  predicate NodeOk(reg: Registry, p: string)
    requires p in reg
  {
    var d := reg[p];
    && (d.capturedBy.Some? ==>
          var r := d.capturedBy.value;
          && r in reg && r != p && reg[r].captures && Under(p, r) && p in reg[r].children
          && !d.captures && d.children == {} && d.adaptors != [])
    && (d.adaptors != [] || d.children != {})
    && (d.captures || d.children == {})
    && (forall c :: c in d.children ==> c in reg && reg[c].capturedBy == Some(p))
    && p != ""
  }

  /** A path beneath a capturing root is that root's. */
  predicate Captured(reg: Registry) {
    forall p, r :: p in reg && r in reg && reg[r].captures && Under(p, r) ==> reg[p].capturedBy == Some(r)
  }

  predicate Valid(reg: Registry) {
    (forall p :: p in reg ==> NodeOk(reg, p)) && Captured(reg)
  }

  lemma AttachKeeps(reg: Registry, path: string, capture: bool, adaptor: nat, accepted: bool)
    requires Valid(reg) && Honest(reg, path, capture, accepted)
    ensures Valid(Attach(reg, path, capture, adaptor, accepted).0)
  {
    WalkFinds(reg, path);
    if path in reg {
      var t := Attach(reg, path, capture, adaptor, accepted).0;
      forall p | p in t ensures NodeOk(t, p) {
        assert NodeOk(reg, p);
      }
    } else if Walk(reg, path).Some? {
      ChildKeeps(reg, path, capture, adaptor);
    } else if accepted {
      RootKeeps(reg, path, capture, adaptor);
    }
  }

  lemma ChildNode(reg: Registry, path: string, capture: bool, adaptor: nat, p: string)
    requires Valid(reg) && path !in reg && Walk(reg, path).Some? && Under(path, Walk(reg, path).value)
    requires p in Attach(reg, path, capture, adaptor, false).0
    ensures NodeOk(Attach(reg, path, capture, adaptor, false).0, p)
  {
    UnderParent(path, "");
    hide Walk, Captured;
    if p != path {
      assert NodeOk(reg, p);
    }
  }

  lemma ChildKeeps(reg: Registry, path: string, capture: bool, adaptor: nat)
    requires Valid(reg) && path !in reg && Walk(reg, path).Some?
    ensures Valid(Attach(reg, path, capture, adaptor, false).0)
  {
    WalkFinds(reg, path);
    var r := Walk(reg, path).value;
    var t := Attach(reg, path, capture, adaptor, false).0;
    forall p | p in t ensures NodeOk(t, p) {
      ChildNode(reg, path, capture, adaptor, p);
    }
    hide Walk, Under, NodeOk;
    forall p, q | p in t && q in t && t[q].captures && Under(p, q) ensures t[p].capturedBy == Some(q) {
      if p == path {
        OneRoot(reg, path, q, r);
      }
    }
  }

  /** No path is beneath two capturing roots. */
  lemma OneRoot(reg: Registry, path: string, q: string, r: string)
    requires Valid(reg) && q in reg && r in reg && reg[q].captures && reg[r].captures && Under(path, q) && Under(path, r)
    ensures q == r
  {
    AncestorsAreLinear(path, q, r);
    assert NodeOk(reg, q) && NodeOk(reg, r);
    hide Under;
  }

  lemma RootKeeps(reg: Registry, path: string, capture: bool, adaptor: nat)
    requires Valid(reg) && path !in reg && Walk(reg, path).None? && Honest(reg, path, capture, true)
    ensures Valid(Attach(reg, path, capture, adaptor, true).0)
  {
    WalkFinds(reg, path);
    var t := Attach(reg, path, capture, adaptor, true).0;
    hide Walk, Under;
    forall p | p in t ensures NodeOk(t, p) {
      if p != path {
        assert NodeOk(reg, p);
      }
    }
    forall p, q | p in t && q in t && t[q].captures && Under(p, q) ensures t[p].capturedBy == Some(q) {
      NotUnderItself(path);
      if q == path {
        NothingBeneath(reg, path, p);
      }
    }
  }

  /** Where QtDBus accepts a SubPath registration, nothing is registered beneath: a captured path
      beneath would have a root beneath or above, and both are ruled out. */
  lemma NothingBeneath(reg: Registry, path: string, p: string)
    requires Valid(reg) && path !in reg && Walk(reg, path).None? && Honest(reg, path, true, true) && p in reg
    ensures !Under(p, path)
  {
    WalkFinds(reg, path);
    assert NodeOk(reg, p);
    hide Under, Walk;
    if Under(p, path) && reg[p].capturedBy.Some? {
      assert NodeOk(reg, reg[p].capturedBy.value);
      AncestorsAreLinear(p, path, reg[p].capturedBy.value);
    }
  }

  lemma NotUnderItself(p: string)
    ensures !Under(p, p)
  {
  }

  lemma DetachKeeps(reg: Registry, path: string, adaptor: nat)
    requires Valid(reg)
    ensures Valid(Detach(reg, path, adaptor))
  {
    if path in reg {
      var t := Detach(reg, path, adaptor);
      assert NodeOk(reg, path);
      hide Under, RemoveFirst;
      forall p | p in t ensures NodeOk(t, p) {
        assert NodeOk(reg, p);
        DetachNode(reg, path, adaptor, p);
      }
      DetachOnlyRemoves(reg, path, adaptor);
      hide Detach, NodeOk;
    }
  }

  /** detach changes neither who captures nor who is captured by whom. */
  lemma DetachOnlyRemoves(reg: Registry, path: string, adaptor: nat)
    ensures var t := Detach(reg, path, adaptor);
            forall p :: p in t ==>
              p in reg && t[p].captures == reg[p].captures && t[p].capturedBy == reg[p].capturedBy
  {
    hide RemoveFirst;
  }

  lemma DetachNode(reg: Registry, path: string, adaptor: nat, p: string)
    requires Valid(reg) && path in reg && p in Detach(reg, path, adaptor)
    ensures NodeOk(Detach(reg, path, adaptor), p)
  {
    hide Under, RemoveFirst, Captured;
    assert NodeOk(reg, p) && NodeOk(reg, path);
    if reg[path].capturedBy.Some? {
      assert NodeOk(reg, reg[path].capturedBy.value);
      DetachChildNode(reg, path, adaptor, p);
    }
  }

  lemma DetachChildNode(reg: Registry, path: string, adaptor: nat, p: string)
    requires path in reg && p in Detach(reg, path, adaptor) && p in reg && NodeOk(reg, p) && NodeOk(reg, path)
    requires reg[path].capturedBy.Some? && NodeOk(reg, reg[path].capturedBy.value)
    requires reg[p].capturedBy.Some? ==> reg[p].capturedBy.value in reg && NodeOk(reg, reg[p].capturedBy.value)
    ensures NodeOk(Detach(reg, path, adaptor), p)
  {
    hide Under, RemoveFirst;
  }

  // ------------------------------------------------------------------------------- runs

  datatype Step =
    | AttachStep(path: string, capture: bool, adaptor: nat, accepted: bool)
    | DetachStep(path: string, adaptor: nat)

  function Next(reg: Registry, step: Step): Registry {
    match step
    case AttachStep(path, capture, adaptor, accepted) => Attach(reg, path, capture, adaptor, accepted).0
    case DetachStep(path, adaptor) => Detach(reg, path, adaptor)
  }

  predicate Possible(reg: Registry, run: seq<Step>)
    decreases |run|
  {
    run == []
    || ((run[0].AttachStep? ==> Honest(reg, run[0].path, run[0].capture, run[0].accepted))
        && Possible(Next(reg, run[0]), run[1..]))
  }

  function After(reg: Registry, run: seq<Step>): Registry
    decreases |run|
  {
    if run == [] then reg else After(Next(reg, run[0]), run[1..])
  }

  lemma {:induction false} RunKeeps(reg: Registry, run: seq<Step>)
    requires Valid(reg) && Possible(reg, run)
    ensures Valid(After(reg, run))
    decreases |run|
  {
    hide Valid, Attach, Detach, Honest;
    if run != [] {
      match run[0] {
        case AttachStep(path, capture, adaptor, accepted) => AttachKeeps(reg, path, capture, adaptor, accepted);
        case DetachStep(path, adaptor) => DetachKeeps(reg, path, adaptor);
      }
      RunKeeps(Next(reg, run[0]), run[1..]);
    }
  }

  ghost predicate Reached(run: seq<Step>, reg: Registry) {
    Possible(map[], run) && reg == After(map[], run)
  }

  lemma ReachedValid(run: seq<Step>, reg: Registry)
    requires Reached(run, reg)
    ensures Valid(reg)
  {
    RunKeeps(map[], run);
  }

  // ------------------------------------------------------------------------- guarantees

  /** No capturing root lies beneath another. */
  lemma RootsAreAnAntichain(run: seq<Step>, reg: Registry, p: string, r: string)
    requires Reached(run, reg) && p in reg && r in reg && reg[p].captures && reg[r].captures
    ensures !Under(p, r)
  {
    ReachedValid(run, reg);
    assert NodeOk(reg, p);
  }

  /** A root's index is exactly the registered paths beneath it. */
  lemma IndexAgrees(run: seq<Step>, reg: Registry, r: string, p: string)
    requires Reached(run, reg) && r in reg && reg[r].captures
    ensures p in reg[r].children <==> p in reg && Under(p, r)
    ensures p in reg[r].children ==> reg[p].capturedBy == Some(r)
  {
    ReachedValid(run, reg);
    assert NodeOk(reg, r);
    if p in reg {
      assert NodeOk(reg, p);
    }
  }

  /** The adaptors attached at a path. */
  function Adaptors(reg: Registry, p: string): seq<nat> {
    if p in reg then reg[p].adaptors else []
  }

  /** DBusPathDispatcher::handleMessage's choice of adaptors; nothing means the dispatcher itself
      answers or declines. */
  function Route(reg: Registry, r: string, p: string): Option<seq<nat>>
    requires r in reg
  {
    if p == r then Some(reg[r].adaptors)
    else if !reg[r].captures then None
    else if p in reg[r].children && p in reg then Some(reg[p].adaptors)
    else None
  }

  /** Going through a capturing root finds what looking the path up directly would; any other dispatcher
      serves its own path only. */
  lemma RoutingIsLookup(run: seq<Step>, reg: Registry, r: string, p: string)
    requires Reached(run, reg) && r in reg && (p == r || Under(p, r))
    ensures Route(reg, r, p) == if p in reg && (p == r || reg[r].captures) then Some(Adaptors(reg, p)) else None
  {
    if reg[r].captures {
      IndexAgrees(run, reg, r, p);
    }
  }

  /** attach adds one adaptor at one path or changes nothing; detach takes one away there. What is
      attached elsewhere is never touched, whichever dispatchers come and go. */
  lemma OnlyTheNamedAdaptorMoves(run: seq<Step>, reg: Registry, path: string, capture: bool, adaptor: nat,
      accepted: bool, p: string)
    requires Reached(run, reg)
    ensures var (t, ok) := Attach(reg, path, capture, adaptor, accepted);
            Adaptors(t, p) == if ok && p == path then Adaptors(reg, p) + [adaptor] else Adaptors(reg, p)
    ensures Adaptors(Detach(reg, path, adaptor), p) == if p == path then RemoveFirst(Adaptors(reg, p),
        adaptor) else Adaptors(reg, p)
  {
    hide Under, Walk, RemoveFirst;
    ReachedValid(run, reg);
    WalkFinds(reg, path);
    if path in reg {
      assert NodeOk(reg, path);
    }
    assert RemoveFirst([], adaptor) == [] by { NothingToRemove(adaptor); }
  }

  lemma NothingToRemove(x: nat)
    ensures RemoveFirst([], x) == []
  {
  }

  /** Some capturing root lies above a path. */
  ghost predicate Covered(reg: Registry, path: string) {
    exists r :: r in reg && reg[r].captures && Under(path, r)
  }

  /** attach at a path without a dispatcher succeeds exactly beneath a capturing root or where QtDBus
      accepts the registration; the new dispatcher captures exactly if it was asked to and has no root
      above. An attach that fails changes nothing. */
  lemma FreshAttach(reg: Registry, path: string, capture: bool, adaptor: nat, accepted: bool)
    requires path !in reg
    ensures var (t, ok) := Attach(reg, path, capture, adaptor, accepted);
            && (ok <==> accepted || Covered(reg, path))
            && (ok ==> path in t && (t[path].captures <==> capture && !Covered(reg, path)))
            && (!ok ==> t == reg)
  {
    WalkFinds(reg, path);
    hide Under, Walk;
  }

  /** The dispatcher of a path is there in every state of a run. */
  predicate PathLives(reg: Registry, run: seq<Step>, path: string)
    decreases |run|
  {
    path in reg && (run == [] || PathLives(Next(reg, run[0]), run[1..], path))
  }

  lemma {:induction false} RequestStays(reg: Registry, run: seq<Step>, path: string)
    requires PathLives(reg, run, path)
    ensures path in After(reg, run) && After(reg, run)[path].requestedCapture == reg[path].requestedCapture
    decreases |run|
  {
    hide Walk, RemoveFirst;
    if run != [] {
      RequestStays(Next(reg, run[0]), run[1..], path);
    }
  }

  /** As long as the dispatcher of a path stays, a further attach there succeeds exactly if it asks for
      the same capture as the attach that brought the dispatcher, whether or not that could be granted;
      otherwise it changes nothing. */
  lemma JoinMustAgree(reg: Registry, path: string, first: bool, adaptor: nat, accepted: bool, run: seq<Step>,
      capture: bool, later: nat, again: bool)
    requires path !in reg && Attach(reg, path, first, adaptor, accepted).1
    requires PathLives(Attach(reg, path, first, adaptor, accepted).0, run, path)
    ensures var u := After(Attach(reg, path, first, adaptor, accepted).0, run);
            var (t, ok) := Attach(u, path, capture, later, again);
            (ok <==> capture == first) && (!ok ==> t == u)
  {
    RequestStays(Attach(reg, path, first, adaptor, accepted).0, run, path);
    hide Walk, After, PathLives;
  }

  /** A dispatcher is registered exactly while it has an adaptor or serves a live child; once the
      last adaptor of the connection is gone, so is everything. */
  lemma RegisteredWhileUsed(run: seq<Step>, reg: Registry)
    requires Reached(run, reg)
    ensures forall p :: p in reg ==>
              || Adaptors(reg, p) != []
              || (reg[p].captures && exists c :: c in reg[p].children && Adaptors(reg, c) != [])
    ensures (forall p :: Adaptors(reg, p) == []) ==> reg == map[]
  {
    ReachedValid(run, reg);
    forall p | p in reg ensures Adaptors(reg, p) != [] || (reg[p].captures && exists c :: c in reg[p].children && Adaptors(reg, c) != []) {
      assert NodeOk(reg, p);
      if reg[p].adaptors == [] {
        var c :| c in reg[p].children;
        assert NodeOk(reg, c);
        assert Adaptors(reg, c) != [];
      }
    }
    if (forall p :: Adaptors(reg, p) == []) && reg != map[] {
      var p :| p in reg;
    }
  }

  // ------------------------------------------------------------------------ the registry

  class Dispatchers {
    var paths: Registry

    constructor ()
      ensures paths == map[]
    {
      paths := map[];
    }

    /** The ancestor walk. */
    method FindRoot(path: string) returns (root: Option<string>)
      ensures root == Walk(paths, path)
      ensures root.Some? ==> forall q :: q in paths && paths[q].captures && Under(path, q) ==> q == root.value || Under(root.value, q)
    {
      forall q | Walk(paths, path).Some? && q in paths && paths[q].captures && Under(path, q)
        ensures q == Walk(paths, path).value || Under(Walk(paths, path).value, q)
      {
        WalkFindsNearest(paths, path, q);
      }
      hide Under;
      var parent := path;
      while true
        invariant Walk(paths, path) == Walk(paths, parent)
        decreases |parent|
      {
        var slash := FindLastSlash(parent);
        if slash < 0 {
          return None;
        }
        parent := if slash == 0 then "/" else parent[..slash];
        if parent in paths && paths[parent].captures {
          return Some(parent);
        }
        if slash == 0 {
          return None;
        }
      }
    }

    method FindLastSlash(s: string) returns (i: int)
      ensures i == LastSlash(s)
    {
      i := |s| - 1;
      while i >= 0 && s[i] != '/'
        invariant -1 <= i < |s|
        invariant LastSlash(s) == LastSlash(s[..i + 1])
      {
        assert s[..i + 1][..i] == s[..i];
        i := i - 1;
      }
      assert i >= 0 ==> s[..i + 1][i] == '/';
    }

    method AttachAdaptor(path: string, capture: bool, adaptor: nat, accepted: bool) returns (ok: bool)
      modifies this
      ensures (paths, ok) == Attach(old(paths), path, capture, adaptor, accepted)
    {
      if path in paths {
        if capture != paths[path].requestedCapture {
          return false;
        }
      } else {
        var root := FindRoot(path);
        if root.Some? {
          var r := root.value;
          paths := paths[r := paths[r].(children := paths[r].children + {path})];
          paths := paths[path := Dispatcher(false, capture, root, {}, [])];
        } else {
          if !accepted {
            return false;
          }
          paths := paths[path := Dispatcher(capture, capture, None, {}, [])];
        }
      }
      paths := paths[path := paths[path].(adaptors := paths[path].adaptors + [adaptor])];
      assert [] + [adaptor] == [adaptor];
      assert paths == Attach(old(paths), path, capture, adaptor, accepted).0;
      return true;
    }

    method DetachAdaptor(path: string, adaptor: nat)
      requires path in paths && paths[path].capturedBy.Some? ==>
                 paths[path].capturedBy.value in paths && paths[path].capturedBy.value != path
      modifies this
      ensures paths == Detach(old(paths), path, adaptor)
    {
      if path !in paths {
        return;
      }
      var left := DropFirst(paths[path].adaptors, adaptor);
      paths := paths[path := paths[path].(adaptors := left)];
      if left != [] {
        return;
      }
      if paths[path].capturedBy.Some? {
        var r := paths[path].capturedBy.value;
        paths := paths[r := paths[r].(children := paths[r].children - {path})];
        paths := paths - {path};
        if paths[r].adaptors == [] && paths[r].children == {} {
          paths := paths - {r};
        }
        return;
      }
      if paths[path].children != {} {
        return;
      }
      paths := paths - {path};
    }
  }
}
