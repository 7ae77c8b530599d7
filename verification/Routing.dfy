/** Which of the adaptors attached at one path get a call. */
module Routing {
  import opened Options

  /** One adaptor of the list, and whether its handleMessage would return true for the call. */
  datatype Entry = Entry(alive: bool, iface: string, accepts: bool)

  datatype Target =
    | Introspectable
    | Properties(reqIface: string) // empty if the first argument is missing or empty
    | Named(iface: string)         // any other interface
    | NoInterface

  /** What a route did: the adaptors asked, in order, whether it reports the call as handled, and
      whether it answers UnknownMethod itself. */
  datatype Outcome = Outcome(asked: seq<nat>, handled: bool, unknownMethod: bool)

  predicate Serves(e: Entry, iface: string) {
    e.alive && e.iface == iface
  }

  /** The first live adaptor of an interface. */
  function First(adaptors: seq<Entry>, iface: string): (i: Option<nat>)
    ensures i.Some? ==> i.value < |adaptors| && Serves(adaptors[i.value], iface) && forall k :: 0 <= k < i.value ==>
        !Serves(adaptors[k], iface)
    ensures i.None? ==> forall k :: 0 <= k < |adaptors| ==> !Serves(adaptors[k], iface)
  {
    if adaptors == [] then None
    else
      var n := |adaptors| - 1;
      var before := First(adaptors[..n], iface);
      if before.Some? then before else if Serves(adaptors[n], iface) then Some(n) else None
  }

  /** Every live adaptor is asked in turn until one accepts: none before it is passed over. */
  predicate InTurn(adaptors: seq<Entry>, o: Outcome) {
    && !o.unknownMethod
    && (forall k :: 0 <= k < |o.asked| ==> o.asked[k] < |adaptors| && adaptors[o.asked[k]].alive)
    && (forall j, k :: 0 <= j < k < |o.asked| ==> o.asked[j] < o.asked[k])
    && (forall k :: 0 <= k < |o.asked| - 1 ==> !adaptors[o.asked[k]].accepts)
    && (o.handled <==> exists i :: 0 <= i < |adaptors| && adaptors[i].alive && adaptors[i].accepts)
    && (o.handled ==> o.asked != [] && adaptors[o.asked[|o.asked| - 1]].accepts)
    && forall i :: 0 <= i < |adaptors| && adaptors[i].alive && (o.handled ==> i <= o.asked[|o.asked| - 1]) ==> i in o.asked
  }

  /** Exactly one adaptor is asked, and its answer is the route's. */
  predicate Only(adaptors: seq<Entry>, i: nat, o: Outcome) {
    i < |adaptors| && o == Outcome([i], adaptors[i].accepts, false)
  }

  const NOBODY := Outcome([], false, false)

  /** The loop over an adaptor list for one interface. */
  method Find(adaptors: seq<Entry>, iface: string) returns (i: Option<nat>)
    ensures i == First(adaptors, iface)
  {
    var k := 0;
    while k < |adaptors|
      invariant k <= |adaptors|
      invariant forall j :: 0 <= j < k ==> !Serves(adaptors[j], iface)
    {
      if Serves(adaptors[k], iface) {
        return Some(k);
      }
      k := k + 1;
    }
    return None;
  }

  method AskInTurn(adaptors: seq<Entry>) returns (o: Outcome)
    ensures InTurn(adaptors, o)
  {
    o := NOBODY;
    var k := 0;
    while k < |adaptors|
      invariant k <= |adaptors| && !o.handled && !o.unknownMethod
      invariant forall i :: 0 <= i < |o.asked| ==> o.asked[i] < k && adaptors[o.asked[i]].alive && !adaptors[o.asked[i]].accepts
      invariant forall i, j :: 0 <= i < j < |o.asked| ==> o.asked[i] < o.asked[j]
      invariant forall i :: 0 <= i < k && adaptors[i].alive ==> i in o.asked && !adaptors[i].accepts
    {
      if adaptors[k].alive {
        o := o.(asked := o.asked + [k]);
        if adaptors[k].accepts {
          o := o.(handled := true);
          assert o.asked[|o.asked| - 1] == k;
          return;
        }
        assert o.asked[|o.asked| - 1] == k;
      }
      k := k + 1;
    }
  }

  /** routeToAdaptors. At most one adaptor takes the call; a named interface goes to its first
      live adaptor and nowhere else, and a method missing there is answered here if an answer is
      wanted. */
  method RouteToAdaptors(adaptors: seq<Entry>, target: Target, replyRequired: bool) returns (o: Outcome)
    ensures target.Introspectable? ==> o == NOBODY
    ensures target.NoInterface? || target == Properties("") ==> InTurn(adaptors, o)
    ensures target.Properties? && target.reqIface != "" ==>
              match First(adaptors, target.reqIface)
              case Some(i) => Only(adaptors, i, o)
              case None => if adaptors != [] && adaptors[0].alive then Only(adaptors, 0, o) else o == NOBODY
    ensures target.Named? ==>
              match First(adaptors, target.iface)
              case Some(i) => o == Outcome([i], true, !adaptors[i].accepts && replyRequired)
              case None => o == NOBODY
  {
    match target
    case Introspectable => o := NOBODY;
    case NoInterface => o := AskInTurn(adaptors);
    case Properties(reqIface) =>
      if reqIface == "" {
        o := AskInTurn(adaptors);
      } else {
        var i := Find(adaptors, reqIface);
        if i.Some? {
          o := Outcome([i.value], adaptors[i.value].accepts, false);
        } else if adaptors != [] && adaptors[0].alive {
          o := Outcome([0], adaptors[0].accepts, false);
        } else {
          o := NOBODY;
        }
      }
    case Named(iface) =>
      var i := Find(adaptors, iface);
      if i.Some? {
        o := Outcome([i.value], true, !adaptors[i.value].accepts && replyRequired);
      } else {
        o := NOBODY;
      }
  }
}
