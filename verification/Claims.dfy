/** Well-known-name claims: the record one claim keeps, what every event does to it,
    and the registry that holds the records. */
module Claims {
  import opened Options
  import opened Sequences

  /** ServiceClaim. Holders are adaptor identities. */
  datatype Claim = Claim(
    refs: nat,
    owned: bool,
    queued: bool,
    pending: bool,
    tearingDown: bool,
    baseService: string,
    notifyQueued: bool,
    lastNotifiedOwned: bool,
    requestToken: nat,
    lostSinceSend: bool,
    requestSent: bool,
    flagged: bool,
    holders: seq<nat>)

  const FRESH := Claim(0, false, false, false, false, "", false, false, 0, false, false, false, [])

  /** The invariant every writer keeps: a live claim has told its holders what it knows,
      or a note is on the way. */
  predicate Told(c: Claim) {
    c.tearingDown || c.owned == c.lastNotifiedOwned || c.notifyQueued
  }

  /** handleServiceOwnerChange on one record; the flag says whether a note is posted. */
  function OnOwnerChange(c: Claim, newOwner: string): (Claim, bool) {
    if newOwner == c.baseService && !c.owned then
      (c.(owned := true, queued := false, notifyQueued := true), true)
    else if c.owned && newOwner != c.baseService then
      (c.(owned := false, lostSinceSend := true, notifyQueued := true), true)
    else
      (c, false)
  }

  const PRIMARY_OWNER := 1
  const IN_QUEUE := 2
  const ALREADY_OWNER := 4

  /** handleRequestNameReply on one record. */
  function OnReply(c: Claim, code: nat, token: nat): (Claim, bool) {
    if c.requestToken != token || c.refs == 0 || c.tearingDown then (c, false)
    else if c.lostSinceSend then (c.(lostSinceSend := false), false)
    else if code == PRIMARY_OWNER || code == ALREADY_OWNER then
      if c.owned then (c, false) else (c.(owned := true, queued := false, notifyQueued := true), true)
    else if code == IN_QUEUE then (c.(queued := true), false)
    else (c, false)
  }

  /** handleConnectionLost on one record. */
  function OnConnectionLost(c: Claim): (Claim, bool) {
    if !c.owned then (c, false)
    else (c.(owned := false, queued := false, requestSent := false, notifyQueued := true), true)
  }

  /** Taking over a tombstone. */
  function Adopt(c: Claim, base: string): Claim {
    c.(tearingDown := false, refs := 0, holders := [], owned := false, queued := false, pending := false,
       notifyQueued := false, lastNotifiedOwned := false, baseService := base)
  }

  datatype Action =
    | Nothing
    | SendRequest   // flagged: asynchronous RequestName
    | Register      // unflagged: blocking registration
    | TellJoiner    // already owned and delivered: tell the joiner directly

  /** attach's first critical section: adopt a tombstone, then join or start. */
  function Attach(c: Option<Claim>, h: nat, base: string, flagged: bool, nextToken: nat): (Claim, nat, Action) {
    var c0 := if c.None? then FRESH else if c.value.tearingDown then Adopt(c.value, base) else c.value;
    if c0.pending || c0.refs > 0 then
      (c0.(refs := c0.refs + 1, holders := c0.holders + [h]), nextToken,
       if c0.owned && c0.lastNotifiedOwned then TellJoiner else Nothing)
    else
      var c1 := c0.(refs := 1, holders := c0.holders + [h], baseService := base, pending := !flagged,
                    notifyQueued := false, lastNotifiedOwned := false);
      if flagged then
        (c1.(requestToken := nextToken + 1, lostSinceSend := false, flagged := true, requestSent := true),
            nextToken + 1, SendRequest)
      else
        (c1, nextToken, Register)
  }

  /** attach's second critical section, after the blocking registration. */
  function Resolve(c: Claim, ok: bool): Claim {
    if ok then c.(pending := false, owned := true, lastNotifiedOwned := true) else c.(pending := false)
  }

  /** detach's first critical section; the flag says whether the name must be released. */
  function Detach(c: Claim, h: nat, nextToken: nat): (Claim, nat, bool) {
    if c.refs <= 1 then
      (c.(refs := 0, holders := [], requestToken := nextToken + 1, owned := false, tearingDown := true), nextToken + 1,
       c.owned || c.requestSent)
    else
      (c.(refs := c.refs - 1, holders := RemoveFirst(c.holders, h)), nextToken, false)
  }

  /** detach's last critical section: drop the tombstone unless somebody adopted it. */
  function FinishDetach(c: Option<Claim>, releaseToken: nat): Option<Claim> {
    if c.None? then None
    else if c.value.tearingDown && c.value.refs == 0 then None
    else if c.value.requestToken == releaseToken then Some(c.value.(requestSent := false))
    else c
  }

  /** The relay resolving a note: what to tell the holders, if anything. */
  function Drain(c: Claim): (Claim, Option<bool>) {
    if !c.notifyQueued then (c, None)
    else if c.owned == c.lastNotifiedOwned then (c.(notifyQueued := false), None)
    else (c.(notifyQueued := false, lastNotifiedOwned := c.owned), Some(c.owned))
  }

  // --------------------------------------------------------------- the registry

  type Key = (string, string) // (connection, service)

  class ClaimRegistry {
    var claims: map<Key, Claim>
    var nextRequestToken: nat
    var receivers: set<string> // connections with an owner-change receiver

    constructor ()
      ensures claims == map[] && nextRequestToken == 0 && receivers == {}
    {
      claims, nextRequestToken, receivers := map[], 0, {};
    }

    function Find(k: Key): Option<Claim>
      reads this
    {
      if k in claims then Some(claims[k]) else None
    }

    method HandleServiceOwnerChange(k: Key, newOwner: string) returns (post: bool)
      modifies this`claims
      ensures k !in old(claims) ==> !post && claims == old(claims)
      ensures k in old(claims) ==>
                var (c, p) := OnOwnerChange(old(claims)[k], newOwner);
                post == p && claims == old(claims)[k := c]
    {
      if k !in claims {
        return false;
      }
      var claim := claims[k];
      if newOwner == claim.baseService && !claim.owned {
        claim := claim.(owned := true, queued := false);
      } else if claim.owned && newOwner != claim.baseService {
        claim := claim.(owned := false, lostSinceSend := true);
      } else {
        return false;
      }
      claim := claim.(notifyQueued := true);
      claims := claims[k := claim];
      return true;
    }

    method HandleRequestNameReply(k: Key, code: nat, token: nat) returns (post: bool)
      modifies this`claims
      ensures k !in old(claims) ==> !post && claims == old(claims)
      ensures k in old(claims) ==>
                var (c, p) := OnReply(old(claims)[k], code, token);
                post == p && claims == old(claims)[k := c]
    {
      post := false;
      if k !in claims {
        return;
      }
      var claim := claims[k];
      if claim.requestToken != token || claim.refs == 0 || claim.tearingDown {
        return;
      }
      if claim.lostSinceSend {
        claims := claims[k := claim.(lostSinceSend := false)];
        return;
      }
      match code {
        case 1 | 4 =>
          if !claim.owned {
            claim := claim.(owned := true, queued := false, notifyQueued := true);
            post := true;
          }
        case 2 => claim := claim.(queued := true);
        case _ =>
      }
      claims := claims[k := claim];
    }

    /** Every owned claim of the dead connection is lost, no other is touched, and each
        of them gets one note. The connection's receiver goes. */
    method HandleConnectionLost(connName: string) returns (notes: set<Key>)
      modifies this`claims, this`receivers
      ensures claims.Keys == old(claims).Keys && receivers == old(receivers) - {connName}
      ensures forall k :: k in claims ==>
                            claims[k] == if k.0 == connName then OnConnectionLost(old(claims)[k]).0 else old(claims)[k]
      ensures forall k :: k in notes <==> k in old(claims) && k.0 == connName && old(claims)[k].owned
    {
      notes := {};
      var todo := claims.Keys;
      while todo != {}
        invariant todo <= claims.Keys == old(claims).Keys && receivers == old(receivers)
        invariant forall k :: k in claims ==>
                                claims[k] == if k.0 == connName
                                    && k !in todo then OnConnectionLost(old(claims)[k]).0 else old(claims)[k]
        invariant forall k :: k in notes <==> k in old(claims) && k !in todo && k.0 == connName && old(claims)[k].owned
        decreases todo
      {
        var k :| k in todo;
        todo := todo - {k};
        if k.0 == connName && claims[k].owned {
          claims := claims[k := claims[k].(owned := false, queued := false, requestSent := false, notifyQueued := true)];
          notes := notes + {k};
        }
      }
      receivers := receivers - {connName};
    }

    /** attach up to the point where it leaves the lock. A flagged start arms the
        connection's receiver before its request goes out. */
    method AttachClaim(k: Key, h: nat, base: string, flagged: bool) returns (action: Action)
      modifies this
      ensures var (c, n, a) := Attach(old(Find(k)), h, base, flagged, old(nextRequestToken));
              claims == old(claims)[k := c] && nextRequestToken == n && action == a
      ensures receivers == if action == SendRequest then old(receivers) + {k.0} else old(receivers)
    {
      var claim := if k in claims then claims[k] else FRESH;
      if claim.tearingDown {
        claim := claim.(tearingDown := false, refs := 0, holders := [], owned := false, queued := false, pending := false,
                        notifyQueued := false, lastNotifiedOwned := false, baseService := base);
      }
      if claim.pending || claim.refs > 0 {
        action := if claim.owned && claim.lastNotifiedOwned then TellJoiner else Nothing;
        claim := claim.(refs := claim.refs + 1, holders := claim.holders + [h]);
      } else {
        claim := claim.(refs := 1, holders := claim.holders + [h], baseService := base, pending := !flagged,
                        notifyQueued := false, lastNotifiedOwned := false);
        action := Register;
        if flagged {
          receivers := receivers + {k.0};
          nextRequestToken := nextRequestToken + 1;
          claim := claim.(requestToken := nextRequestToken, lostSinceSend := false, flagged := true,
              requestSent := true, pending := false);
          action := SendRequest;
        }
      }
      claims := claims[k := claim];
    }

    /** attach after its blocking registration. `raced`: the record is gone or torn down,
        and attach has to release the name and start over. */
    method ResolveRegistration(k: Key, ok: bool) returns (raced: bool, tell: bool)
      modifies this`claims
      ensures raced <==> old(Find(k)).None? || old(Find(k)).value.tearingDown
      ensures raced ==> claims == old(claims) && !tell
      ensures !raced ==> tell == ok && claims == old(claims)[k := Resolve(old(claims)[k], ok)]
    {
      if k !in claims || claims[k].tearingDown {
        return true, false;
      }
      var claim := claims[k].(pending := false);
      if ok {
        claim := claim.(owned := true, lastNotifiedOwned := true);
      }
      claims := claims[k := claim];
      return false, ok;
    }

    /** detach up to the point where it leaves the lock. */
    method DetachClaim(k: Key, h: nat) returns (release: bool, releaseToken: nat)
      modifies this`claims, this`nextRequestToken
      ensures k !in old(claims) ==> !release && claims == old(claims) && nextRequestToken == old(nextRequestToken)
      ensures k in old(claims) ==>
                var (c, n, r) := Detach(old(claims)[k], h, old(nextRequestToken));
                claims == old(claims)[k := c] && nextRequestToken == n && release == r && (release ==>
                    releaseToken == c.requestToken)
    {
      release, releaseToken := false, 0;
      if k !in claims {
        return;
      }
      var claim := claims[k];
      if claim.refs <= 1 {
        nextRequestToken := nextRequestToken + 1;
        release := claim.owned || claim.requestSent;
        releaseToken := nextRequestToken;
        claim := claim.(refs := 0, holders := [], requestToken := nextRequestToken, owned := false, tearingDown := true);
      } else {
        var hs := DropFirst(claim.holders, h);
        claim := claim.(refs := claim.refs - 1, holders := hs);
      }
      claims := claims[k := claim];
    }

    method FinishDetachClaim(k: Key, releaseToken: nat)
      modifies this`claims
      ensures Find(k) == FinishDetach(old(Find(k)), releaseToken)
      ensures claims - {k} == old(claims) - {k}
    {
      if k in claims && claims[k].tearingDown && claims[k].refs == 0 {
        claims := claims - {k};
      } else if k in claims && claims[k].requestToken == releaseToken {
        claims := claims[k := claims[k].(requestSent := false)];
      }
    }

    /** OwnerChangeRelay::event for one note, up to where it leaves the lock: which
        holders hear what. Stale and duplicate notes tell nobody anything. */
    method ResolveNote(k: Key) returns (tell: Option<bool>, holders: seq<nat>)
      modifies this`claims
      ensures k !in old(claims) ==> tell == None && claims == old(claims)
      ensures k in old(claims) ==>
                var (c, t) := Drain(old(claims)[k]);
                claims == old(claims)[k := c] && tell == t && (t.Some? ==> holders == c.holders)
    {
      tell, holders := None, [];
      if k !in claims || !claims[k].notifyQueued {
        return;
      }
      var claim := claims[k].(notifyQueued := false);
      if claim.owned != claim.lastNotifiedOwned {
        claim := claim.(lastNotifiedOwned := claim.owned);
        tell, holders := Some(claim.owned), claim.holders;
      }
      claims := claims[k := claim];
    }
  }
}
