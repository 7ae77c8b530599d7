/** Event by event, what happens to a claim and what does not, in the terms of the daemon's messages. */
module ClaimEvents {
  import opened Options
  import Sequences
  import opened Claims
  import opened ClaimProtocol

  /** What a reply leaves of a record that it is not meant for, or that a loss has overtaken. */
  lemma ReplyIgnored(s: State)
    requires Enabled(s, Deliver) && s.inb[0].Reply? && s.claim.Some?
    ensures s.inb[0].token != s.claim.value.requestToken || s.claim.value.refs == 0 || s.claim.value.tearingDown ==>
              Next(s, Deliver).claim == s.claim && Next(s, Deliver).posting == s.posting
    ensures s.claim.value.lostSinceSend ==>
              var c, t := s.claim.value, Next(s, Deliver);
              && t.posting == s.posting && t.claim.Some? && t.claim.value.owned == c.owned
              && t.claim.value.queued == c.queued && t.claim.value.notifyQueued == c.notifyQueued
              && (s.inb[0].token == c.requestToken && c.refs > 0 && !c.tearingDown ==> !t.claim.value.lostSinceSend)
  {
  }

  /** What the answer to a record's own request does: 1 and 4 make it owned, with one note if it was not
      owned before; 2 records that we are queued; 3 and anything else change nothing. */
  lemma ReplyCounts(s: State)
    requires Enabled(s, Deliver) && s.inb[0].Reply? && Live(s) && s.claim.value.refs > 0
    requires s.inb[0].token == s.claim.value.requestToken && !s.claim.value.lostSinceSend
    ensures var code, c, t := s.inb[0].code, s.claim.value, Next(s, Deliver);
            var c' := t.claim.value;
            && t.claim.Some?
            && c'.owned == (c.owned || code == 1 || code == 4)
            && t.posting == s.posting + (if c'.owned && !c.owned then 1 else 0)
            && c'.notifyQueued == (c.notifyQueued || (c'.owned && !c.owned))
            && c'.queued == (if c'.owned && !c.owned then false else c.queued || code == 2)
            && c'.lastNotifiedOwned == c.lastNotifiedOwned && c'.holders == c.holders && c'.requestSent == c.requestSent
            && !c'.lostSinceSend
  {
  }

  /** What a NameOwnerChanged does: the record is owned exactly if the new owner is its connection, a note
      goes out exactly on a change, and only a loss is remembered against the request. */
  lemma SignalCounts(s: State)
    requires Enabled(s, Deliver) && s.inb[0].OwnerChanged? && s.claim.Some?
    ensures var c, t := s.claim.value, Next(s, Deliver);
            var c' := t.claim.value;
            && t.claim.Some?
            && (c'.owned <==> s.inb[0].newOwner == c.baseService)
            && t.posting == s.posting + (if c'.owned != c.owned then 1 else 0)
            && c'.notifyQueued == (c.notifyQueued || c'.owned != c.owned)
            && c'.lostSinceSend == (c.lostSinceSend || (c.owned && !c'.owned))
            && c'.queued == (c.queued && !(c'.owned && !c.owned))
            && c'.requestSent == c.requestSent && c'.requestToken == c.requestToken && c'.holders == c.holders
            && c'.lastNotifiedOwned == c.lastNotifiedOwned
  {
  }

  /** What the loss of the connection does: an owned record is lost, forgets its request and its place in the
      queue, and a note goes out; any other stays what it was. */
  lemma LossCounts(s: State)
    requires Enabled(s, Deliver) && s.inb[0] == Disconnected && s.claim.Some?
    ensures var c, t := s.claim.value, Next(s, Deliver);
            && !t.subscribed && t.claim.Some?
            && (!c.owned ==> t.claim == s.claim && t.posting == s.posting)
            && (c.owned ==>
                  var c' := t.claim.value;
                  && !c'.owned && !c'.requestSent && !c'.queued && c'.notifyQueued && t.posting == s.posting + 1
                  && c'.lostSinceSend == c.lostSinceSend && c'.requestToken == c.requestToken && c'.holders == c.holders
                  && c'.lastNotifiedOwned == c.lastNotifiedOwned && c'.refs == c.refs && c'.tearingDown == c.tearingDown)
  {
  }

  /** What the last detach leaves: a tombstone without holders that owns nothing, under a new token, so that
      no answer under way can be meant for it; it still knows whether a request went out. */
  lemma LastDetachLeaves(s: State, h: nat)
    requires Enabled(s, DetachStep(h)) && s.claim.value.refs == 1
    ensures var c, t := s.claim.value, Next(s, DetachStep(h));
            var c' := t.claim.value;
            && t.claim.Some? && c'.refs == 0 && c'.holders == [] && c'.tearingDown && !c'.owned
            && c'.requestToken == t.nextToken > s.nextToken && c'.requestSent == c.requestSent && c'.flagged == c.flagged
  {
  }

  /** A note that finds nothing queued tells nobody anything and leaves the record alone. */
  lemma StaleNote(s: State)
    requires Enabled(s, DrainNote) && (s.claim.Some? ==> !s.claim.value.notifyQueued)
    ensures Next(s, DrainNote).claim == s.claim && Left(Next(s, DrainNote)) == Left(s)
  {
  }

  /** A claim adopted while its old name is still being released outlives the release: a flagged one with its
      new request, which that release cannot withdraw, an unflagged one with no request of its own. Left
      alone, the tombstone goes. */
  lemma AdoptionSurvivesRelease(c: Claim, h: nat, next: nat, base: string, h': nat, flagged: bool)
    requires c.refs == 1
    ensures var (tombstone, n, _) := Detach(c, h, next);
            var (adopted, _, action) := Attach(Some(tombstone), h', base, flagged, n);
            && FinishDetach(Some(tombstone), tombstone.requestToken) == None
            && action == (if flagged then SendRequest else Register)
            && adopted.holders == [h'] && adopted.refs == 1 && !adopted.tearingDown && adopted.baseService == base
            && !adopted.owned && !adopted.notifyQueued && !adopted.lastNotifiedOwned && !adopted.queued
            && FinishDetach(Some(adopted), tombstone.requestToken)
               == Some(if flagged then adopted else adopted.(requestSent := false))
            && (flagged ==> adopted.requestSent && !adopted.lostSinceSend && adopted.requestToken > tombstone.requestToken)
            && (!flagged ==> adopted.pending && adopted.lostSinceSend == c.lostSinceSend && adopted.flagged == c.flagged)
  {
    assert [] + [h'] == [h'];
  }
}
