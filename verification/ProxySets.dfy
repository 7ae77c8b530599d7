/** The proxy's write path: one Set in flight per wire name, later values queued latest-wins
    behind it, and a re-fetch when the last one fails. */
module ProxySets {

  type Value = nat // an opaque marshalable payload

  datatype Dest = Dest(service: string, path: string, iface: string)

  /** The record of the Set in flight. */
  datatype PendingSet = PendingSet(latest: Value, queued: bool, qmlKey: string, dest: Dest)

  /** A Set on the wire. */
  datatype Call = Call(name: string, value: Value, dest: Dest)

  datatype Refetch = RefetchCall(name: string, dest: Dest, epoch: nat)

  datatype Proxy = Proxy(
    dest: Dest,
    pending: map<string, PendingSet>,
    failed: set<string>,
    epoch: nat,
    sent: seq<Call>,        // every Set ever sent
    refetches: seq<Refetch>) // every re-fetch ever sent

  /** setProperty and updateValue once the value is marshalable and the proxy has a target. */
  function Write(p: Proxy, name: string, qmlKey: string, v: Value): Proxy {
    if name in p.pending then
      p.(pending := p.pending[name := p.pending[name].(latest := v, queued := true)])
    else
      p.(pending := p.pending[name := PendingSet(v, false, qmlKey, p.dest)], sent := p.sent + [Call(name, v, p.dest)])
  }

  function FinishPendingSet(p: Proxy, name: string): Proxy {
    if name !in p.pending then p
    else
      var ps := p.pending[name];
      if !ps.queued then p.(pending := p.pending - {name})
      else p.(pending := p.pending[name := ps.(queued := false)], sent := p.sent + [Call(name, ps.latest, ps.dest)])
  }

  /** The finished Set's watcher, up to where it emits propertyWriteFailed. */
  function Completed(p: Proxy, name: string, failed: bool): Proxy {
    FinishPendingSet(if failed then p.(failed := p.failed + {name}) else p, name)
  }

  function RefetchInvalidated(p: Proxy, names: seq<string>): Proxy
    decreases |names|
  {
    if names == [] then p
    else
      var q := p.(epoch := p.epoch + 1, refetches := p.refetches + [RefetchCall(names[0], p.dest, p.epoch + 1)]);
      RefetchInvalidated(q, names[1..])
  }

  function MaybeRefetch(p: Proxy, name: string): Proxy {
    if name in p.pending then p
    else if name !in p.failed then p
    else RefetchInvalidated(p.(failed := p.failed - {name}), [name])
  }

  /** A re-fetch reply lands only for the current epoch and an unchanged destination. */
  predicate Lands(p: Proxy, r: Refetch) {
    r.epoch == p.epoch && r.dest == p.dest
  }

  class ProxyWrites {
    var dest: Dest
    var pendingSets: map<string, PendingSet>
    var failedSetRefetch: set<string>
    var refetchEpoch: nat
    var sent: seq<Call>
    var refetches: seq<Refetch>

    ghost function State(): Proxy
      reads this
    {
      Proxy(dest, pendingSets, failedSetRefetch, refetchEpoch, sent, refetches)
    }

    constructor (dest: Dest)
      ensures State() == Proxy(dest, map[], {}, 0, [], [])
    {
      this.dest, pendingSets, failedSetRefetch := dest, map[], {};
      refetchEpoch, sent, refetches := 0, [], [];
    }

    /** setProperty; updateValue shares it. A proxy without a target and a value that cannot be
        marshaled change nothing. */
    method SetProperty(name: string, qmlKey: string, v: Value, marshalable: bool)
      modifies this
      ensures State() == if dest.service == "" || dest.path == "" || dest.iface == ""
          || !marshalable then old(State()) else Write(old(State()), name, qmlKey, v)
    {
      if dest.service == "" || dest.path == "" || dest.iface == "" {
        return;
      }
      if !marshalable {
        return;
      }
      if name in pendingSets {
        pendingSets := pendingSets[name := pendingSets[name].(latest := v, queued := true)];
        return;
      }
      sent := sent + [Call(name, v, dest)];
      pendingSets := pendingSets[name := PendingSet(v, false, qmlKey, dest)];
    }

    method FinishSet(name: string)
      modifies this
      ensures State() == FinishPendingSet(old(State()), name)
    {
      if name !in pendingSets {
        return;
      }
      var ps := pendingSets[name];
      pendingSets := pendingSets - {name};
      if !ps.queued {
        return;
      }
      sent := sent + [Call(name, ps.latest, ps.dest)];
      pendingSets := pendingSets[name := PendingSet(ps.latest, false, ps.qmlKey, ps.dest)];
      assert pendingSets == old(pendingSets)[name := ps.(queued := false)];
    }

    method SetFinished(name: string, failed: bool)
      modifies this
      ensures State() == Completed(old(State()), name, failed)
    {
      if failed {
        failedSetRefetch := failedSetRefetch + {name};
      }
      FinishSet(name);
    }

    method Refetch(names: seq<string>)
      modifies this
      ensures State() == RefetchInvalidated(old(State()), names)
    {
      var i := 0;
      assert names[0..] == names;
      while i < |names|
        invariant 0 <= i <= |names|
        invariant RefetchInvalidated(State(), names[i..]) == RefetchInvalidated(old(State()), names)
      {
        refetchEpoch := refetchEpoch + 1;
        refetches := refetches + [RefetchCall(names[i], dest, refetchEpoch)];
        assert names[i..][1..] == names[i + 1..];
        i := i + 1;
      }
    }

    method MaybeRefetchAfterFailedWrite(name: string)
      modifies this
      ensures State() == MaybeRefetch(old(State()), name)
    {
      if name in pendingSets {
        return;
      }
      if name !in failedSetRefetch {
        return;
      }
      failedSetRefetch := failedSetRefetch - {name};
      Refetch([name]);
    }
  }
}
