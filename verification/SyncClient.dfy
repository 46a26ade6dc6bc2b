/** The sidecar's reconciliation client: bootstrap, consume the stream, pull a snapshot whenever in doubt. */
module SyncClient {

  import opened Rules
  import opened Tables
  import opened Iac
  import opened Projection
  import opened VersionedWrite
  import opened Wire
  import opened Cache
  import opened Engine

  datatype Event = DeltaEvent(d: ProtoDelta) | HeartbeatEvent(version: nat) | SnapshotRequired(version: nat) | OtherEvent

  /** What the environment answers while one event is handled: a pulled snapshot or a failed call, and store calls that succeed. */
  datatype Reaction = Reaction(pull: Option<ProtoSnapshot>, deltaCalls: nat, pullCalls: nat)

  /** What an observer sees of the kernel. */
  datatype Look = Look(rules: set<Rule>, version: nat, ready: bool)

  ghost function Shown(k: Kernel): Look
    reads k
  {
    Look(k.rules, k.version, k.ready)
  }

  /** The rules that a snapshot message carries. */
  ghost predicate Carries(p: ProtoSnapshot, rules: seq<Rule>) {
    |rules| == |p.rules| && forall i :: 0 <= i < |p.rules| ==> DecodeRule(p.rules[i]) == Success(rules[i])
  }

  /** Nothing happened, or an apply broke off and left the kernel not ready. */
  predicate Interrupted(a: Look, b: Look) {
    b == a || (!b.ready && b.version == a.version)
  }

  /** A pull that succeeds makes the kernel ready at the snapshot; one that fails at most interrupts it, and without an answer does nothing. */
  ghost predicate Resynced(a: Look, b: Look, pull: Option<ProtoSnapshot>, ok: bool) {
    if ok then pull.Some? && b.ready && b.version == pull.value.version
               && exists rules :: Carries(pull.value, rules) && b.rules == Loaded(rules)
    else Interrupted(a, b) && (pull.None? ==> b == a)
  }

  /** The delta decodes, belongs to the domain, and has been applied. */
  ghost predicate Applied(domain: string, a: Look, b: Look, d: ProtoDelta) {
    exists k :: IsDecoding(d, k) && AllInDomain(domain, k) && b == Look(Steps(a.rules, k.policyChanges), d.version, a.ready)
  }

  ghost predicate AllInDomain(domain: string, k: KernelDelta) {
    forall i :: 0 <= i < |k.policyChanges| ==> InDomain(domain, k.policyChanges[i])
  }

  /** An old delta is ignored, the next one is applied, and anything else leads to a pull. */
  ghost predicate DeltaHandled(domain: string, a: Look, b: Look, d: ProtoDelta, pull: Option<ProtoSnapshot>, ok: bool) {
    if d.version <= a.version then ok && b == a
    else
      || (d.version == a.version + 1 && ok && Applied(domain, a, b, d))
      || exists mid :: Interrupted(a, mid) && (d.version > a.version + 1 ==> mid == a) && Resynced(mid, b, pull, ok)
  }

  ghost predicate Handled(domain: string, a: Look, b: Look, ev: Event, pull: Option<ProtoSnapshot>, ok: bool) {
    match ev
    case DeltaEvent(d) => DeltaHandled(domain, a, b, d, pull, ok)
    case HeartbeatEvent(v) => if v > a.version then Resynced(a, b, pull, ok) else ok && b == a
    case SnapshotRequired(_) => Resynced(a, b, pull, ok)
    case OtherEvent => ok && b == a
  }

  /** A snapshot message that carries rules decodes to exactly them. */
  lemma SnapshotsDecode(pull: Option<ProtoSnapshot>)
    ensures forall version, rs, policies | pull == Some(EncodeSnapshot(version, rs, policies)) ::
      && pull.value.version == version && (forall i :: 0 <= i < |pull.value.rules| ==> |pull.value.rules[i].values| <= 6)
      && forall rules | Carries(pull.value, rules) :: rules == rs
  {
    forall version, rs, policies | pull == Some(EncodeSnapshot(version, rs, policies))
      ensures forall i :: 0 <= i < |pull.value.rules| ==> |pull.value.rules[i].values| <= 6
      ensures forall rules | Carries(pull.value, rules) :: rules == rs
    {
      forall i | 0 <= i < |rs|
        ensures |pull.value.rules[i].values| <= 6
      {
        PadUndoesTrim(rs[i]);
      }
      forall rules | Carries(pull.value, rules)
        ensures rules == rs
      {
        SnapshotRoundTrip(version, rs, policies, KernelSnapshot(version, rules, policies));
      }
    }
  }

  /** The message of a delta that leads from one projection of the domain's tables to another. */
  ghost predicate BetweenProjections(d: ProtoDelta, domain: string) {
    exists c: Delta, t: Tables, t': Tables ::
      d == EncodeDelta(c) && Elements(c.adds) <= Project(t', domain) && Elements(c.removes) <= Project(t, domain)
  }

  /** Such a delta always decodes, and nothing in it is foreign. */
  lemma ProjectedDeltasAreHome(d: ProtoDelta, domain: string)
    requires BetweenProjections(d, domain)
    ensures Decodable(d) && forall k: KernelDelta | IsDecoding(d, k) :: |k.policyChanges| == |d.policyChanges| && AllInDomain(domain, k)
  {
    var c: Delta, t: Tables, t': Tables :|
      d == EncodeDelta(c) && Elements(c.adds) <= Project(t', domain) && Elements(c.removes) <= Project(t, domain);
    EncodedDecodes(c);
    hide Project, EncodeDelta, Decodable;
    forall k: KernelDelta | IsDecoding(d, k)
      ensures AllInDomain(domain, k)
    {
      CommittedDeltaIsHome(c, k, t, t', domain);
    }
  }

  /** A ready kernel that handles an event without an error is ready afterwards. */
  lemma HandledStaysReady(domain: string, a: Look, b: Look, ev: Event, pull: Option<ProtoSnapshot>)
    requires a.ready && Handled(domain, a, b, ev, pull, true)
    ensures b.ready
  {
  }

  class Client {
    const engine: Kernel
    var connected: bool
    /** How often the client has seen a proof of life. */
    var syncs: nat

    constructor (engine: Kernel)
      ensures this.engine == engine && !connected && syncs == 0
    {
      this.engine := engine;
      connected, syncs := false, 0;
    }

    /** Pulls a full snapshot and rebuilds the kernel from it. */
    method Resync(pull: Option<ProtoSnapshot>, calls: nat) returns (ok: bool)
      requires engine.Valid()
      modifies this`syncs, engine, engine.table, engine.cache
      ensures engine.Valid() && (engine.cache.ll == old(engine.cache.ll) || engine.cache.ll == [])
      ensures Resynced(old(Shown(engine)), Shown(engine), pull, ok)
      ensures syncs == old(syncs) + if ok then 1 else 0
      ensures forall version, rs, policies, t: Tables | pull == Some(EncodeSnapshot(version, rs, policies)) && Elements(rs) <= Project(t, engine.domain) ::
        calls >= 3 ==> ok && Shown(engine) == Look(Elements(rs), version, true)
    {
      SnapshotsDecode(pull);
      hide Loaded, Project, EncodeSnapshot, DecodeRule;
      if pull.None? {
        return false;
      }
      var s := SnapshotFromProto(pull.value);
      if s.Failure? {
        return false;
      }
      assert Carries(pull.value, s.value.rules);
      var applied := engine.ApplySnapshot(s.value, calls);
      if applied.Failure? {
        return false;
      }
      syncs := syncs + 1;
      return true;
    }

    /** Dispatches a delta on its version. */
    method HandleDelta(d: ProtoDelta, env: Reaction) returns (ok: bool)
      requires engine.Valid()
      modifies this`syncs, engine, engine.table, engine.cache
      ensures engine.Valid() && (engine.cache.ll == old(engine.cache.ll) || engine.cache.ll == [])
      ensures DeltaHandled(engine.domain, old(Shown(engine)), Shown(engine), d, env.pull, ok)
      ensures BetweenProjections(d, engine.domain) && d.version == old(engine.version) + 1 && env.deltaCalls > |d.policyChanges| ==>
        ok && Applied(engine.domain, old(Shown(engine)), Shown(engine), d)
    {
      hide Loaded, Steps, Resynced, BetweenProjections;
      if BetweenProjections(d, engine.domain) {
        ProjectedDeltasAreHome(d, engine.domain);
      }
      var cur := engine.version;
      ghost var start := Shown(engine);
      if d.version <= cur {
        syncs := syncs + 1;
        return true;
      }
      if d.version == cur + 1 {
        var k := DeltaFromProto(d);
        if k.Failure? {
          ok := Resync(env.pull, env.pullCalls);
          return ok;
        }
        // Nothing moves the version between the check above and this call, so it is never refused as stale.
        var applied := engine.ApplyDelta(k.value, env.deltaCalls);
        if applied.Success? {
          syncs := syncs + 1;
          assert AllInDomain(engine.domain, k.value);
          return true;
        }
        assert Interrupted(start, Shown(engine));
        ok := Resync(env.pull, env.pullCalls);
        return ok;
      }
      ok := Resync(env.pull, env.pullCalls);
    }

    method HandleEvent(ev: Event, env: Reaction) returns (ok: bool)
      requires engine.Valid()
      modifies this`syncs, engine, engine.table, engine.cache
      ensures engine.Valid() && (engine.cache.ll == old(engine.cache.ll) || engine.cache.ll == [])
      ensures Handled(engine.domain, old(Shown(engine)), Shown(engine), ev, env.pull, ok)
      ensures ev.DeltaEvent? && BetweenProjections(ev.d, engine.domain) && ev.d.version == old(engine.version) + 1
              && env.deltaCalls > |ev.d.policyChanges| ==>
        ok && Applied(engine.domain, old(Shown(engine)), Shown(engine), ev.d)
    {
      hide Resynced, DeltaHandled, BetweenProjections, Applied;
      match ev
      case DeltaEvent(d) => ok := HandleDelta(d, env);
      case HeartbeatEvent(v) =>
        if v > engine.version {
          ok := Resync(env.pull, env.pullCalls);
        } else {
          syncs := syncs + 1;
          ok := true;
        }
      case SnapshotRequired(_) => ok := Resync(env.pull, env.pullCalls);
      case OtherEvent => ok := true;
    }

    /**
     Bootstraps from a snapshot, then consumes the stream until it ends or a pull fails.
     The log records what the kernel looked like each time the client waited for an event: it was always ready.
     */
    method ConnectAndServe(boot: Option<ProtoSnapshot>, bootCalls: nat, subscribed: bool, script: seq<(Event, Reaction)>)
        returns (handled: nat, ghost log: seq<Look>)
      requires engine.Valid()
      modifies this, engine, engine.table, engine.cache
      ensures engine.Valid() && !connected && handled <= |script|
      ensures forall l :: l in log ==> l.ready
      ensures log == [] ==> handled == 0
      ensures log != [] ==> Resynced(old(Shown(engine)), log[0], boot, true) && (|log| == handled || |log| == handled + 1)
      ensures forall i :: 0 <= i < |log| - 1 ==> Handled(engine.domain, log[i], log[i + 1], script[i].0, script[i].1.pull, true)
    {
      hide Resynced, Handled;
      handled, log := 0, [];
      connected := false;
      var ok := Resync(boot, bootCalls);
      if !ok || !subscribed {
        return;
      }
      ResyncedIsReady(old(Shown(engine)), Shown(engine), boot);
      connected := true;
      log := [Shown(engine)];
      while handled < |script|
        invariant handled <= |script| && engine.Valid()
        invariant engine.cache.ll == old(engine.cache.ll) || engine.cache.ll == []
        invariant |log| == handled + 1 && log[handled] == Shown(engine)
        invariant forall l :: l in log ==> l.ready
        invariant Resynced(old(Shown(engine)), log[0], boot, true)
        invariant forall i :: 0 <= i < handled ==> Handled(engine.domain, log[i], log[i + 1], script[i].0, script[i].1.pull, true)
      {
        ghost var before := Shown(engine);
        ok := HandleEvent(script[handled].0, script[handled].1);
        handled := handled + 1;
        if !ok {
          connected := false;
          return;
        }
        HandledStaysReady(engine.domain, before, Shown(engine), script[handled - 1].0, script[handled - 1].1.pull);
        log := log + [Shown(engine)];
      }
      connected := false;
    }
  }

  lemma ResyncedIsReady(a: Look, b: Look, pull: Option<ProtoSnapshot>)
    requires Resynced(a, b, pull, true)
    ensures b.ready
  {
  }
}
