/**
 Policy replication from the control plane to one sidecar, as a state machine: committed versions, an at-least-once and
 lossy, duplicating, reordering bus, a bounded stream, snapshot pulls, and a client that may fail and reconnect at any point.
 */
module Replication {

  import opened Rules
  import opened Tables
  import opened Iac
  import opened VersionedWrite
  import opened Wire
  import opened Engine
  import opened SyncClient
  import opened Hub

  // ---------------------------------------------------------------- the control plane's history

  /** `hist[v]` are the rules of version v; `log[v]` is the delta from v to v + 1. */
  datatype Control = Control(hist: seq<set<Rule>>, log: seq<Delta>)

  function Current(c: Control): nat { |c.log| }

  ghost predicate Faithful(c: Control) {
    && |c.hist| == |c.log| + 1
    && (forall v :: 0 <= v < |c.log| ==> c.log[v].version == v + 1 && ExactDelta(c.hist[v], c.log[v], c.hist[v + 1]))
    && (forall v :: 0 <= v < |c.hist| ==> AllSectioned(c.hist[v]))
  }

  /** Some delta between the two versions adds or removes the rule. */
  ghost predicate Touched(c: Control, r: Rule, lo: nat, hi: nat) {
    exists u :: lo <= u < hi && u < |c.log| && Changes(c.log[u], r)
  }

  predicate Changes(d: Delta, r: Rule) {
    r in d.adds || r in d.removes
  }

  /** Rules the deltas of versions v + 1 to w touch are as in w; all others are as in version k, where they were read. */
  ghost predicate IsMix(c: Control, rules: set<Rule>, v: nat, k: nat, w: nat)
    requires w < |c.hist| && k < |c.hist|
  {
    forall r: Rule :: r in rules <==> if Touched(c, r, v, w) then r in c.hist[w] else r in c.hist[k]
  }

  lemma {:induction false} UntouchedStays(c: Control, r: Rule, a: nat, b: nat)
    requires Faithful(c) && a <= b <= Current(c) && !Touched(c, r, a, b)
    ensures r in c.hist[a] <==> r in c.hist[b]
  {
    if a < b {
      assert !Changes(c.log[b - 1], r);
      UntouchedStays(c, r, a, b - 1);
      assert ExactDelta(c.hist[b - 1], c.log[b - 1], c.hist[b]);
    }
  }

  /** A mix is exact once the version reaches the one its rules were read at. */
  lemma MixBecomesExact(c: Control, rules: set<Rule>, v: nat, k: nat, w: nat)
    requires Faithful(c) && v <= k <= w <= Current(c) && IsMix(c, rules, v, k, w)
    ensures rules == c.hist[w]
  {
    forall r: Rule
      ensures r in rules <==> r in c.hist[w]
    {
      if !Touched(c, r, v, w) {
        UntouchedStays(c, r, k, w);
      }
    }
  }

  lemma MixStarts(c: Control, v: nat, k: nat)
    requires v < |c.hist| && k < |c.hist|
    ensures IsMix(c, c.hist[k], v, k, v)
  {
  }

  /** Adding and then removing what the next delta says leads from a mix to the next mix. */
  lemma MixAdvances(c: Control, rules: set<Rule>, v: nat, k: nat, w: nat)
    requires Faithful(c) && v <= w < Current(c) && k <= Current(c) && IsMix(c, rules, v, k, w)
    ensures IsMix(c, (rules + Elements(c.log[w].adds)) - Elements(c.log[w].removes), v, k, w + 1)
  {
    var d := c.log[w];
    var next := (rules + Elements(d.adds)) - Elements(d.removes);
    OrderDoesNotMatter(c.hist[w], d, c.hist[w + 1]);
    forall r: Rule
      ensures r in next <==> if Touched(c, r, v, w + 1) then r in c.hist[w + 1] else r in c.hist[k]
    {
      if Changes(d, r) {
        assert r in Elements(d.adds) || r in Elements(d.removes);
        assert Touched(c, r, v, w + 1);
      } else {
        assert r !in Elements(d.adds) && r !in Elements(d.removes);
        assert r in c.hist[w + 1] <==> r in c.hist[w];
        assert Touched(c, r, v, w + 1) <==> Touched(c, r, v, w);
      }
    }
  }

  /** A longer history means the same mix. */
  lemma MixSurvives(c: Control, c': Control, rules: set<Rule>, v: nat, k: nat, w: nat)
    requires c.hist <= c'.hist && c.log <= c'.log && |c.hist| == |c.log| + 1
    requires w <= Current(c) && k <= Current(c) && IsMix(c, rules, v, k, w)
    ensures IsMix(c', rules, v, k, w)
  {
    forall r: Rule
      ensures Touched(c', r, v, w) <==> Touched(c, r, v, w)
    {
      if u :| v <= u < w && u < |c'.log| && Changes(c'.log[u], r) {
        assert c.log[u] == c'.log[u];
      }
      if u :| v <= u < w && u < |c.log| && Changes(c.log[u], r) {
        assert c.log[u] == c'.log[u];
      }
    }
  }

  // ---------------------------------------------------------------- the cluster

  /** `boot` tells a pull that opens a connection from one made while receiving. */
  datatype Phase =
    | Idle
    | Asking(boot: bool)
    | Reading(boot: bool, v: nat)
    | Answered(boot: bool, v: nat, k: nat, snap: ProtoSnapshot)
    | Subscribing
    | Joining(current: nat)
    | Receiving

  /** With `consistent` a snapshot's version and rules belong together; without it other commits may come between the two reads. */
  datatype Config = Config(domain: string, bufSize: nat, consistent: bool)

  /** `base` is the version and the reading point of the last applied snapshot; `dropped` the newest delta this stream has dropped. */
  datatype Cluster = Cluster(
    ctl: Control, published: set<nat>, look: Look, base: (nat, nat), phase: Phase,
    stream: Stream, wire: seq<Event>, dropped: nat)

  const NO_STREAM := Stream([], false, 0, 0)

  predicate Connected(p: Phase) {
    p.Receiving? || ((p.Asking? || p.Reading? || p.Answered?) && !p.boot)
  }

  function Delivered(c: Control, v: nat): Event
    requires 0 < v <= |c.log|
  {
    DeltaEvent(EncodeDelta(c.log[v - 1]))
  }

  ghost predicate SnapshotOf(c: Control, v: nat, k: nat, snap: ProtoSnapshot)
    requires k < |c.hist|
  {
    exists rules, policies :: Elements(rules) == c.hist[k] && snap == EncodeSnapshot(v, rules, policies)
  }

  function Gone(c: Cluster): Cluster {
    c.(phase := Idle, stream := NO_STREAM, wire := [], dropped := 0)
  }

  /** A commit; the relay publishes it later. */
  ghost predicate Write(c: Cluster, c': Cluster, d: Delta, after: set<Rule>) {
    && c.ctl.hist != [] && d.version == Current(c.ctl) + 1 && ExactDelta(c.ctl.hist[|c.ctl.hist| - 1], d, after) && AllSectioned(after)
    && c' == c.(ctl := Control(c.ctl.hist + [after], c.ctl.log + [d]))
  }

  /** The relay puts a committed version on the bus, in any order and any number of times. */
  predicate Publish(c: Cluster, c': Cluster, v: nat) {
    0 < v <= Current(c.ctl) && c' == c.(published := c.published + {v})
  }

  /** The bus delivers any published version at any time; what it loses is never delivered. */
  predicate Deliver(cfg: Config, c: Cluster, c': Cluster, v: nat) {
    && v in c.published && 0 < v <= |c.ctl.log| && Connected(c.phase)
    && c' == c.(stream := Offer(c.stream, Delivered(c.ctl, v), cfg.bufSize),
                dropped := if |c.stream.queue| >= cfg.bufSize && v > c.dropped then v else c.dropped)
  }

  predicate Forward(c: Cluster, c': Cluster) {
    && Connected(c.phase) && c.stream.queue != []
    && c' == c.(stream := TakeEvent(c.stream).0, wire := c.wire + [TakeEvent(c.stream).1])
  }

  predicate Signal(c: Cluster, c': Cluster) {
    && Connected(c.phase) && c.stream.overflow
    && c' == c.(stream := TakeOverflow(c.stream).0, wire := c.wire + [TakeOverflow(c.stream).1])
  }

  predicate Beat(c: Cluster, c': Cluster, readable: bool) {
    var read := if readable then Some(Current(c.ctl)) else None;
    && Connected(c.phase)
    && c' == c.(stream := Tick(c.stream, read).0, wire := c.wire + [Tick(c.stream, read).1])
  }

  predicate StartBoot(c: Cluster, c': Cluster) {
    c.phase == Idle && c' == c.(phase := Asking(true))
  }

  predicate ReadVersion(c: Cluster, c': Cluster) {
    c.phase.Asking? && c' == c.(phase := Reading(c.phase.boot, Current(c.ctl)))
  }

  ghost predicate ReadRules(cfg: Config, c: Cluster, c': Cluster, snap: ProtoSnapshot) {
    && c.phase.Reading? && c.phase.v <= Current(c.ctl) < |c.ctl.hist|
    && var k := if cfg.consistent then c.phase.v else Current(c.ctl);
    && SnapshotOf(c.ctl, c.phase.v, k, snap)
    && c' == c.(phase := Answered(c.phase.boot, c.phase.v, k, snap))
  }

  /** The client rebuilds its kernel from the answer, or fails and reconnects. */
  ghost predicate Apply(c: Cluster, c': Cluster, look: Look, ok: bool) {
    && c.phase.Answered? && Resynced(c.look, look, Some(c.phase.snap), ok)
    && c' == if ok then c.(look := look, base := (c.phase.v, c.phase.k), phase := if c.phase.boot then Subscribing else Receiving)
             else Gone(c).(look := look)
  }

  predicate Subscribe(c: Cluster, c': Cluster) {
    c.phase == Subscribing && c' == c.(phase := Joining(Current(c.ctl)))
  }

  /** The stream starts only now: deltas delivered since the version was read have passed it by. */
  predicate Register(c: Cluster, c': Cluster) {
    && c.phase.Joining?
    && c' == c.(phase := Receiving, stream := Stream([], false, c.phase.current, 0), dropped := 0,
                wire := if c.phase.current != c.look.version then [SnapshotRequired(c.phase.current)] else [])
  }

  /** The client handles the next event, or decides to pull. */
  ghost predicate Receive(cfg: Config, c: Cluster, c': Cluster, look: Look) {
    && c.phase == Receiving && c.wire != []
    && var rest := c.(wire := c.wire[1..]);
    var pull := rest.(look := look, phase := Asking(false));
    match c.wire[0]
    case DeltaEvent(d) =>
      if d.version <= c.look.version then c' == rest
      else (d.version == c.look.version + 1 && Applied(cfg.domain, c.look, look, d) && c' == rest.(look := look))
           || (Interrupted(c.look, look) && (d.version > c.look.version + 1 ==> look == c.look) && c' == pull)
    case HeartbeatEvent(v) => if v > c.look.version then look == c.look && c' == pull else c' == rest
    case SnapshotRequired(_) => look == c.look && c' == pull
    case OtherEvent => c' == rest
  }

  /** The connection or a call breaks at any point. */
  predicate Break(c: Cluster, c': Cluster) {
    c' == Gone(c)
  }

  datatype Move =
    | Writes(d: Delta, after: set<Rule>) | Publishes(v: nat) | Delivers(u: nat) | Forwards | Signals | Beats(readable: bool)
    | Boots | ReadsVersion | ReadsRules(snap: ProtoSnapshot) | Applies(to: Look, ok: bool) | Subscribes | Registers
    | Receives(seen: Look) | Breaks

  ghost predicate Next(cfg: Config, c: Cluster, c': Cluster, m: Move) {
    match m
    case Writes(d, after) => Write(c, c', d, after)
    case Publishes(v) => Publish(c, c', v)
    case Delivers(u) => Deliver(cfg, c, c', u)
    case Forwards => Forward(c, c')
    case Signals => Signal(c, c')
    case Beats(readable) => Beat(c, c', readable)
    case Boots => StartBoot(c, c')
    case ReadsVersion => ReadVersion(c, c')
    case ReadsRules(snap) => ReadRules(cfg, c, c', snap)
    case Applies(to, ok) => Apply(c, c', to, ok)
    case Subscribes => Subscribe(c, c')
    case Registers => Register(c, c')
    case Receives(seen) => Receive(cfg, c, c', seen)
    case Breaks => Break(c, c')
  }

  const START := Cluster(Control([{}], []), {}, Look({}, 0, false), (0, 0), Idle, NO_STREAM, [], 0)

  // ---------------------------------------------------------------- invariants

  /** A ready kernel holds a mix of the history at its version; with consistent snapshots the mix was exact from the start. */
  ghost predicate KernelOk(cfg: Config, c: Cluster) {
    && c.look.version <= Current(c.ctl) < |c.ctl.hist|
    && (c.look.ready ==> MixOk(cfg, c.ctl, c.look, c.base))
  }

  ghost predicate MixOk(cfg: Config, c: Control, look: Look, base: (nat, nat))
    requires look.version <= Current(c) < |c.hist|
  {
    && base.0 <= look.version && base.0 <= base.1 <= Current(c)
    && (cfg.consistent ==> base.0 == base.1)
    && IsMix(c, look.rules, base.0, base.1, look.version)
  }

  /** An event that really comes from the control plane's history. */
  ghost predicate Authentic(c: Control, ev: Event) {
    match ev
    case DeltaEvent(d) => 0 < d.version <= |c.log| && ev == Delivered(c, d.version)
    case HeartbeatEvent(v) => v <= Current(c)
    case SnapshotRequired(v) => v <= Current(c)
    case OtherEvent => true
  }

  ghost predicate StreamOk(c: Cluster) {
    && (forall ev :: ev in c.stream.queue + c.wire ==> Authentic(c.ctl, ev))
    && c.stream.lastVer <= Current(c.ctl) && c.dropped <= Current(c.ctl)
  }

  /** A pull answers with a version at least as new as the kernel's; the client only waits for events with a ready kernel. */
  ghost predicate PhaseOk(cfg: Config, c: Cluster)
    requires Current(c.ctl) < |c.ctl.hist|
  {
    match c.phase
    case Reading(_, v) => c.look.version <= v <= Current(c.ctl)
    case Answered(_, v, k, snap) =>
      && c.look.version <= v <= k <= Current(c.ctl) && (cfg.consistent ==> k == v)
      && SnapshotOf(c.ctl, v, k, snap)
    case Subscribing => c.look.ready
    case Joining(current) => c.look.ready && current <= Current(c.ctl)
    case Receiving => c.look.ready
    case _ => true
  }

  /** A dropped delta the kernel has not caught up with: the flag is up, the request is under way, or a new enough snapshot is. */
  ghost predicate Covered(c: Cluster) {
    Connected(c.phase) && c.dropped > c.look.version ==>
      || c.stream.overflow
      || (exists i :: 0 <= i < |c.wire| && c.wire[i].SnapshotRequired?)
      || c.phase.Asking?
      || ((c.phase.Reading? || c.phase.Answered?) && c.phase.v >= c.dropped)
  }

  ghost predicate Invariant(cfg: Config, c: Cluster) {
    && Faithful(c.ctl) && KernelOk(cfg, c) && StreamOk(c) && PhaseOk(cfg, c) && Covered(c)
    && forall v | v in c.published :: 0 < v <= Current(c.ctl)
  }

  lemma StartsWell(cfg: Config)
    ensures Invariant(cfg, START)
  {
  }

  // ---------------------------------------------------------------- every step keeps them

  lemma WriteKeeps(cfg: Config, c: Cluster, c': Cluster, d: Delta, after: set<Rule>)
    requires Invariant(cfg, c) && Write(c, c', d, after)
    ensures Invariant(cfg, c')
  {
    hide IsMix, ExactDelta, EncodeDelta, AllSectioned, EncodeSnapshot;
    assert c.ctl.hist <= c'.ctl.hist && c.ctl.log <= c'.ctl.log;
    if c.look.ready {
      MixSurvives(c.ctl, c'.ctl, c.look.rules, c.base.0, c.base.1, c.look.version);
    }
    assert c'.wire == c.wire;
  }

  lemma PublishKeeps(cfg: Config, c: Cluster, c': Cluster, v: nat)
    requires Invariant(cfg, c) && Publish(c, c', v)
    ensures Invariant(cfg, c')
  {
    hide Faithful, IsMix, Authentic, SnapshotOf;
  }

  lemma DeliverKeeps(cfg: Config, c: Cluster, c': Cluster, v: nat)
    requires Invariant(cfg, c) && Deliver(cfg, c, c', v)
    ensures Invariant(cfg, c')
  {
    assert Delivered(c.ctl, v).d.version == v;
    assert Authentic(c.ctl, Delivered(c.ctl, v));
    hide Faithful, IsMix, Authentic, SnapshotOf, EncodeDelta, Delivered;
    assert c'.wire == c.wire;
  }

  /** Sending an authentic event keeps the rest as it was. */
  lemma SendKeeps(cfg: Config, c: Cluster, c': Cluster, ev: Event, s: Stream)
    requires Invariant(cfg, c) && c' == c.(stream := s, wire := c.wire + [ev])
    requires Authentic(c.ctl, ev) && s.lastVer <= Current(c.ctl) && forall e :: e in s.queue ==> e in c.stream.queue
    requires c.stream.overflow ==> s.overflow || ev.SnapshotRequired?
    ensures Invariant(cfg, c')
  {
    hide Faithful, IsMix, Authentic, SnapshotOf;
    assert forall i :: 0 <= i < |c.wire| ==> c'.wire[i] == c.wire[i];
    assert c'.wire[|c.wire|] == ev;
  }

  lemma ForwardKeeps(cfg: Config, c: Cluster, c': Cluster)
    requires Invariant(cfg, c) && Forward(c, c')
    ensures Invariant(cfg, c')
  {
    assert c.stream.queue[0] in c.stream.queue + c.wire;
    SendKeeps(cfg, c, c', TakeEvent(c.stream).1, TakeEvent(c.stream).0);
  }

  lemma SignalKeeps(cfg: Config, c: Cluster, c': Cluster)
    requires Invariant(cfg, c) && Signal(c, c')
    ensures Invariant(cfg, c')
  {
    SendKeeps(cfg, c, c', TakeOverflow(c.stream).1, TakeOverflow(c.stream).0);
  }

  lemma BeatKeeps(cfg: Config, c: Cluster, c': Cluster, readable: bool)
    requires Invariant(cfg, c) && Beat(c, c', readable)
    ensures Invariant(cfg, c')
  {
    var read := if readable then Some(Current(c.ctl)) else None;
    SendKeeps(cfg, c, c', Tick(c.stream, read).1, Tick(c.stream, read).0);
  }

  lemma PullStepsKeep(cfg: Config, c: Cluster, c': Cluster, snap: ProtoSnapshot)
    requires Invariant(cfg, c) && (StartBoot(c, c') || ReadVersion(c, c') || ReadRules(cfg, c, c', snap) || Subscribe(c, c') || Break(c, c'))
    ensures Invariant(cfg, c')
  {
    hide Faithful, IsMix, Authentic, SnapshotOf;
  }

  lemma RegisterKeeps(cfg: Config, c: Cluster, c': Cluster)
    requires Invariant(cfg, c) && Register(c, c')
    ensures Invariant(cfg, c')
  {
    hide Faithful, IsMix, SnapshotOf;
  }

  /** What a client makes of a snapshot message is the rules that were read for it. */
  lemma SnapshotIsLoaded(c: Control, v: nat, k: nat, snap: ProtoSnapshot, rules: seq<Rule>)
    requires Faithful(c) && k < |c.hist| && SnapshotOf(c, v, k, snap) && Carries(snap, rules)
    ensures Loaded(rules) == c.hist[k] && snap.version == v
  {
    var sent, policies :| Elements(sent) == c.hist[k] && snap == EncodeSnapshot(v, sent, policies);
    SnapshotRoundTrip(v, sent, policies, KernelSnapshot(v, rules, policies));
    assert AllSectioned(c.hist[k]);
  }

  lemma ApplyKeeps(cfg: Config, c: Cluster, c': Cluster, look: Look, ok: bool)
    requires Invariant(cfg, c) && Apply(c, c', look, ok)
    ensures Invariant(cfg, c')
  {
    hide Faithful, IsMix, Authentic, SnapshotOf, Carries, Loaded;
    if ok {
      var rules :| Carries(c.phase.snap, rules) && look.rules == Loaded(rules);
      SnapshotIsLoaded(c.ctl, c.phase.v, c.phase.k, c.phase.snap, rules);
      MixStarts(c.ctl, c.phase.v, c.phase.k);
    }
  }

  /** Applying the next delta of the history. */
  lemma AppliedAdvances(cfg: Config, c: Control, a: Look, b: Look, base: (nat, nat), d: ProtoDelta)
    requires Faithful(c) && a.version < Current(c) && a.ready && MixOk(cfg, c, a, base)
    requires d == EncodeDelta(c.log[a.version]) && Applied(cfg.domain, a, b, d)
    ensures b.ready && b.version == a.version + 1 && MixOk(cfg, c, b, base)
  {
    var k :| IsDecoding(d, k) && AllInDomain(cfg.domain, k) && b == Look(Steps(a.rules, k.policyChanges), d.version, a.ready);
    var delta := c.log[a.version];
    WireKeepsRuleEffect(a.rules, delta, k);
    SectionedAddsLoad(c.hist[a.version], delta, c.hist[a.version + 1]);
    MixAdvances(c, a.rules, base.0, base.1, a.version);
  }

  lemma TailKeepsStream(c: Cluster, c': Cluster)
    requires StreamOk(c) && c.wire != [] && c'.wire == c.wire[1..] && c'.stream == c.stream && c'.ctl == c.ctl && c'.dropped == c.dropped
    ensures StreamOk(c')
  {
    hide Authentic;
    assert forall ev :: ev in c'.wire ==> ev in c.wire;
  }

  lemma TailKeepsCover(c: Cluster, c': Cluster)
    requires Covered(c) && c.phase == Receiving && c.wire != [] && !c.wire[0].SnapshotRequired?
    requires c'.wire == c.wire[1..] && c'.stream == c.stream && c'.dropped == c.dropped && c'.phase == Receiving
    requires c'.look.version >= c.look.version
    ensures Covered(c')
  {
    if i :| 0 <= i < |c.wire| && c.wire[i].SnapshotRequired? {
      assert c'.wire[i - 1] == c.wire[i];
    }
  }

  lemma ReceiveKeeps(cfg: Config, c: Cluster, c': Cluster, look: Look)
    requires Invariant(cfg, c) && Receive(cfg, c, c', look)
    ensures Invariant(cfg, c')
  {
    TailKeepsStream(c, c');
    assert c.wire[0] in c.stream.queue + c.wire;
    var ev := c.wire[0];
    if ev.DeltaEvent? && c.look.version < ev.d.version && c'.phase == Receiving {
      assert ev.d == EncodeDelta(c.ctl.log[c.look.version]);
      AppliedAdvances(cfg, c.ctl, c.look, look, c.base, ev.d);
    }
    hide Faithful, IsMix, Authentic, SnapshotOf, Applied, EncodeDelta;
    if c'.phase == Receiving {
      TailKeepsCover(c, c');
    }
  }

  /** Every step keeps the invariant and never moves the sidecar's version back. */
  lemma StepKeeps(cfg: Config, c: Cluster, c': Cluster, m: Move)
    requires Invariant(cfg, c) && Next(cfg, c, c', m)
    ensures Invariant(cfg, c') && c.look.version <= c'.look.version
  {
    hide Invariant, Write, Publish, Deliver, Forward, Signal, Beat, Receive, Apply, Register, ReadRules;
    VersionNeverFalls(cfg, c, c', m);
    match m
    case Writes(d, after) => WriteKeeps(cfg, c, c', d, after);
    case Publishes(v) => PublishKeeps(cfg, c, c', v);
    case Delivers(u) => DeliverKeeps(cfg, c, c', u);
    case Forwards => ForwardKeeps(cfg, c, c');
    case Signals => SignalKeeps(cfg, c, c');
    case Beats(readable) => BeatKeeps(cfg, c, c', readable);
    case ReadsRules(snap) => PullStepsKeep(cfg, c, c', snap);
    case Applies(to, ok) => ApplyKeeps(cfg, c, c', to, ok);
    case Registers => RegisterKeeps(cfg, c, c');
    case Receives(seen) => ReceiveKeeps(cfg, c, c', seen);
    case _ => PullStepsKeep(cfg, c, c', ProtoSnapshot(0, [], []));
  }

  lemma VersionNeverFalls(cfg: Config, c: Cluster, c': Cluster, m: Move)
    requires Invariant(cfg, c) && Next(cfg, c, c', m)
    ensures c.look.version <= c'.look.version
  {
    hide Faithful, IsMix, Authentic, Carries, Loaded, IsDecoding, EncodeSnapshot;
    if m.Applies? && m.ok {
      assert c.phase.snap.version == c.phase.v by {
        SnapshotVersion(c.ctl, c.phase.v, c.phase.k, c.phase.snap);
      }
    }
  }

  lemma SnapshotVersion(c: Control, v: nat, k: nat, snap: ProtoSnapshot)
    requires k < |c.hist| && SnapshotOf(c, v, k, snap)
    ensures snap.version == v
  {
  }

  // ---------------------------------------------------------------- over runs

  ghost predicate IsRun(cfg: Config, run: seq<Cluster>, moves: seq<Move>) {
    && |run| == |moves| + 1 && run[0] == START
    && forall i :: 0 <= i < |moves| ==> Next(cfg, run[i], run[i + 1], moves[i])
  }

  lemma {:induction false} ReachableStatesAreGood(cfg: Config, run: seq<Cluster>, moves: seq<Move>, i: nat)
    requires IsRun(cfg, run, moves) && i < |run|
    ensures Invariant(cfg, run[i])
  {
    if i == 0 {
      StartsWell(cfg);
    } else {
      ReachableStatesAreGood(cfg, run, moves, i - 1);
      hide Next, Invariant;
      StepKeeps(cfg, run[i - 1], run[i], moves[i - 1]);
    }
  }

  lemma {:induction false} VersionsOnlyGrow(cfg: Config, run: seq<Cluster>, moves: seq<Move>, i: nat, j: nat)
    requires IsRun(cfg, run, moves) && i <= j < |run|
    ensures run[i].look.version <= run[j].look.version
  {
    if i < j {
      VersionsOnlyGrow(cfg, run, moves, i, j - 1);
      ReachableStatesAreGood(cfg, run, moves, j - 1);
      hide Next, Invariant;
      StepKeeps(cfg, run[j - 1], run[j], moves[j - 1]);
    }
  }

  /**
   In every run: a ready sidecar that pulls consistent snapshots holds exactly the rules committed at its version,
   its version is at most the control plane's and never falls, and it waits for events only when it is ready.
   */
  lemma ReplicationIsSafe(cfg: Config, run: seq<Cluster>, moves: seq<Move>, i: nat)
    requires IsRun(cfg, run, moves) && i < |run|
    ensures var c := run[i];
      && |c.ctl.hist| == Current(c.ctl) + 1 && c.look.version <= Current(c.ctl)
      && (cfg.consistent && c.look.ready ==> c.look.rules == c.ctl.hist[c.look.version])
      && (c.phase == Receiving ==> c.look.ready)
    ensures forall j :: 0 <= j <= i ==> run[j].look.version <= run[i].look.version
  {
    ReachableStatesAreGood(cfg, run, moves, i);
    var c := run[i];
    if cfg.consistent && c.look.ready {
      MixBecomesExact(c.ctl, c.look.rules, c.base.0, c.base.1, c.look.version);
    }
    hide Invariant, Next;
    forall j | 0 <= j <= i
      ensures run[j].look.version <= run[i].look.version
    {
      VersionsOnlyGrow(cfg, run, moves, j, i);
    }
  }

  /**
   When the two reads of a snapshot may be torn apart, the rules are a mix until the version reaches the reading point:
   every rule touched since the snapshot's version is right, the others are as they were when read. From then on they are exact.
   */
  lemma TornSnapshotsHeal(cfg: Config, run: seq<Cluster>, moves: seq<Move>, i: nat)
    requires IsRun(cfg, run, moves) && i < |run| && run[i].look.ready
    ensures var c := run[i];
      && c.base.0 <= c.look.version <= Current(c.ctl) < |c.ctl.hist| && c.base.1 <= Current(c.ctl)
      && IsMix(c.ctl, c.look.rules, c.base.0, c.base.1, c.look.version)
      && (c.look.version >= c.base.1 ==> c.look.rules == c.ctl.hist[c.look.version])
  {
    ReachableStatesAreGood(cfg, run, moves, i);
    var c := run[i];
    if c.look.version >= c.base.1 {
      MixBecomesExact(c.ctl, c.look.rules, c.base.0, c.base.1, c.look.version);
    }
  }

  /** In every run a delta the hub dropped is never lost silently. */
  lemma DropsAreCovered(cfg: Config, run: seq<Cluster>, moves: seq<Move>, i: nat)
    requires IsRun(cfg, run, moves) && i < |run|
    ensures Covered(run[i])
  {
    ReachableStatesAreGood(cfg, run, moves, i);
  }

  /** The cluster after a boot that read version 0, then let the first write pass, and then read the rules. */
  function Torn(d: Delta, r: Rule, snap: ProtoSnapshot): seq<Cluster> {
    var c1 := START.(phase := Asking(true));
    var c2 := c1.(phase := Reading(true, 0));
    var c3 := c2.(ctl := Control([{}, {r}], [d]));
    var c4 := c3.(phase := Answered(true, 0, 1, snap));
    var c5 := c4.(look := Look({r}, 0, true), base := (0, 1), phase := Subscribing);
    [START, c1, c2, c3, c4, c5]
  }

  /** With torn reads, a ready sidecar can hold rules that its version never had: here the rules of version 1 under version 0. */
  lemma TornReadsShow(domain: string, bufSize: nat) returns (run: seq<Cluster>, moves: seq<Move>)
    ensures IsRun(Config(domain, bufSize, false), run, moves)
    ensures var c := run[|run| - 1]; c.look.ready && c.look.version < |c.ctl.hist| && c.look.rules != c.ctl.hist[c.look.version]
  {
    var r := Line("g", ["alice", "admin", domain, "", "", ""]);
    var d := Delta(1, [r], [], []);
    var snap := EncodeSnapshot(0, [r], []);
    run := Torn(d, r, snap);
    moves := [Boots, ReadsVersion, Writes(d, {r}), ReadsRules(snap), Applies(Look({r}, 0, true), true)];
    TornIsRun(Config(domain, bufSize, false), moves, d, snap, r);
    hide IsRun, EncodeSnapshot;
    assert r in {r};
  }

  lemma TornIsRun(cfg: Config, moves: seq<Move>, d: Delta, snap: ProtoSnapshot, r: Rule)
    requires !cfg.consistent && Sectioned(r) && d == Delta(1, [r], [], []) && snap == EncodeSnapshot(0, [r], [])
    requires moves == [Boots, ReadsVersion, Writes(d, {r}), ReadsRules(snap), Applies(Look({r}, 0, true), true)]
    ensures IsRun(cfg, Torn(d, r, snap), moves)
  {
    hide Next, IsRun, EncodeSnapshot;
    var run := Torn(d, r, snap);
    FirstSteps(cfg, run[1], run[2]);
    LastSteps(cfg, run[2], run[3], run[4], run[5], d, snap, r);
    FiveSteps(cfg, run, moves);
  }

  lemma FirstSteps(cfg: Config, c1: Cluster, c2: Cluster)
    requires c1 == START.(phase := Asking(true)) && c2 == c1.(phase := Reading(true, 0))
    ensures Next(cfg, START, c1, Boots) && Next(cfg, c1, c2, ReadsVersion)
  {
  }

  lemma LastSteps(cfg: Config, c2: Cluster, c3: Cluster, c4: Cluster, c5: Cluster, d: Delta, snap: ProtoSnapshot, r: Rule)
    requires !cfg.consistent && c2.phase == Reading(true, 0) && c2.ctl == Control([{}], []) && Sectioned(r)
    requires d == Delta(1, [r], [], []) && snap == EncodeSnapshot(0, [r], []) && c3 == c2.(ctl := Control([{}, {r}], [d]))
    requires c4 == c3.(phase := Answered(true, 0, 1, snap))
    requires c5 == c4.(look := Look({r}, 0, true), base := (0, 1), phase := Subscribing)
    ensures Next(cfg, c2, c3, Writes(d, {r})) && Next(cfg, c3, c4, ReadsRules(snap)) && Next(cfg, c4, c5, Applies(Look({r}, 0, true), true))
  {
    FirstWrite(c2, c3, d, r);
    TornRead(cfg, c3, c4, snap, r);
    TornApply(c4, c5, snap, r);
    hide Write, ReadRules, Apply, EncodeSnapshot;
  }

  lemma FiveSteps(cfg: Config, run: seq<Cluster>, moves: seq<Move>)
    requires |run| == 6 && |moves| == 5 && run[0] == START
    requires Next(cfg, run[0], run[1], moves[0]) && Next(cfg, run[1], run[2], moves[1]) && Next(cfg, run[2], run[3], moves[2])
    requires Next(cfg, run[3], run[4], moves[3]) && Next(cfg, run[4], run[5], moves[4])
    ensures IsRun(cfg, run, moves)
  {
    hide Next;
  }

  lemma FirstWrite(c: Cluster, c': Cluster, d: Delta, r: Rule)
    requires c.ctl == Control([{}], []) && d == Delta(1, [r], [], []) && Sectioned(r) && c' == c.(ctl := Control([{}, {r}], [d]))
    ensures Write(c, c', d, {r})
  {
    assert Elements(d.adds) == {r} && Elements(d.removes) == {};
  }

  lemma TornRead(cfg: Config, c: Cluster, c': Cluster, snap: ProtoSnapshot, r: Rule)
    requires !cfg.consistent && c.phase == Reading(true, 0) && |c.ctl.log| == 1 && c.ctl.hist == [{}, {r}]
    requires snap == EncodeSnapshot(0, [r], []) && c' == c.(phase := Answered(true, 0, 1, snap))
    ensures ReadRules(cfg, c, c', snap)
  {
    assert Elements([r]) == {r};
    assert SnapshotOf(c.ctl, 0, 1, snap);
  }

  lemma TornApply(c: Cluster, c': Cluster, snap: ProtoSnapshot, r: Rule)
    requires c.phase == Answered(true, 0, 1, snap) && snap == EncodeSnapshot(0, [r], []) && Sectioned(r)
    requires c' == c.(look := Look({r}, 0, true), base := (0, 1), phase := Subscribing)
    ensures Apply(c, c', Look({r}, 0, true), true)
  {
    PadUndoesTrim(r);
    assert Carries(snap, [r]) && Loaded([r]) == {r};
  }

  // ---------------------------------------------------------------- catching up

  /** The tenth heartbeat after the last write, once the queue and the wire are empty. */
  predicate Quiet(c: Cluster) {
    c.phase == Receiving && c.stream.queue == [] && c.wire == [] && (c.stream.ticks + 1) % RECONCILE_EVERY == 0
  }

  /** A sidecar that then handles the heartbeat is at the current version, or pulls. */
  lemma HeartbeatIsNoticed(cfg: Config, c: Cluster, c1: Cluster, c2: Cluster, look: Look)
    requires Invariant(cfg, c) && Quiet(c) && Beat(c, c1, true) && Receive(cfg, c1, c2, look)
    ensures c2.look == c.look && c2.ctl == c.ctl && c2.wire == []
    ensures (c2.phase == Receiving && c2.look.version == Current(c.ctl)) || c2.phase == Asking(false)
  {
    assert c1.wire == [HeartbeatEvent(Current(c.ctl))];
  }

  /** A pull without writes in between ends at the current version with exactly its rules, or reconnects. */
  lemma PullCatchesUp(cfg: Config, c: Cluster, c1: Cluster, c2: Cluster, c3: Cluster, snap: ProtoSnapshot, look: Look, ok: bool)
    requires Invariant(cfg, c) && ReadVersion(c, c1) && ReadRules(cfg, c1, c2, snap) && Apply(c2, c3, look, ok)
    ensures Invariant(cfg, c3)
    ensures c3.phase == Idle || (c3.look.ready && c3.look.version == Current(c.ctl) && c3.look.rules == c.ctl.hist[Current(c.ctl)])
  {
    PullStepsKeep(cfg, c, c1, snap);
    PullStepsKeep(cfg, c1, c2, snap);
    ApplyKeeps(cfg, c2, c3, look, ok);
    if ok {
      SnapshotVersion(c2.ctl, c2.phase.v, c2.phase.k, snap);
      MixBecomesExact(c3.ctl, c3.look.rules, c3.base.0, c3.base.1, c3.look.version);
    }
  }

  /**
   Once writes have stopped and the queue has drained, the next reconciling heartbeat leaves the sidecar at the current
   version with exactly its rules, torn snapshots included, or reconnecting.
   */
  lemma CatchesUp(cfg: Config, c: Cluster, c1: Cluster, c2: Cluster, look: Look,
                  c3: Cluster, c4: Cluster, c5: Cluster, snap: ProtoSnapshot, to: Look, ok: bool)
    requires Invariant(cfg, c) && Quiet(c) && Beat(c, c1, true) && Receive(cfg, c1, c2, look)
    requires c2.phase == Asking(false) ==> ReadVersion(c2, c3) && ReadRules(cfg, c3, c4, snap) && Apply(c4, c5, to, ok)
    requires c2.phase != Asking(false) ==> c5 == c2
    ensures c5.phase == Idle || (c5.look.version == Current(c.ctl) < |c.ctl.hist| && c5.look.rules == c.ctl.hist[Current(c.ctl)])
  {
    HeartbeatIsNoticed(cfg, c, c1, c2, look);
    BeatKeeps(cfg, c, c1, true);
    ReceiveKeeps(cfg, c1, c2, look);
    if c2.phase == Receiving {
      MixBecomesExact(c.ctl, c.look.rules, c.base.0, c.base.1, c.look.version);
    }
    hide Invariant, Quiet, Beat, Receive, ReadVersion, ReadRules, Apply;
    if c2.phase == Asking(false) {
      PullCatchesUp(cfg, c2, c3, c4, c5, snap, to, ok);
    }
  }
}
