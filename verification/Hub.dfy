/** The fan-out of one control-plane replica: bounded queues that overflow into a request for a snapshot. */
module Hub {

  import opened Iac
  import opened SyncClient

  // ---------------------------------------------------------------- one stream, as a value

  /** The undelivered events of a stream, its overflow flag, and what its send loop remembers. */
  datatype Stream = Stream(queue: seq<Event>, overflow: bool, lastVer: nat, ticks: nat)

  const RECONCILE_EVERY := 10

  /** A full queue drops the event and raises the flag instead. */
  function Offer(s: Stream, ev: Event, bufSize: nat): Stream {
    if |s.queue| < bufSize then s.(queue := s.queue + [ev]) else s.(overflow := true)
  }

  /** The next queued event; a delta is remembered as the last version. */
  function TakeEvent(s: Stream): (Stream, Event)
    requires s.queue != []
  {
    var ev := s.queue[0];
    (s.(queue := s.queue[1..], lastVer := if ev.DeltaEvent? then ev.d.version else s.lastVer), ev)
  }

  function TakeOverflow(s: Stream): (Stream, Event)
    requires s.overflow
  {
    (s.(overflow := false), SnapshotRequired(s.lastVer))
  }

  /** A heartbeat; every tenth one first reads the current version, when that read succeeds. */
  function Tick(s: Stream, read: Option<nat>): (Stream, Event) {
    var ticks := s.ticks + 1;
    var lastVer := if ticks % RECONCILE_EVERY == 0 && read.Some? then read.value else s.lastVer;
    (s.(ticks := ticks, lastVer := lastVer), HeartbeatEvent(lastVer))
  }

  // ---------------------------------------------------------------- no silent loss

  /** What happens to a stream: an event is offered, or its send loop takes one of its three branches. */
  datatype Act = Offered(ev: Event) | SentEvent | SentOverflow | Ticked(read: Option<nat>)

  predicate Enabled(s: Stream, a: Act) {
    match a
    case Offered(_) => true
    case SentEvent => s.queue != []
    case SentOverflow => s.overflow
    case Ticked(_) => true
  }

  /** A run so far. `kept` are the offered events that were not dropped; `owed` says that one was dropped since a snapshot was last asked for. */
  datatype Run = Run(s: Stream, offered: seq<Event>, kept: seq<Event>, forwarded: seq<Event>, sent: seq<Event>, owed: bool)

  function Did(r: Run, a: Act, bufSize: nat): Run
    requires Enabled(r.s, a)
  {
    match a
    case Offered(ev) =>
      var full := |r.s.queue| >= bufSize;
      r.(s := Offer(r.s, ev, bufSize), offered := r.offered + [ev], kept := if full then r.kept else r.kept + [ev], owed := r.owed || full)
    case SentEvent =>
      var (s, ev) := TakeEvent(r.s);
      r.(s := s, forwarded := r.forwarded + [ev], sent := r.sent + [ev])
    case SentOverflow =>
      var (s, ev) := TakeOverflow(r.s);
      r.(s := s, sent := r.sent + [ev], owed := false)
    case Ticked(read) =>
      var (s, ev) := Tick(r.s, read);
      r.(s := s, sent := r.sent + [ev])
  }

  /** `a` is what remains of `b` after dropping some of its elements. */
  ghost predicate Subsequence<T>(a: seq<T>, b: seq<T>)
    decreases |b|
  {
    if a == [] then true
    else if b == [] then false
    else if a[|a| - 1] == b[|b| - 1] && Subsequence(a[..|a| - 1], b[..|b| - 1]) then true
    else Subsequence(a, b[..|b| - 1])
  }

  lemma SubsequenceKeep<T>(a: seq<T>, b: seq<T>, x: T)
    requires Subsequence(a, b)
    ensures Subsequence(a + [x], b + [x])
  {
    assert (a + [x])[..|a|] == a && (b + [x])[..|b|] == b;
  }

  lemma SubsequenceSkip<T>(a: seq<T>, b: seq<T>, x: T)
    requires Subsequence(a, b)
    ensures Subsequence(a, b + [x])
  {
    assert (b + [x])[..|b|] == b;
  }

  /** What was kept is the forwarded events followed by the queue, in order; a drop leaves the flag up until it is sent. */
  ghost predicate RunInvariant(r: Run, bufSize: nat) {
    && r.kept == r.forwarded + r.s.queue && Subsequence(r.kept, r.offered)
    && |r.s.queue| <= bufSize && (r.owed ==> r.s.overflow)
  }

  lemma OfferKeepsRun(r: Run, ev: Event, bufSize: nat)
    requires RunInvariant(r, bufSize)
    ensures RunInvariant(Did(r, Offered(ev), bufSize), bufSize)
  {
    if |r.s.queue| < bufSize {
      SubsequenceKeep(r.kept, r.offered, ev);
    } else {
      SubsequenceSkip(r.kept, r.offered, ev);
    }
  }

  lemma SendKeepsRun(r: Run, bufSize: nat)
    requires RunInvariant(r, bufSize) && r.s.queue != []
    ensures RunInvariant(Did(r, SentEvent, bufSize), bufSize)
  {
    hide Subsequence;
    assert r.s.queue == [r.s.queue[0]] + r.s.queue[1..];
  }

  lemma RunInvariantKept(r: Run, a: Act, bufSize: nat)
    requires RunInvariant(r, bufSize) && Enabled(r.s, a)
    ensures RunInvariant(Did(r, a, bufSize), bufSize)
  {
    match a
    case Offered(ev) =>
      hide RunInvariant, Did;
      OfferKeepsRun(r, ev, bufSize);
    case SentEvent =>
      hide RunInvariant, Did;
      SendKeepsRun(r, bufSize);
    case SentOverflow =>
      hide Subsequence;
    case Ticked(_) =>
      hide Subsequence;
  }

  ghost predicate IsRun(acts: seq<Act>, bufSize: nat, from: Run, r: Run) {
    if acts == [] then r == from
    else exists mid :: IsRun(acts[..|acts| - 1], bufSize, from, mid) && Enabled(mid.s, acts[|acts| - 1])
                       && r == Did(mid, acts[|acts| - 1], bufSize)
  }

  function Fresh(current: nat): Run {
    Run(Stream([], false, current, 0), [], [], [], [], false)
  }

  /** In every run, the forwarded events are an ordered part of the offered ones, and the dropped ones are never silent. */
  lemma {:induction false} NothingIsLostSilently(acts: seq<Act>, bufSize: nat, current: nat, r: Run)
    requires IsRun(acts, bufSize, Fresh(current), r)
    ensures RunInvariant(r, bufSize)
    ensures r.forwarded <= r.kept && Subsequence(r.kept, r.offered)
    ensures r.owed ==> r.s.overflow
  {
    if acts != [] {
      var mid :| IsRun(acts[..|acts| - 1], bufSize, Fresh(current), mid) && Enabled(mid.s, acts[|acts| - 1])
        && r == Did(mid, acts[|acts| - 1], bufSize);
      NothingIsLostSilently(acts[..|acts| - 1], bufSize, current, mid);
      RunInvariantKept(mid, acts[|acts| - 1], bufSize);
    }
  }

  // ---------------------------------------------------------------- the hub

  class Subscriber {
    const app: nat
    var queue: seq<Event>
    var overflow: bool

    constructor (app: nat)
      ensures this.app == app && queue == [] && !overflow
    {
      this.app := app;
      queue, overflow := [], false;
    }
  }

  class Fanout {
    const bufSize: nat
    var streams: map<nat, set<Subscriber>>

    constructor (bufSize: nat)
      ensures this.bufSize == bufSize && streams == map[] && Valid()
    {
      this.bufSize := bufSize;
      streams := map[];
    }

    /** Streams are filed under their own app, and no app has an empty entry. */
    ghost predicate Valid()
      reads this
    {
      forall a | a in streams :: streams[a] != {} && forall s :: s in streams[a] ==> s.app == a
    }

    ghost function Of(app: nat): set<Subscriber>
      reads this
    {
      if app in streams then streams[app] else {}
    }

    method Register(app: nat) returns (s: Subscriber)
      requires Valid()
      modifies this
      ensures Valid() && fresh(s) && s.app == app && s.queue == [] && !s.overflow
      ensures Of(app) == old(Of(app)) + {s} && forall a :: a != app ==> Of(a) == old(Of(a))
    {
      s := new Subscriber(app);
      streams := streams[app := (if app in streams then streams[app] else {}) + {s}];
    }

    method Unregister(s: Subscriber)
      requires Valid()
      modifies this
      ensures Valid() && Of(s.app) == old(Of(s.app)) - {s} && forall a :: a != s.app ==> Of(a) == old(Of(a))
    {
      if s.app in streams {
        var rest := streams[s.app] - {s};
        if rest == {} {
          streams := streams - {s.app};
        } else {
          streams := streams[s.app := rest];
        }
      }
    }

    /** Offers the event to every stream of the app, without blocking. */
    method Dispatch(app: nat, ev: Event)
      requires Valid()
      modifies Of(app)
      ensures Valid() && streams == old(streams)
      ensures forall s :: s in Of(app) ==>
        Stream(s.queue, s.overflow, 0, 0) == Offer(Stream(old(s.queue), old(s.overflow), 0, 0), ev, bufSize)
      ensures forall s :: s in Of(app) ==>
        if old(|s.queue|) < bufSize then s.queue == old(s.queue) + [ev] && s.overflow == old(s.overflow)
        else s.queue == old(s.queue) && s.overflow
    {
      if app !in streams {
        return;
      }
      var todo := streams[app];
      while todo != {}
        invariant todo <= streams[app]
        invariant forall s :: s in todo ==> s.queue == old(s.queue) && s.overflow == old(s.overflow)
        invariant forall s :: s in streams[app] - todo ==>
          Stream(s.queue, s.overflow, 0, 0) == Offer(Stream(old(s.queue), old(s.overflow), 0, 0), ev, bufSize)
        decreases todo
      {
        var s :| s in todo;
        todo := todo - {s};
        if |s.queue| < bufSize {
          s.queue := s.queue + [ev];
        } else {
          s.overflow := true;
        }
      }
    }
  }

  /** The send loop of one stream. */
  class Sender {
    const sub: Subscriber
    var lastVer: nat
    var ticks: nat
    var sent: seq<Event>

    /** A stream starts at the version read before it was registered; a sidecar at any other version is told to pull. */
    constructor (sub: Subscriber, current: nat, lastApplied: nat)
      ensures this.sub == sub && lastVer == current && ticks == 0
      ensures sent == if current != lastApplied then [SnapshotRequired(current)] else []
    {
      this.sub := sub;
      lastVer, ticks := current, 0;
      sent := if current != lastApplied then [SnapshotRequired(current)] else [];
    }

    ghost function Now(): Stream
      reads this, sub
    {
      Stream(sub.queue, sub.overflow, lastVer, ticks)
    }

    method SendEvent()
      requires sub.queue != []
      modifies this, sub
      ensures Now() == TakeEvent(old(Now())).0 && sent == old(sent) + [TakeEvent(old(Now())).1]
      ensures [sent[|sent| - 1]] + sub.queue == old(sub.queue) && sub.overflow == old(sub.overflow)
      ensures lastVer == if old(sub.queue[0]).DeltaEvent? then old(sub.queue[0]).d.version else old(lastVer)
    {
      var ev := sub.queue[0];
      sub.queue := sub.queue[1..];
      if ev.DeltaEvent? {
        lastVer := ev.d.version;
      }
      sent := sent + [ev];
    }

    method SendOverflow()
      requires sub.overflow
      modifies this, sub
      ensures Now() == TakeOverflow(old(Now())).0 && sent == old(sent) + [TakeOverflow(old(Now())).1]
      ensures !sub.overflow && sub.queue == old(sub.queue) && lastVer == old(lastVer) && sent == old(sent) + [SnapshotRequired(lastVer)]
    {
      sub.overflow := false;
      sent := sent + [SnapshotRequired(lastVer)];
    }

    method SendHeartbeat(read: Option<nat>)
      modifies this
      ensures Now() == Tick(old(Now()), read).0 && sent == old(sent) + [Tick(old(Now()), read).1]
      ensures sent == old(sent) + [HeartbeatEvent(lastVer)] && ticks == old(ticks) + 1
      ensures lastVer == if ticks % 10 == 0 && read.Some? then read.value else old(lastVer)
    {
      ticks := ticks + 1;
      if ticks % RECONCILE_EVERY == 0 && read.Some? {
        lastVer := read.value;
      }
      sent := sent + [HeartbeatEvent(lastVer)];
    }
  }
}
