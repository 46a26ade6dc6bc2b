/** The client's methods as moves of the replication state machine. */
module ClientMoves {

  import opened Rules
  import Iac
  import opened Wire
  import opened Engine
  import opened SyncClient
  import Hub
  import opened Replication

  /** A piece of a run. */
  ghost predicate Steps(cfg: Config, run: seq<Cluster>, moves: seq<Move>) {
    |run| == |moves| + 1 && forall i :: 0 <= i < |moves| ==> Next(cfg, run[i], run[i + 1], moves[i])
  }

  ghost predicate Leads(cfg: Config, c: Cluster, c': Cluster, run: seq<Cluster>, moves: seq<Move>) {
    Steps(cfg, run, moves) && run[0] == c && run[|run| - 1] == c'
  }

  lemma OneMove(cfg: Config, c: Cluster, c': Cluster, m: Move)
    requires Next(cfg, c, c', m)
    ensures Leads(cfg, c, c', [c, c'], [m])
  {
    hide Next;
  }

  lemma ThenMove(cfg: Config, c: Cluster, mid: Cluster, c': Cluster, run: seq<Cluster>, moves: seq<Move>, m: Move)
    requires Leads(cfg, c, mid, run, moves) && Next(cfg, mid, c', m)
    ensures Leads(cfg, c, c', run + [c'], moves + [m])
  {
    hide Next;
    var longer, more := run + [c'], moves + [m];
    forall i | 0 <= i < |more|
      ensures Next(cfg, longer[i], longer[i + 1], more[i])
    {
      assert longer[i] == run[i] && (i < |moves| ==> longer[i + 1] == run[i + 1]);
    }
  }

  /** What the control plane answers to a pull during which nothing is committed. */
  ghost predicate Answers(c: Cluster, pull: Iac.Option<ProtoSnapshot>) {
    Current(c.ctl) < |c.ctl.hist| && (pull.Some? ==> SnapshotOf(c.ctl, Current(c.ctl), Current(c.ctl), pull.value))
  }

  /** Where a pull leaves the cluster. */
  ghost function Pulled(c: Cluster, look: Look, boot: bool, ok: bool): Cluster {
    if ok then c.(look := look, base := (Current(c.ctl), Current(c.ctl)), phase := if boot then Subscribing else Receiving)
    else Gone(c).(look := look)
  }

  /** A pull is a read of the version, a read of the rules and an apply, or it breaks. */
  lemma PullIsMoves(cfg: Config, c: Cluster, look: Look, pull: Iac.Option<ProtoSnapshot>, ok: bool) returns (run: seq<Cluster>, moves: seq<Move>)
    requires c.phase.Asking? && Answers(c, pull) && Resynced(c.look, look, pull, ok)
    ensures Leads(cfg, c, Pulled(c, look, c.phase.boot, ok), run, moves)
  {
    var boot, v := c.phase.boot, Current(c.ctl);
    var last := Pulled(c, look, boot, ok);
    if pull.None? {
      run, moves := [c, last], [Breaks];
      OneMove(cfg, c, last, Breaks);
    } else {
      var c1 := c.(phase := Reading(boot, v));
      var c2 := c.(phase := Answered(boot, v, v, pull.value));
      assert ReadVersion(c, c1) && ReadRules(cfg, c1, c2, pull.value) && Apply(c2, last, look, ok);
      hide Leads, ReadVersion, ReadRules, Apply;
      OneMove(cfg, c, c1, ReadsVersion);
      ThenMove(cfg, c, c1, c2, [c, c1], [ReadsVersion], ReadsRules(pull.value));
      ThenMove(cfg, c, c2, last, [c, c1] + [c2], [ReadsVersion] + [ReadsRules(pull.value)], Applies(look, ok));
      run, moves := [c, c1] + [c2] + [last], [ReadsVersion] + [ReadsRules(pull.value)] + [Applies(look, ok)];
    }
  }

  lemma LeadsJoin(cfg: Config, c: Cluster, mid: Cluster, c': Cluster, m: Move, run: seq<Cluster>, moves: seq<Move>)
    requires Next(cfg, c, mid, m) && Leads(cfg, mid, c', run, moves)
    ensures Leads(cfg, c, c', [c] + run, [m] + moves)
  {
    hide Next;
    var longer, more := [c] + run, [m] + moves;
    forall i | 0 <= i < |more|
      ensures Next(cfg, longer[i], longer[i + 1], more[i])
    {
      assert longer[i + 1] == run[i] && (i > 0 ==> longer[i] == run[i - 1] && more[i] == moves[i - 1]);
    }
  }

  /** Where handling the next event leaves the cluster: still receiving, or disconnected. */
  ghost predicate HandledTo(c: Cluster, c': Cluster, look: Look, ok: bool)
    requires c.wire != []
  {
    && c'.look == look && c'.ctl == c.ctl && c'.published == c.published
    && if ok then c'.phase == Receiving && c'.wire == c.wire[1..] && c'.stream == c.stream
       else c'.phase == Idle && c'.wire == [] && c'.stream == NO_STREAM
  }

  /** Pulling because of an event. */
  lemma PullingIsMoves(cfg: Config, c: Cluster, mid: Look, look: Look, pull: Iac.Option<ProtoSnapshot>, ok: bool)
      returns (c': Cluster, run: seq<Cluster>, moves: seq<Move>)
    requires c.phase == Receiving && c.wire != [] && Answers(c, pull) && Resynced(mid, look, pull, ok)
    requires Receive(cfg, c, c.(wire := c.wire[1..], look := mid, phase := Asking(false)), mid)
    ensures Leads(cfg, c, c', run, moves) && HandledTo(c, c', look, ok)
  {
    hide Receive, Resynced, SnapshotOf;
    var asking := c.(wire := c.wire[1..], look := mid, phase := Asking(false));
    run, moves := PullIsMoves(cfg, asking, look, pull, ok);
    c' := Pulled(asking, look, false, ok);
    LeadsJoin(cfg, c, asking, c', Receives(mid), run, moves);
    run, moves := [c] + run, [Receives(mid)] + moves;
  }

  /** Whatever the client's handling of its next event does, the state machine does in one or several moves. */
  lemma HandledIsMoves(cfg: Config, c: Cluster, look: Look, pull: Iac.Option<ProtoSnapshot>, ok: bool)
      returns (c': Cluster, run: seq<Cluster>, moves: seq<Move>)
    requires c.phase == Receiving && c.wire != [] && Answers(c, pull) && Handled(cfg.domain, c.look, look, c.wire[0], pull, ok)
    ensures Leads(cfg, c, c', run, moves) && HandledTo(c, c', look, ok)
  {
    hide Resynced, Applied, SnapshotOf, Leads;
    var ev := c.wire[0];
    var rest := c.(wire := c.wire[1..]);
    if Resynced(c.look, look, pull, ok) && Receive(cfg, c, rest.(phase := Asking(false)), c.look) {
      assert rest.(phase := Asking(false)) == c.(wire := c.wire[1..], look := c.look, phase := Asking(false));
      c', run, moves := PullingIsMoves(cfg, c, c.look, look, pull, ok);
    } else if ok && Receive(cfg, c, rest.(look := look), look) {
      c', run, moves := rest.(look := look), [c, rest.(look := look)], [Receives(look)];
      OneMove(cfg, c, c', Receives(look));
    } else {
      var d := ev.d;
      var mid :| Interrupted(c.look, mid) && (d.version > c.look.version + 1 ==> mid == c.look) && Resynced(mid, look, pull, ok);
      c', run, moves := PullingIsMoves(cfg, c, mid, look, pull, ok);
    }
  }

  /** Bootstrapping and subscribing are moves as well. */
  lemma BootIsMoves(cfg: Config, c: Cluster, look: Look, pull: Iac.Option<ProtoSnapshot>, ok: bool)
      returns (c': Cluster, run: seq<Cluster>, moves: seq<Move>)
    requires c.phase == Idle && Answers(c, pull) && Resynced(c.look, look, pull, ok)
    ensures Leads(cfg, c, c', run, moves) && c'.look == look && c'.ctl == c.ctl && c'.published == c.published
    ensures if ok then c'.phase == Receiving && c'.stream == Hub.Stream([], false, Current(c.ctl), 0) && c'.wire == [] else c'.phase == Idle
  {
    var asking := c.(phase := Asking(true));
    var pulled := Pulled(asking, look, true, ok);
    assert StartBoot(c, asking);
    if ok {
      SnapshotVersion(c.ctl, Current(c.ctl), Current(c.ctl), pull.value);
      assert look.version == Current(c.ctl);
    }
    run, moves := PullIsMoves(cfg, asking, look, pull, ok);
    hide Leads, Resynced, SnapshotOf;
    LeadsJoin(cfg, c, asking, pulled, Boots, run, moves);
    run, moves, c' := [c] + run, [Boots] + moves, pulled;
    if ok {
      var joining := pulled.(phase := Joining(Current(c.ctl)));
      var joined := joining.(phase := Receiving, stream := Hub.Stream([], false, Current(c.ctl), 0), dropped := 0, wire := []);
      assert Subscribe(pulled, joining) && Register(joining, joined);
      ThenMove(cfg, c, pulled, joining, run, moves, Subscribes);
      ThenMove(cfg, c, joining, joined, run + [joining], moves + [Subscribes], Registers);
      run, moves, c' := run + [joining] + [joined], moves + [Subscribes] + [Registers], joined;
    }
  }

  lemma RunGoesOn(cfg: Config, run: seq<Cluster>, moves: seq<Move>, c: Cluster, c': Cluster, more: seq<Cluster>, after: seq<Move>)
    requires IsRun(cfg, run, moves) && c == run[|run| - 1] && Leads(cfg, c, c', more, after)
    ensures IsRun(cfg, run + more[1..], moves + after) && (run + more[1..])[|moves + after|] == c'
  {
    hide Next;
    var all, ms := run + more[1..], moves + after;
    forall i | 0 <= i < |ms|
      ensures Next(cfg, all[i], all[i + 1], ms[i])
    {
      if i < |moves| {
        assert all[i] == run[i] && all[i + 1] == run[i + 1];
      } else {
        var k := i - |moves|;
        assert all[i] == more[k] && all[i + 1] == more[k + 1] && ms[i] == after[k];
      }
    }
  }

  /**
   A client at the end of any run that handles its next event stays on a run: with consistent snapshots its kernel, when ready,
   holds exactly the rules committed at its version, which has not gone back.
   */
  lemma HandlingIsSafe(cfg: Config, run: seq<Cluster>, moves: seq<Move>, look: Look, pull: Iac.Option<ProtoSnapshot>, ok: bool)
    requires IsRun(cfg, run, moves) && cfg.consistent
    requires var c := run[|moves|]; c.phase == Receiving && c.wire != [] && Answers(c, pull) && Handled(cfg.domain, c.look, look, c.wire[0], pull, ok)
    ensures var c := run[|moves|]; c.look.version <= look.version <= Current(c.ctl) < |c.ctl.hist|
    ensures look.ready ==> look.rules == run[|moves|].ctl.hist[look.version]
  {
    var c := run[|moves|];
    var c', more, after := HandledIsMoves(cfg, c, look, pull, ok);
    hide Handled, Answers, Next;
    RunGoesOn(cfg, run, moves, c, c', more, after);
    var all, ms := run + more[1..], moves + after;
    assert all[|ms|] == c' && all[|moves|] == c;
    hide IsRun, Leads;
    ReplicationIsSafe(cfg, all, ms, |ms|);
  }
}
