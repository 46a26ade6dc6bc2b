/** From a committed write to a sidecar's answer. */
module EndToEnd {

  import opened Rules
  import opened Tables
  import opened Iac
  import opened Projection
  import opened Enforcement
  import opened VersionedWrite
  import opened PolicyManager
  import opened Engine
  import opened Replication

  /** What replication sees of the write engine's record: the rules of every version and the outbox. */
  ghost function History(a: App, past: Past): Control {
    Control(past.rules, a.outbox)
  }

  /** The history that replication starts from is the one the write engine records. */
  lemma RecordIsFaithful(a: App, past: Past)
    requires Recorded(a, past)
    ensures Faithful(History(a, past))
  {
    forall v | 0 <= v < |a.outbox|
      ensures a.outbox[v].version == v + 1 && ExactDelta(past.rules[v], a.outbox[v], past.rules[v + 1])
    {
      assert StepRecorded(a, past, v);
    }
  }

  /** A committed write is a write step of the cluster, and keeps the match between record and history. */
  lemma CommitIsWrite(a: App, a': App, past: Past, domain: string, t: Tables, what: Action, d: Delta, c: Cluster)
    requires Recorded(a, past) && c.ctl == History(a, past)
    requires Committed(a, a', domain, t, d.changes, what, Some(d))
    ensures Write(c, c.(ctl := History(a', Extended(past, a'))), d, a'.rules)
  {
    hide Project, IsKeyDifference, Sectioned;
    KeyDifferenceIsExact(a.rules, Project(t, domain), d);
    assert AllSectioned(past.rules[a.version]);
    CommitStaysSectioned(a.rules, domain, t, d);
  }

  /** So is a committed data-policy write: its delta has no rules. */
  lemma DataCommitIsWrite(a: App, a': App, past: Past, t: Tables, what: Action, d: Delta, c: Cluster)
    requires Recorded(a, past) && c.ctl == History(a, past)
    requires CommittedData(a, a', t, d.changes, what, d)
    ensures Write(c, c.(ctl := History(a', Extended(past, a'))), d, a'.rules)
  {
    assert Elements(d.adds) == {} && Elements(d.removes) == {};
    assert AllSectioned(past.rules[a.version]);
  }

  /** The cluster's control plane is this store. */
  ghost predicate Serves(store: AppStore, c: Cluster)
    reads store
  {
    c.ctl == History(store.State(), store.past)
  }

  /** Whatever the store writes, the cluster it serves makes no move or one write move, and is served by the new store. */
  twostate lemma StoreWritesAreMoves(store: AppStore, effect: Effect, what: Action, fault: bool, r: Result<Option<Delta>, WriteError>, c: Cluster, c': Cluster)
    requires old(store.Valid()) && store.Wrote(effect, what, fault, r)
    requires old(Serves(store, c)) && c' == c.(ctl := History(store.State(), store.past))
    ensures if r.Success? && r.value.Some? then Write(c, c', r.value.value, store.rules) else c' == c
  {
    hide SoundTables, Project, Mirrored, StepRecorded, AllSectioned, IsKeyDifference;
    if r.Success? && r.value.Some? {
      CommitIsWrite(old(store.State()), store.State(), old(store.past), store.domain, effect.value.0, what, r.value.value, c);
      assert store.past.rules == old(store.past).rules + [store.rules];
    } else {
      assert store.past.rules == old(store.past).rules;
    }
  }

  /** A data-policy write of the store is a write move without rules, or none when it fails. */
  twostate lemma StoreDataWritesAreMoves(store: AppStore, effect: Effect, what: Action, fault: bool, r: Result<Delta, WriteError>, c: Cluster, c': Cluster)
    requires old(store.Valid()) && store.WroteData(effect, what, fault, r)
    requires old(Serves(store, c)) && c' == c.(ctl := History(store.State(), store.past))
    ensures if r.Success? then Write(c, c', r.value, store.rules) && r.value.adds == r.value.removes == [] else c' == c
  {
    hide SoundTables, Project, Mirrored, StepRecorded, AllSectioned;
    if r.Success? {
      DataCommitIsWrite(old(store.State()), store.State(), old(store.past), effect.value.0, what, r.value, c);
      assert store.past.rules == old(store.past).rules + [store.rules];
    }
  }

  /**
   While the store has met no clash, a ready sidecar answers for every user whose name is harmless as the tables
   committed with its version do: some held role is granted the permission and no held role is denied it.
   At the store's current version those are the answers of the current tables.
   */
  lemma ReadySidecarAnswersAsTables(store: AppStore, cfg: Config, run: seq<Cluster>, moves: seq<Move>, i: nat,
                                    user: string, obj: string, act: string)
    requires store.Valid() && store.clean && store.domain == cfg.domain
    requires IsRun(cfg, run, moves) && i < |run| && cfg.consistent && run[i].look.ready && Serves(store, run[i])
    ensures run[i].look.version <= store.version && store.version < |store.past.tables|
    ensures var t := store.past.tables[run[i].look.version];
      NamesHarmless(t, user) ==> (Answer(run[i].look.rules, (user, cfg.domain, obj, act)) <==> TablesAllow(t, user, obj, act))
    ensures run[i].look.version == store.version && NamesHarmless(store.t, user) ==>
      (Answer(run[i].look.rules, (user, cfg.domain, obj, act)) <==> TablesAllow(store.t, user, obj, act))
  {
    hide IsRun, Project, TablesAllow, Decide, NamesHarmless, StepRecorded, WellFormed;
    ReplicationIsSafe(cfg, run, moves, i);
    var v := run[i].look.version;
    assert MirroredAt(store.past, store.domain, v);
    if NamesHarmless(store.past.tables[v], user) {
      DecideMeansTablesAllow(store.past.tables[v], cfg.domain, user, obj, act);
    }
    if v == store.version && NamesHarmless(store.t, user) {
      DecideMeansTablesAllow(store.t, cfg.domain, user, obj, act);
    }
  }
}
