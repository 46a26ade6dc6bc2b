/** The state one application keeps in the control plane, and what a committed write does to it. */
module VersionedWrite {

  import opened Graph
  import opened Rules
  import opened Tables
  import opened DataRows
  import opened Projection
  import opened Iac

  /** One committed write, as it is stored in the outbox and sent to sidecars. */
  datatype Delta = Delta(version: nat, adds: seq<Rule>, removes: seq<Rule>, changes: seq<DataPolicyChange>)

  datatype Action = Action(name: string, entityType: string, entityId: string)

  datatype AuditRow = AuditRow(what: Action, delta: Delta)

  datatype App = App(t: Tables, rules: set<Rule>, version: nat, outbox: seq<Delta>, audit: seq<AuditRow>)

  /** The rules, the data policies and the tables that every version so far was committed with. */
  datatype Past = Past(rules: seq<set<Rule>>, policies: seq<map<nat, DataPolicy>>, tables: seq<Tables>)

  /** The delta adds only rules that are missing and removes only rules that are there. */
  ghost predicate ExactDelta(before: set<Rule>, d: Delta, after: set<Rule>) {
    && Elements(d.adds) !! before && Elements(d.removes) <= before
    && after == (before - Elements(d.removes)) + Elements(d.adds)
  }

  /** Applying the removes first or the adds first makes no difference to an exact delta. */
  lemma OrderDoesNotMatter(before: set<Rule>, d: Delta, after: set<Rule>)
    requires ExactDelta(before, d, after)
    ensures (before + Elements(d.adds)) - Elements(d.removes) == (before - Elements(d.removes)) + Elements(d.adds) == after
    ensures Elements(d.adds) !! Elements(d.removes)
  {
    forall r | r in d.removes
      ensures r !in Elements(d.adds)
    {
      assert r in before;
    }
  }

  ghost predicate StepRecorded(a: App, past: Past, v: nat)
    requires v < |a.outbox| && v < |a.audit| && v + 1 < |past.rules| && v + 1 < |past.policies|
  {
    && a.outbox[v].version == v + 1 && a.audit[v].delta == a.outbox[v]
    && ExactDelta(past.rules[v], a.outbox[v], past.rules[v + 1])
    && Replay(past.policies[v], a.outbox[v].changes) == past.policies[v + 1]
  }

  /**
   Versions are contiguous, every version has one outbox row and one audit row, and its delta leads to it exactly;
   all rules there ever were are permissions or role links.
   */
  ghost predicate Recorded(a: App, past: Past) {
    && |a.outbox| == |a.audit| == a.version && |past.rules| == |past.policies| == |past.tables| == a.version + 1
    && past.rules[a.version] == a.rules && past.policies[a.version] == View(a.t.data)
    && (forall v: nat | v < a.version :: StepRecorded(a, past, v))
    && forall v: nat | v <= a.version :: AllSectioned(past.rules[v])
  }

  /** What every reachable state keeps of the tables. */
  ghost predicate SoundTables(t: Tables) {
    WellFormed(t) && Acyclic(t.inherits)
  }

  /** The rules of every version are the projection of the tables it was committed with. */
  ghost predicate Mirrored(past: Past, domain: string) {
    |past.tables| == |past.rules| && forall v: nat | v < |past.rules| :: MirroredAt(past, domain, v)
  }

  ghost predicate MirroredAt(past: Past, domain: string, v: nat)
    requires v < |past.rules| == |past.tables|
  {
    SoundTables(past.tables[v]) && past.rules[v] == Project(past.tables[v], domain)
  }

  datatype WriteError =
    | Faulted
    | Cycle
    | Store(store: StoreError)
    | Undeclared(code: string)
    | InvalidInput
    | InvalidDocument
    | DuplicateKeys
    | Conflicting
    | NotApplied

  ghost predicate SameKeys(current: set<Rule>, desired: set<Rule>) {
    IsKeyDifference(desired, current, []) && IsKeyDifference(current, desired, [])
  }

  ghost predicate IsDelta(a: App, desired: set<Rule>, changes: seq<DataPolicyChange>, d: Delta) {
    && d.version == a.version + 1 && d.changes == changes
    && IsKeyDifference(desired, a.rules, d.adds) && IsKeyDifference(a.rules, desired, d.removes)
    && (d.adds != [] || d.removes != [] || changes != [])
  }

  /** The state after a write that left the tables at `t` and reported `changes`: a new version, or only new tables. */
  ghost predicate Committed(a: App, a': App, domain: string, t: Tables, changes: seq<DataPolicyChange>, what: Action, d: Option<Delta>) {
    match d
    case None => a' == a.(t := t) && changes == [] && SameKeys(a.rules, Project(t, domain))
    case Some(delta) =>
      && IsDelta(a, Project(t, domain), changes, delta)
      && a' == App(t, (a.rules - Elements(delta.removes)) + Elements(delta.adds), delta.version,
                   a.outbox + [delta], a.audit + [AuditRow(what, delta)])
  }

  /** A data-policy write: always a new version, never another rule. */
  ghost predicate CommittedData(a: App, a': App, t: Tables, changes: seq<DataPolicyChange>, what: Action, d: Delta) {
    && d == Delta(a.version + 1, [], [], changes)
    && a' == App(t, a.rules, d.version, a.outbox + [d], a.audit + [AuditRow(what, d)])
  }

  ghost function Extended(past: Past, a: App): Past {
    Past(past.rules + [a.rules], past.policies + [View(a.t.data)], past.tables + [a.t])
  }

  lemma MirroredMore(past: Past, a: App, domain: string)
    requires Mirrored(past, domain) && SoundTables(a.t) && a.rules == Project(a.t, domain)
    ensures Mirrored(Extended(past, a), domain)
  {
    hide SoundTables, Project;
    var more := Extended(past, a);
    forall v: nat | v < |more.rules|
      ensures MirroredAt(more, domain, v)
    {
      if v < |past.rules| {
        assert MirroredAt(past, domain, v);
      }
    }
  }

  lemma ProjectionIsSectioned(t: Tables, domain: string)
    ensures AllSectioned(Project(t, domain))
  {
  }

  lemma CommitStaysSectioned(current: set<Rule>, domain: string, t: Tables, d: Delta)
    requires AllSectioned(current) && IsKeyDifference(Project(t, domain), current, d.adds)
    ensures AllSectioned((current - Elements(d.removes)) + Elements(d.adds))
  {
    ProjectionIsSectioned(t, domain);
    hide Project, Sectioned;
  }

  lemma KeyDifferenceIsExact(current: set<Rule>, desired: set<Rule>, d: Delta)
    requires IsKeyDifference(desired, current, d.adds) && IsKeyDifference(current, desired, d.removes)
    ensures ExactDelta(current, d, (current - Elements(d.removes)) + Elements(d.adds))
  {
    forall r | r in d.adds
      ensures r !in current
    {
    }
  }

  lemma {:induction false} RecordMore(a: App, a': App, past: Past, past': Past, d: Delta, row: AuditRow)
    requires Recorded(a, past) && d.version == a.version + 1 == a'.version && row.delta == d
    requires a'.outbox == a.outbox + [d] && a'.audit == a.audit + [row] && past' == Extended(past, a')
    requires ExactDelta(a.rules, d, a'.rules) && Replay(View(a.t.data), d.changes) == View(a'.t.data) && AllSectioned(a'.rules)
    ensures Recorded(a', past')
  {
    hide AllSectioned, ExactDelta, Replay, View;
    forall v: nat | v < a'.version
      ensures StepRecorded(a', past', v)
    {
      if v < a.version {
        assert StepRecorded(a, past, v);
      }
    }
  }

  /** A committed write keeps the record, whatever the tables hold. */
  lemma CommitKeepsRecord(a: App, a': App, past: Past, domain: string, t: Tables, changes: seq<DataPolicyChange>, what: Action, d: Option<Delta>)
    requires Recorded(a, past) && Committed(a, a', domain, t, changes, what, d) && Explains(View(a.t.data), changes, t.data)
    ensures Recorded(a', if d.Some? then Extended(past, a') else past)
  {
    match d
    case None =>
      forall v: nat | v < a'.version
        ensures StepRecorded(a', past, v)
      {
        assert StepRecorded(a, past, v);
      }
    case Some(delta) =>
      KeyDifferenceIsExact(a.rules, Project(t, domain), delta);
      CommitStaysSectioned(a.rules, domain, t, delta);
      hide Project, IsKeyDifference, AllSectioned;
      RecordMore(a, a', past, Extended(past, a'), delta, AuditRow(what, delta));
  }

  lemma CommitDataKeepsRecord(a: App, a': App, past: Past, t: Tables, changes: seq<DataPolicyChange>, what: Action, d: Delta)
    requires Recorded(a, past) && CommittedData(a, a', t, changes, what, d) && Explains(View(a.t.data), changes, t.data)
    ensures Recorded(a', Extended(past, a'))
  {
    RecordMore(a, a', past, Extended(past, a'), d, AuditRow(what, d));
  }

  lemma SetAlgebra<T>(current: set<T>, desired: set<T>, adds: set<T>, removes: set<T>)
    requires adds <= desired - current && removes <= current - desired
    ensures (current - removes) + adds == desired <==> adds == desired - current && removes == current - desired
  {
    if (current - removes) + adds == desired {
      assert forall x :: x in desired - current ==> x in adds;
      assert forall x :: x in current - desired ==> x in removes;
    }
  }

  lemma KeyDifferenceWithin(current: set<Rule>, desired: set<Rule>, adds: seq<Rule>)
    requires IsKeyDifference(desired, current, adds)
    ensures Elements(adds) <= desired - current
  {
  }

  /** After a committed write the rules are the projection of the tables exactly when no changed rule shares its key. */
  lemma CommitProjects(a: App, a': App, domain: string, t: Tables, changes: seq<DataPolicyChange>, what: Action, d: Option<Delta>)
    requires Committed(a, a', domain, t, changes, what, d)
    ensures a'.rules == Project(t, domain) <==> NoClash(a.rules, Project(t, domain))
  {
    var desired := Project(t, domain);
    var adds := if d.Some? then d.value.adds else [];
    var removes := if d.Some? then d.value.removes else [];
    assert IsKeyDifference(desired, a.rules, adds) && IsKeyDifference(a.rules, desired, removes);
    assert a'.rules == (a.rules - Elements(removes)) + Elements(adds);
    hide Project;
    KeyDifferenceWithin(a.rules, desired, adds);
    KeyDifferenceWithin(desired, a.rules, removes);
    DiffExactIffNoClash(a.rules, desired, adds, removes);
    SetAlgebra(a.rules, desired, Elements(adds), Elements(removes));
  }

  /** Tables without the separator character project to rules that never clash. */
  ghost predicate CleanTables(t: Tables) {
    && (forall g | g in t.grants :: SeparatorFree(g.role) && SeparatorFree(t.grants[g]))
    && (forall code | code in t.permissions :: SeparatorFree(t.permissions[code].resource) && SeparatorFree(t.permissions[code].action))
    && (forall e | e in t.inherits :: SeparatorFree(e.src) && SeparatorFree(e.dst))
    && (forall b | b in t.bindings :: SeparatorFree(b.user) && SeparatorFree(b.role))
  }

  lemma CleanProjection(t: Tables, domain: string)
    requires CleanTables(t) && SeparatorFree(domain)
    ensures forall r | r in Project(t, domain) :: CleanRule(r)
  {
    forall r | r in Project(t, domain)
      ensures CleanRule(r)
    {
      if r in PermissionRules(t, domain) {
        var g :| g in t.grants && g.role in t.roles && g.permission in t.permissions &&
          r == PermissionRule(g.role, domain, t.permissions[g.permission], t.grants[g]);
      } else if r in BindingRules(t, domain) {
        var b :| b in t.bindings && r == GroupingRule(b.user, b.role, domain);
      } else {
        var e :| e in t.inherits && r == GroupingRule(e.src, e.dst, domain);
      }
    }
  }

  /** A write between tables without separators never meets a clash. */
  lemma CleanTablesNeverClash(t: Tables, t': Tables, domain: string)
    requires CleanTables(t) && CleanTables(t') && SeparatorFree(domain)
    ensures NoClash(Project(t, domain), Project(t', domain))
  {
    CleanProjection(t, domain);
    CleanProjection(t', domain);
    hide Project, CleanRule;
    CleanRulesNeverClash(Project(t, domain), Project(t', domain));
  }

  /** One role with one allow grant on one permission. */
  function OneGrantTables(p: Permission): Tables {
    Tables(map["doc" := p], map["admin" := Role("Admin", "", MANUAL)], map[Grant("admin", "doc") := ALLOW], {}, {}, map[], 1)
  }

  lemma OneGrantProjects(p: Permission, domain: string)
    ensures SoundTables(OneGrantTables(p))
    ensures Project(OneGrantTables(p), domain) == {PermissionRule("admin", domain, p, ALLOW)}
  {
    var t, g := OneGrantTables(p), Grant("admin", "doc");
    var r := PermissionRule("admin", domain, p, ALLOW);
    assert g in t.grants && r in PermissionRules(t, domain);
  }

  /**
   Once a value may contain the separator, a write can be missed: the permission row changes, its rule changes, the keys
   stay the same, and the write commits the new tables under the old rules.
   */
  lemma SeparatorClash(domain: string) returns (t: Tables, t': Tables, p: Permission)
    ensures SoundTables(t) && t' == UpsertPermission(t, "doc", p)
    ensures Project(t, domain) != Project(t', domain) && !NoClash(Project(t, domain), Project(t', domain))
    ensures forall a: App, what | a.t == t && a.rules == Project(t, domain) :: Committed(a, a.(t := t'), domain, t', [], what, None)
  {
    var s := [UNIT_SEPARATOR];
    var q := Permission("a" + s + "b", "c", "api", "Read", "", MANUAL);
    p := Permission("a", "b" + s + "c", "api", "Read", "", MANUAL);
    t, t' := OneGrantTables(q), OneGrantTables(p);
    OneGrantProjects(q, domain);
    OneGrantProjects(p, domain);
    hide Project, SoundTables, NoClash, SameKeys, RuleKey;
    assert t' == UpsertPermission(t, "doc", p);
    hide OneGrantTables, UpsertPermission;
    var before, after := PermissionRule("admin", domain, q, ALLOW), PermissionRule("admin", domain, p, ALLOW);
    SeparatorMoves(before, after);
    assert before.v[2] != after.v[2];
    OneKeyClashes(before, after);
  }

  lemma OneKeyClashes(a: Rule, b: Rule)
    requires a != b && RuleKey(a) == RuleKey(b)
    ensures {a} != {b} && !NoClash({a}, {b}) && SameKeys({a}, {b})
  {
    hide RuleKey;
    assert a in {a} && a !in {b};
    assert a in ({b} - {a}) + ({a} - {b}) && b in {a} + {b};
  }

  /** A separator that moves from the end of one column to the start of the next leaves the key alone. */
  lemma SeparatorMoves(a: Rule, b: Rule)
    requires a.ptype == b.ptype && a.v[..2] == b.v[..2] && a.v[4..] == b.v[4..]
    requires a.v[2] + [UNIT_SEPARATOR] + a.v[3] == b.v[2] + [UNIT_SEPARATOR] + b.v[3]
    ensures RuleKey(a) == RuleKey(b)
  {
    var s := [UNIT_SEPARATOR];
    forall v: seq<string> | v == a.v || v == b.v
      ensures Joined(v) == s + v[..2][0] + (s + v[..2][1] + (s + (v[2] + s + v[3]) + Joined(v[4..])))
    {
      assert v[1..][1..] == v[2..] && v[2..][1..] == v[3..] && v[3..][1..] == v[4..];
      assert Joined(v) == s + v[0] + Joined(v[1..]);
      assert Joined(v[1..]) == s + v[1] + Joined(v[2..]);
      assert Joined(v[2..]) == s + v[2] + Joined(v[3..]);
      assert Joined(v[3..]) == s + v[3] + Joined(v[4..]);
      assert s + v[2] + (s + v[3] + Joined(v[4..])) == s + (v[2] + s + v[3]) + Joined(v[4..]);
    }
  }
}
