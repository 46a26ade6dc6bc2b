/** What the tables keep through an import, and how the plan shows its conflicts. */
module ImportOutcome {

  import opened Graph
  import opened Sorting
  import opened Tables
  import opened Iac
  import opened DataRows
  import opened Snapshot
  import opened ImportTarget
  import opened Import
  import opened ImportPlan
  import opened Convergence
  import opened Replan
  import opened ImportFrame
  import opened VersionedWrite

  ghost function ExpressibleKeys(t: Tables): set<string> {
    set code | code in t.roles && Expressible(IacRoleKey(code)) :: IacRoleKey(code)
  }

  ghost predicate DerivesKey(t: Tables, key: string, code: string) {
    code in t.roles && IacRoleKey(code) == key
  }

  /** The role code of every key. */
  ghost function KeyIndex(t: Tables): map<string, string> {
    map key | key in ExpressibleKeys(t) :: var code :| DerivesKey(t, key, code); code
  }

  lemma KeyIndexIsIndex(t: Tables)
    requires KeysUnique(t)
    ensures IsRoleIndex(t, KeyIndex(t))
  {
    forall code | code in t.roles && Expressible(IacRoleKey(code))
      ensures IacRoleKey(code) in KeyIndex(t) && KeyIndex(t)[IacRoleKey(code)] == code
    {
      assert DerivesKey(t, IacRoleKey(code), code);
    }
  }

  /** The import of `d` into tables `t`, planned against snapshot `c`. */
  ghost function ImportJob(t: Tables, d: Document, c: Current, version: nat): Job {
    Job(t, d, c, KeyIndex(t), version)
  }

  lemma JobIsSound(t: Tables, d: Document, c: Current, version: nat)
    requires WellFormed(t) && Valid(d) && KeysUnique(t) && IsSnapshot(t, c)
    ensures Sound(ImportJob(t, d, c, version))
  {
    KeyIndexIsIndex(t);
    hide WellFormed, Valid, IsSnapshot, KeysUnique, IsRoleIndex, KeyIndex;
  }

  lemma SnapshotKeysUnique(t: Tables, d: Document, c: Current)
    requires Valid(d) && IsSnapshot(t, c)
    ensures UniqueKeys(d, c)
  {
  }

  method CountKind(plan: seq<Item>, kind: Kind) returns (n: nat)
    ensures n > 0 <==> exists it :: it in plan && it.kind == kind
  {
    n := 0;
    for i := 0 to |plan|
      invariant n > 0 <==> exists it :: it in plan[..i] && it.kind == kind
    {
      assert plan[..i + 1] == plan[..i] + [plan[i]];
      if plan[i].kind == kind {
        n := n + 1;
      }
    }
    assert plan[..|plan|] == plan;
  }

  lemma PlanShowsConflicts(j: Job, plan: seq<Item>)
    requires IsPlan(j.d, j.c, plan)
    ensures NoConflict(j) <==> !exists it :: it in plan && it.kind == Conflict
  {
    if e, id :| Verdict(j, e, id) == Some(Conflict) {
      assert Item(Conflict, e, id) in plan;
    }
    if it :| it in plan && it.kind == Conflict {
      assert Verdict(j, it.entity, it.id) == Some(Conflict);
    }
  }

  // ---------------------------------------------------------------- foreign keys survive

  /** Every grant after the import names a role and a permission that exist. */
  lemma GrantsStayWellFormed(j: Job, t': Tables, g: Grant)
    requires Sound(j) && !Blocked(j) && PermissionsReconciled(j, t') && RolesReconciled(j, t') && g in t'.grants
    ensures g.role in t'.roles && g.permission in t'.permissions
  {
    SoundParts(j);
    hide Sound, Valid, IsSnapshot;
    if g in NewGrants(j, WrittenKeys(j)) {
      var key, p :| key in WrittenKeys(j) && key in RoleDocs(j) && p in RoleDocs(j)[key].codes && g == Grant(TargetCode(j.m, key), p);
      WrittenRoleAfter(j, t', key);
      DeclaredPermissionStays(j, t', key, p);
    } else {
      assert g in j.t.grants && g.permission !in DeletedPermissions(j);
      KeptRoleAfter(j, t', g.role);
    }
  }

  lemma DeclaredPermissionStays(j: Job, t': Tables, key: string, p: string)
    requires Sound(j) && PermissionsReconciled(j, t') && key in RoleDocs(j) && p in RoleDocs(j)[key].codes
    ensures p in t'.permissions
  {
    CodesExist(j, key);
    PermissionVerdict(j, p);
    hide Sound;
    assert p !in DeletedPermissions(j);
  }

  lemma RemainingRolesStay(j: Job, t': Tables, code: string)
    requires RolesReconciled(j, t') && code in j.t.roles && code !in CodesOf(j, DeletedKeys(j))
    ensures code in t'.roles
  {
  }

  lemma BoundRolesStay(j: Job, t': Tables, b: Binding)
    requires Sound(j) && RolesReconciled(j, t') && b in j.t.bindings
    ensures b.role in t'.roles
  {
    SoundParts(j);
    hide Sound, Valid, IsSnapshot, IsRoleIndex, RolesReconciled;
    if key :| key in DeletedKeys(j) && TargetCode(j.m, key) == b.role {
      RoleDeleted(j, key);
    } else {
      RemainingRolesStay(j, t', b.role);
    }
  }

  lemma EffectsStayKnown(j: Job, data: map<nat, DataRow>, n: nat, scopeRows: seq<DataRow>, policyRows: seq<DataRow>, id: nat)
    requires Sound(j) && DataReconciled(j, data, n, scopeRows, policyRows) && id in data
    ensures 0 < id < n && KnownEffect(data[id].effect)
  {
    SoundParts(j);
    if id < j.t.nextId {
      DeletedNotReplaced(j);
      OldIds(j, data, n, scopeRows, policyRows);
      hide Sound, DataReconciled, Valid, IsSnapshot, IsRoleIndex;
      if Replaced(j, j.t.data[id]) {
        DeclaredEffect(j, RowIdentity(j.t.data[id]));
      }
    } else {
      AppendedEffect(j, data, n, scopeRows, policyRows, id);
    }
  }

  lemma KeptDataIsOld(j: Job)
    ensures KeptData(j).Keys <= j.t.data.Keys
  {
    hide CodesOf, WrittenKeys, DeletedKeys, DeletedPolicies, ReplacedPolicies, ScopeIds;
  }

  lemma AppendedRow(j: Job, data: map<nat, DataRow>, n: nat, scopeRows: seq<DataRow>, policyRows: seq<DataRow>, id: nat)
    requires DataReconciled(j, data, n, scopeRows, policyRows) && id in data && id >= j.t.nextId
    requires forall i :: i in j.t.data ==> i < j.t.nextId
    ensures id < n && (data[id] in scopeRows || data[id] in policyRows)
  {
    var rows := scopeRows + policyRows;
    hide KeptData, ScopeRowsFor, PolicyRowsFor;
    KeptDataIsOld(j);
    AppendedOver(KeptData(j), Appended(j.t.nextId, rows), j.t.data, data, j.t.nextId, id);
    assert data[id] == rows[id - j.t.nextId];
  }

  lemma AppendedOver(base: map<nat, DataRow>, more: map<nat, DataRow>, old': map<nat, DataRow>, data: map<nat, DataRow>, n: nat, id: nat)
    requires data == base + more && base.Keys <= old'.Keys && (forall i :: i in old' ==> i < n) && id in data && id >= n
    ensures id in more && data[id] == more[id]
  {
  }

  lemma AppendedEffect(j: Job, data: map<nat, DataRow>, n: nat, scopeRows: seq<DataRow>, policyRows: seq<DataRow>, id: nat)
    requires WellFormed(j.t) && Valid(j.d) && IsRoleIndex(j.t, j.m)
    requires DataReconciled(j, data, n, scopeRows, policyRows) && id in data && id >= j.t.nextId
    ensures 0 < id < n && KnownEffect(data[id].effect)
  {
    assert forall i :: i in j.t.data ==> i < j.t.nextId;
    AppendedRow(j, data, n, scopeRows, policyRows, id);
    assert ScopeRowsFor(j, WrittenKeys(j), scopeRows) && PolicyRowsFor(j, CreatedPolicies(j), policyRows);
    hide DataReconciled, WellFormed, KnownEffect, Valid, IsRoleIndex, ScopeRowsFor;
    if data[id] in scopeRows {
      ScopeEffect(j, scopeRows, data[id]);
    } else {
      var p :| p in CreatedPolicies(j) && p in PolicyDocs(j) && data[id] == PolicyRow(PolicyDocs(j)[p], j.version);
      DeclaredEffect(j, p);
      KnownStays(PolicyDocs(j)[p].effect);
    }
  }

  lemma KnownStays(effect: string)
    requires KnownEffect(effect)
    ensures NormEffect(effect) == effect
  {
  }

  lemma {:induction false} FilterKeeps(rows: seq<DataRow>, sel: Selector, row: DataRow)
    requires row in rows && Hits(sel, row)
    ensures row in Filter(rows, sel)
  {
    if row != rows[|rows| - 1] {
      FilterKeeps(rows[..|rows| - 1], sel, row);
    }
  }

  lemma ScopeEffect(j: Job, scopeRows: seq<DataRow>, row: DataRow)
    requires Valid(j.d) && IsRoleIndex(j.t, j.m) && ScopeRowsFor(j, WrittenKeys(j), scopeRows) && row in scopeRows
    ensures KnownEffect(row.effect)
  {
    hide Valid, IsRoleIndex, Filter;
    var key :| key in WrittenKeys(j) && TargetCode(j.m, key) == row.subjectId;
    FilterKeeps(scopeRows, RoleScope(row.subjectId), row);
    ScopesAreKnown(j, key);
    var declared := RoleDocs(j)[key].scopes;
    assert Filter(scopeRows, RoleScope(row.subjectId)) == ScopeRowsOf(row.subjectId, declared, j.version);
    var i :| 0 <= i < |declared| && row == ScopeRow(row.subjectId, declared[i], j.version);
    assert declared[i] in declared;
  }

  /** A successful import leaves sound tables. */
  lemma ImportKeepsSound(j: Job, t': Tables, scopeRows: seq<DataRow>, policyRows: seq<DataRow>)
    requires Sound(j) && SoundTables(j.t) && !Blocked(j) && Reconciled(j, t', scopeRows, policyRows)
    ensures SoundTables(t')
  {
    hide Sound, Reconciled, PermissionsReconciled, RolesReconciled, DataReconciled, Blocked, KnownEffect, CodesOf;
    ReconciledParts(j, t', scopeRows, policyRows);
    NextIdGrows(j, t', scopeRows, policyRows);
    AcyclicSubset(j.t.inherits, t'.inherits);
    hide Acyclic;
    forall g | g in t'.grants
      ensures g.role in t'.roles && g.permission in t'.permissions
    {
      GrantsStayWellFormed(j, t', g);
    }
    forall e | e in t'.inherits
      ensures e.src in t'.roles && e.dst in t'.roles
    {
      RemainingRolesStay(j, t', e.src);
      RemainingRolesStay(j, t', e.dst);
    }
    forall b | b in t'.bindings
      ensures b.role in t'.roles
    {
      BoundRolesStay(j, t', b);
    }
    forall id | id in t'.data
      ensures 0 < id < t'.nextId && KnownEffect(t'.data[id].effect)
    {
      EffectsStayKnown(j, t'.data, t'.nextId, scopeRows, policyRows, id);
    }
  }

  lemma NextIdGrows(j: Job, t': Tables, scopeRows: seq<DataRow>, policyRows: seq<DataRow>)
    requires Reconciled(j, t', scopeRows, policyRows)
    ensures t'.nextId >= j.t.nextId
  {
  }
}
