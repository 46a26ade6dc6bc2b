/** What an import never touches. */
module ImportFrame {

  import opened Graph
  import opened Tables
  import opened Iac
  import opened DataRows
  import opened Snapshot
  import opened ImportTarget
  import opened Import
  import opened Convergence
  import opened Replan

  /** An entity of this source is out of the import's reach: neither iac, nor manual and declared. */
  predicate OutOfReach(source: string, declared: bool) {
    source != IAC && !(source == MANUAL && declared)
  }

  lemma PermissionUntouched(j: Job, t': Tables, code: string)
    requires Sound(j) && PermissionsReconciled(j, t')
    requires code in j.t.permissions && OutOfReach(j.t.permissions[code].source, code in PermissionDocs(j))
    ensures code in t'.permissions && t'.permissions[code] == j.t.permissions[code]
  {
    hide PermissionsReconciled, Valid, WellFormed, IsRoleIndex;
    PermissionVerdictIs(j, code);
    PermissionAfter(j, t', code);
  }

  /** A role the plan writes or deletes is an iac role, or a manual role that the document declares. */
  lemma GovernedRole(j: Job, code: string)
    requires Sound(j) && code in Governed(j) && code in j.t.roles
    ensures Expressible(IacRoleKey(code)) && !OutOfReach(j.t.roles[code].source, IacRoleKey(code) in RoleDocs(j))
  {
    hide Valid, WellFormed, IsSnapshot, Decision, Sound;
    var key :| key in WrittenKeys(j) + DeletedKeys(j) && TargetCode(j.m, key) == code;
    SoundParts(j);
    RoleVerdict(j, key);
    RoleDeleted(j, key);
    if key in WrittenKeys(j) {
      DeclaredRole(j, key);
    }
  }

  lemma SoundParts(j: Job)
    requires Sound(j)
    ensures WellFormed(j.t) && Valid(j.d) && IsSnapshot(j.t, j.c) && IsRoleIndex(j.t, j.m)
  {
    hide WellFormed, Valid, IsSnapshot, IsRoleIndex;
  }

  /** A role outside the import's reach: its code is not one a document can name, or neither iac nor declared manual. */
  ghost predicate RoleOutOfReach(j: Job, code: string)
    requires code in j.t.roles
  {
    !Expressible(IacRoleKey(code)) || OutOfReach(j.t.roles[code].source, IacRoleKey(code) in RoleDocs(j))
  }

  /** The role's row and its grants, effects included, are the same in both tables. */
  ghost predicate SameRole(t: Tables, t': Tables, code: string)
    requires code in t.roles
  {
    && code in t'.roles && t'.roles[code] == t.roles[code]
    && (forall p :: Grant(code, p) in t'.grants <==> Grant(code, p) in t.grants)
    && forall p | Grant(code, p) in t.grants && Grant(code, p) in t'.grants :: t'.grants[Grant(code, p)] == t.grants[Grant(code, p)]
  }

  lemma RoleUntouched(j: Job, t': Tables, code: string)
    requires Sound(j) && RolesReconciled(j, t') && code in j.t.roles && RoleOutOfReach(j, code)
    ensures SameRole(j.t, t', code)
  {
    NotGoverned(j, code);
    KeptRoleAfter(j, t', code);
    KeptEffects(j, t', code);
  }

  lemma NotGoverned(j: Job, code: string)
    requires Sound(j) && code in j.t.roles && RoleOutOfReach(j, code)
    ensures code !in Governed(j)
  {
    hide Sound, Governed;
    if code in Governed(j) {
      GovernedRole(j, code);
    }
  }

  lemma KeptEffects(j: Job, t': Tables, code: string)
    requires RolesReconciled(j, t') && code !in CodesOf(j, DeletedKeys(j)) && code !in CodesOf(j, WrittenKeys(j))
    ensures forall p | Grant(code, p) in j.t.grants && Grant(code, p) in t'.grants :: t'.grants[Grant(code, p)] == j.t.grants[Grant(code, p)]
  {
    forall g | g in NewGrants(j, WrittenKeys(j))
      ensures g.role in CodesOf(j, WrittenKeys(j))
    {
    }
  }

  /** A data policy stays as it is unless its role is governed, or its identity is. */
  ghost predicate PolicyOutOfReach(j: Job, row: DataRow) {
    if row.subjectType == ROLE then row.subjectId !in Governed(j)
    else OutOfReach(row.source, RowIdentity(row) in PolicyDocs(j))
  }

  lemma PolicyUntouched(j: Job, data: map<nat, DataRow>, n: nat, scopeRows: seq<DataRow>, policyRows: seq<DataRow>, id: nat)
    requires Sound(j) && DataReconciled(j, data, n, scopeRows, policyRows)
    requires id in j.t.data && PolicyOutOfReach(j, j.t.data[id])
    ensures id in data && data[id] == j.t.data[id]
  {
    DeletedNotReplaced(j);
    OldIds(j, data, n, scopeRows, policyRows);
    hide DataReconciled;
    var row := j.t.data[id];
    if row.subjectType != ROLE {
      NotGovernedPolicy(j, id);
    }
  }

  lemma NotGovernedPolicy(j: Job, id: nat)
    requires Sound(j) && id in j.t.data && j.t.data[id].subjectType != ROLE && PolicyOutOfReach(j, j.t.data[id])
    ensures RowIdentity(j.t.data[id]) !in DeletedPolicies(j) && RowIdentity(j.t.data[id]) !in ReplacedPolicies(j)
  {
    var ident := RowIdentity(j.t.data[id]);
    assert id < j.t.nextId;
    SoundParts(j);
    hide Sound, WellFormed, Valid, IsRoleIndex;
    PolicyVerdict(j, ident);
    PolicyVerdictIs(j, ident);
    SelectHit(j.t.data, j.t.nextId, TopIdentity(ident), id);
  }

  /** Only undeclared iac roles without users disappear, and no user loses a binding. */
  lemma OnlyFreeRolesDisappear(j: Job, t': Tables, scopeRows: seq<DataRow>, policyRows: seq<DataRow>, code: string)
    requires Sound(j) && Reconciled(j, t', scopeRows, policyRows) && code in j.t.roles && code !in t'.roles
    ensures j.t.roles[code].source == IAC && IacRoleKey(code) !in RoleDocs(j) && !Bound(j.t, code) && t'.bindings == j.t.bindings
  {
    assert code in CodesOf(j, DeletedKeys(j));
    hide Reconciled;
    var key :| key in DeletedKeys(j) && TargetCode(j.m, key) == code;
    RoleDeleted(j, key);
  }

  /**
   An import leaves alone every permission that is neither iac nor a declared manual one, every role outside its reach with
   all the role's grants and their effects, every inheritance edge between roles that remain, every data policy outside
   the governed roles and identities, and every user binding.
   */
  lemma ImportLeavesOthersAlone(j: Job, t': Tables, scopeRows: seq<DataRow>, policyRows: seq<DataRow>)
    requires Sound(j) && Reconciled(j, t', scopeRows, policyRows)
    ensures forall code | code in j.t.permissions && OutOfReach(j.t.permissions[code].source, code in PermissionDocs(j)) ::
      code in t'.permissions && t'.permissions[code] == j.t.permissions[code]
    ensures forall code | code in j.t.roles && RoleOutOfReach(j, code) :: SameRole(j.t, t', code)
    ensures t'.inherits == set e | e in j.t.inherits && e.src in t'.roles && e.dst in t'.roles
    ensures forall id | id in j.t.data && PolicyOutOfReach(j, j.t.data[id]) :: id in t'.data && t'.data[id] == j.t.data[id]
    ensures t'.bindings == j.t.bindings
  {
    hide Reconciled, Sound, PermissionsReconciled, RolesReconciled, DataReconciled, OutOfReach, PolicyOutOfReach, RoleOutOfReach, SameRole;
    ReconciledParts(j, t', scopeRows, policyRows);
    RemainingEdges(j, t', scopeRows, policyRows);
    forall code | code in j.t.permissions && OutOfReach(j.t.permissions[code].source, code in PermissionDocs(j))
      ensures code in t'.permissions && t'.permissions[code] == j.t.permissions[code]
    {
      PermissionUntouched(j, t', code);
    }
    forall code | code in j.t.roles && RoleOutOfReach(j, code)
      ensures SameRole(j.t, t', code)
    {
      RoleUntouched(j, t', code);
    }
    forall id | id in j.t.data && PolicyOutOfReach(j, j.t.data[id])
      ensures id in t'.data && t'.data[id] == j.t.data[id]
    {
      PolicyUntouched(j, t'.data, t'.nextId, scopeRows, policyRows, id);
    }
  }

  /** Exactly the edges between remaining roles remain. */
  lemma RemainingEdges(j: Job, t': Tables, scopeRows: seq<DataRow>, policyRows: seq<DataRow>)
    requires Sound(j) && Reconciled(j, t', scopeRows, policyRows)
    ensures t'.inherits == set e | e in j.t.inherits && e.src in t'.roles && e.dst in t'.roles
  {
    hide Reconciled, Sound, Valid, IsSnapshot, IsRoleIndex, CodesOf, DeletedKeys, RolesReconciled, PermissionsReconciled, DataReconciled;
    ReconciledParts(j, t', scopeRows, policyRows);
    SoundParts(j);
    forall code | code in j.t.roles
      ensures code in t'.roles <==> code !in CodesOf(j, DeletedKeys(j))
    {
      RemainingRole(j, t', code);
    }
  }

  /** A role remains exactly when the plan does not delete it: no code is deleted and written. */
  lemma RemainingRole(j: Job, t': Tables, code: string)
    requires Sound(j) && RolesReconciled(j, t') && code in j.t.roles
    ensures code in t'.roles <==> code !in CodesOf(j, DeletedKeys(j))
  {
    SoundParts(j);
    hide Valid, IsSnapshot, IsRoleIndex, Sound, WellFormed, WrittenKeys, DeletedKeys, TargetGrants;
    if code in CodesOf(j, DeletedKeys(j)) {
      var key :| key in DeletedKeys(j) && TargetCode(j.m, key) == code;
      DeletedNotWritten(j);
      CodeIsNew(j, WrittenKeys(j), key);
    }
  }

  lemma ReconciledParts(j: Job, t': Tables, scopeRows: seq<DataRow>, policyRows: seq<DataRow>)
    requires Reconciled(j, t', scopeRows, policyRows)
    ensures PermissionsReconciled(j, t') && RolesReconciled(j, t') && t'.bindings == j.t.bindings
    ensures DataReconciled(j, t'.data, t'.nextId, scopeRows, policyRows)
    ensures t'.inherits == EdgesOutside(j.t.inherits, CodesOf(j, DeletedKeys(j)))
  {
  }
}
