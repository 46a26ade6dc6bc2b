/** What an import aims at: the tables after it, and what its verdicts say of the tables before it. */
module ImportTarget {

  import opened Graph
  import opened Sorting
  import opened Tables
  import opened Iac
  import opened DataRows
  import opened Snapshot

  /** Document `d` against tables `t` with snapshot `c`, role index `m`, and the version the write will get. */
  datatype Job = Job(t: Tables, d: Document, c: Current, m: map<string, string>, version: nat)

  ghost function Verdict(j: Job, entity: Entity, id: string): Option<Kind> {
    Decision(j.d, j.c, entity, id)
  }

  predicate Writes(k: Option<Kind>) {
    k == Some(Create) || k == Some(Adopt) || k == Some(Update)
  }

  /** The document is valid, and the snapshot and index are those of the tables. */
  ghost predicate Sound(j: Job) {
    WellFormed(j.t) && Valid(j.d) && IsSnapshot(j.t, j.c) && IsRoleIndex(j.t, j.m)
  }

  ghost predicate NoConflict(j: Job) {
    forall e, id :: Verdict(j, e, id) != Some(Conflict)
  }

  // ---------------------------------------------------------------- the state an import aims at

  function PermissionRow(p: PermissionDoc): Permission {
    Permission(p.resource, p.action, p.kind, p.name, p.description, IAC)
  }

  function RoleRow(r: RoleDoc): Role {
    Role(r.name, r.description, IAC)
  }

  function ScopeRow(code: string, s: DataScope, version: nat): DataRow {
    DataRow(ROLE, code, s.resource, s.condition, NormEffect(s.effect), IAC, version)
  }

  function PolicyRow(p: PolicyDoc, version: nat): DataRow {
    DataRow(p.subjectType, p.subjectId, p.resource, p.condition, NormEffect(p.effect), IAC, version)
  }

  /** A declared role keeps the code it has; a new one gets the iac prefix. */
  function TargetCode(m: map<string, string>, key: string): string {
    if key in m then m[key] else IAC_PREFIX + key
  }

  ghost function RoleDocs(j: Job): map<string, RoleDoc> { Index(j.d.roles, RoleKey) }
  ghost function PermissionDocs(j: Job): map<string, PermissionDoc> { Index(j.d.permissions, PermissionCode) }
  ghost function PolicyDocs(j: Job): map<string, PolicyDoc> { Index(j.d.policies, PolicyId) }

  ghost function WrittenKeys(j: Job): set<string> {
    set key | key in RoleDocs(j) && Writes(Verdict(j, RoleEntity, key))
  }

  ghost function DeletedKeys(j: Job): set<string> {
    set key | key in j.m && Verdict(j, RoleEntity, key) == Some(Delete)
  }

  ghost function CodesOf(j: Job, keys: set<string>): set<string> {
    set key | key in keys :: TargetCode(j.m, key)
  }

  ghost function WrittenPermissions(j: Job): set<string> {
    set code | code in PermissionDocs(j) && Writes(Verdict(j, PermissionEntity, code))
  }

  ghost function DeletedPermissions(j: Job): set<string> {
    set code | code in j.t.permissions && Verdict(j, PermissionEntity, code) == Some(Delete)
  }

  ghost function PermissionRows(j: Job, codes: set<string>): map<string, Permission> {
    map code | code in codes && code in PermissionDocs(j) :: PermissionRow(PermissionDocs(j)[code])
  }

  ghost function RoleRows(j: Job, keys: set<string>): map<string, Role> {
    map code | code in CodesOf(j, keys) && IacRoleKey(code) in RoleDocs(j) :: RoleRow(RoleDocs(j)[IacRoleKey(code)])
  }

  ghost function NewGrants(j: Job, keys: set<string>): map<Grant, string> {
    map g | g in DeclaredGrants(j, keys) :: ALLOW
  }

  ghost function DeclaredGrants(j: Job, keys: set<string>): set<Grant> {
    set key, p | key in keys && key in RoleDocs(j) && p in RoleDocs(j)[key].codes :: Grant(TargetCode(j.m, key), p)
  }

  ghost function GrantsOutside(grants: map<Grant, string>, codes: set<string>): map<Grant, string> {
    map g | g in grants && g.role !in codes :: grants[g]
  }

  /** The ids of the data scopes of the roles with these codes. */
  ghost function ScopeIds(data: map<nat, DataRow>, codes: set<string>): set<nat> {
    set id | id in data && data[id].subjectType == ROLE && data[id].subjectId in codes
  }

  /** The ids of the top-level policies with these identities. */
  ghost function TopIds(data: map<nat, DataRow>, ids: set<string>): set<nat> {
    set id | id in data && data[id].subjectType != ROLE && RowIdentity(data[id]) in ids
  }

  ghost function DeletedPolicies(j: Job): set<string> {
    set row | row in j.c.policies && Verdict(j, PolicyEntity, CurrentPolicyId(row)) == Some(Delete) :: CurrentPolicyId(row)
  }

  ghost function ReplacedPolicies(j: Job): set<string> {
    set id | id in PolicyDocs(j) && (Verdict(j, PolicyEntity, id) == Some(Adopt) || Verdict(j, PolicyEntity, id) == Some(Update))
  }

  ghost function CreatedPolicies(j: Job): set<string> {
    set id | id in PolicyDocs(j) && Verdict(j, PolicyEntity, id) == Some(Create)
  }

  ghost function ReplacedRows(j: Job, ids: set<string>): map<nat, DataRow> {
    map id | id in TopIds(j.t.data, ids) && RowIdentity(j.t.data[id]) in PolicyDocs(j) ::
      PolicyRow(PolicyDocs(j)[RowIdentity(j.t.data[id])], j.version)
  }

  ghost function Appended(n: nat, rows: seq<DataRow>): (m: map<nat, DataRow>)
    ensures forall id: nat :: id in m <==> n <= id < n + |rows|
    ensures forall id: nat | id in m :: m[id] == rows[id - n]
  {
    if rows == [] then map[]
    else Appended(n, rows[..|rows| - 1])[n + |rows| - 1 := rows[|rows| - 1]]
  }

  function ScopeRowsOf(code: string, ss: seq<DataScope>, version: nat): (rows: seq<DataRow>)
    ensures |rows| == |ss| && forall i :: 0 <= i < |ss| ==> rows[i] == ScopeRow(code, ss[i], version)
  {
    seq(|ss|, i requires 0 <= i < |ss| => ScopeRow(code, ss[i], version))
  }

  /** The rows inserted for roles hold, for every written role, its declared scopes in order, and nothing else. */
  ghost predicate ScopeRowsFor(j: Job, keys: set<string>, rows: seq<DataRow>) {
    && (forall r :: r in rows ==> r.subjectType == ROLE && r.subjectId in CodesOf(j, keys))
    && (forall key | key in keys && key in RoleDocs(j) ::
          Filter(rows, RoleScope(TargetCode(j.m, key))) == ScopeRowsOf(TargetCode(j.m, key), RoleDocs(j)[key].scopes, j.version))
  }

  /** The rows inserted for top-level policies hold one row for every created identity, and nothing else. */
  ghost predicate PolicyRowsFor(j: Job, ids: set<string>, rows: seq<DataRow>) {
    && (forall r :: r in rows ==> exists id :: id in ids && id in PolicyDocs(j) && r == PolicyRow(PolicyDocs(j)[id], j.version))
    && (forall id | id in ids && id in PolicyDocs(j) && PolicyDocs(j)[id].subjectType != ROLE ::
          Filter(rows, TopIdentity(id)) == [PolicyRow(PolicyDocs(j)[id], j.version)])
  }

  /** The codes an import governs: those of deleted and of written roles. */
  ghost function Governed(j: Job): set<string> {
    CodesOf(j, DeletedKeys(j)) + CodesOf(j, WrittenKeys(j))
  }

  /** The permissions after an import. */
  ghost predicate PermissionsReconciled(j: Job, t': Tables) {
    t'.permissions == (j.t.permissions + PermissionRows(j, WrittenPermissions(j))) - DeletedPermissions(j)
  }

  ghost function TargetGrants(j: Job): map<Grant, string> {
    GrantsOutside(j.t.grants, Governed(j)) + NewGrants(j, WrittenKeys(j))
  }

  /** The roles and grants after an import. */
  ghost predicate RolesReconciled(j: Job, t': Tables) {
    && t'.roles == (j.t.roles - CodesOf(j, DeletedKeys(j))) + RoleRows(j, WrittenKeys(j))
    && t'.grants == TargetGrants(j)
  }

  /** What an import keeps of the old rows, replaced ones in their new form. */
  ghost function KeptData(j: Job): map<nat, DataRow> {
    (j.t.data - ScopeIds(j.t.data, Governed(j)) - TopIds(j.t.data, DeletedPolicies(j))) + ReplacedRows(j, ReplacedPolicies(j))
  }

  /** The data policies after an import, given the rows it appended for roles and for policies, and the next id. */
  ghost predicate DataReconciled(j: Job, data: map<nat, DataRow>, n: nat, scopeRows: seq<DataRow>, policyRows: seq<DataRow>) {
    && ScopeRowsFor(j, WrittenKeys(j), scopeRows) && PolicyRowsFor(j, CreatedPolicies(j), policyRows)
    && data == KeptData(j) + Appended(j.t.nextId, scopeRows + policyRows)
    && n == j.t.nextId + |scopeRows| + |policyRows|
  }

  ghost function EdgesOutside(edges: set<Edge<string>>, codes: set<string>): set<Edge<string>> {
    set e | e in edges && e.src !in codes && e.dst !in codes
  }

  /** The tables after a successful import. */
  ghost predicate Reconciled(j: Job, t': Tables, scopeRows: seq<DataRow>, policyRows: seq<DataRow>) {
    && PermissionsReconciled(j, t') && RolesReconciled(j, t')
    && t'.inherits == EdgesOutside(j.t.inherits, CodesOf(j, DeletedKeys(j)))
    && t'.bindings == j.t.bindings
    && DataReconciled(j, t'.data, t'.nextId, scopeRows, policyRows)
  }

  /** Some role the plan does not govern holds a permission the plan deletes. */
  ghost predicate Blocked(j: Job) {
    exists g :: g in j.t.grants && g.permission in DeletedPermissions(j)
                && g.role !in Governed(j)
  }

  // ---------------------------------------------------------------- what the verdicts say of the tables

  lemma SnapshotPermission(j: Job, code: string)
    requires IsSnapshot(j.t, j.c)
    ensures code in Index(j.c.permissions, CurrentCode) <==> code in j.t.permissions
    ensures code in j.t.permissions ==> Index(j.c.permissions, CurrentCode)[code].row == j.t.permissions[code]
  {
    if code in j.t.permissions {
      IndexDistinct(j.c.permissions, CurrentCode, CurrentPermission(code, j.t.permissions[code]));
    }
  }

  lemma SnapshotRole(j: Job, key: string)
    requires IsSnapshot(j.t, j.c) && IsRoleIndex(j.t, j.m)
    ensures key in Index(j.c.roles, CurrentKey) <==> key in j.m
    ensures key in j.m ==> RoleMatches(j.t, j.m[key], Index(j.c.roles, CurrentKey)[key])
  {
    var index := Index(j.c.roles, CurrentKey);
    if key in index {
      assert ReadsSomeRole(j.t, index[key]);
    }
    if key in j.m {
      assert ReadBySome(j.t, j.c.roles, j.m[key]);
      var x :| x in j.c.roles && RoleMatches(j.t, j.m[key], x);
      IndexDistinct(j.c.roles, CurrentKey, x);
    }
  }

  lemma CurrentPoliciesMore(rows: seq<DataRow>, row: DataRow, id: string)
    ensures CurrentPolicies(rows + [row]) == CurrentPolicies(rows) + [CurrentPolicyOf(row)]
    ensures Group(CurrentPolicies(rows + [row]), CurrentPolicyId, id)
         == Group(CurrentPolicies(rows), CurrentPolicyId, id) + if RowIdentity(row) == id then [CurrentPolicyOf(row)] else []
  {
    assert CurrentPolicies(rows + [row]) == CurrentPolicies(rows) + [CurrentPolicyOf(row)];
    assert (CurrentPolicies(rows) + [CurrentPolicyOf(row)])[..|rows|] == CurrentPolicies(rows);
  }

  lemma {:induction false} GroupCurrent(data: map<nat, DataRow>, n: nat, id: string)
    ensures Group(CurrentPolicies(Select(data, n, TopLevel)), CurrentPolicyId, id)
         == CurrentPolicies(Select(data, n, TopIdentity(id)))
  {
    if n > 0 {
      GroupCurrent(data, n - 1, id);
      if HitAt(data, TopLevel, n - 1) {
        CurrentPoliciesMore(Select(data, n - 1, TopLevel), data[n - 1], id);
        CurrentPoliciesMore(Select(data, n - 1, TopIdentity(id)), data[n - 1], id);
      } else {
        assert Select(data, n, TopLevel) == Select(data, n - 1, TopLevel);
      }
      if !HitAt(data, TopIdentity(id), n - 1) {
        assert Select(data, n, TopIdentity(id)) == Select(data, n - 1, TopIdentity(id));
      }
    }
  }

  lemma RoleDecisionShape(d: map<string, RoleDoc>, c: map<string, CurrentRole>, key: string)
    ensures Writes(RoleDecision(d, c, key)) ==> key in d
    ensures RoleDecision(d, c, key) == Some(Create) <==> key in d && key !in c
    ensures RoleDecision(d, c, key) == Some(Adopt) ==> key in c && c[key].source == MANUAL
    ensures RoleDecision(d, c, key) == Some(Update) ==> key in c && c[key].source == IAC
    ensures RoleDecision(d, c, key) == Some(Delete) ==> key in c && key !in d && c[key].source == IAC && !c[key].bound
  {
  }

  /** Which roles are written, created, adopted and updated. */
  lemma RoleVerdict(j: Job, key: string)
    requires Sound(j)
    ensures key in WrittenKeys(j) <==> Writes(Verdict(j, RoleEntity, key))
    ensures Verdict(j, RoleEntity, key) == Some(Create) <==> key in RoleDocs(j) && key !in j.m
    ensures Verdict(j, RoleEntity, key) == Some(Adopt) ==> key in j.m && j.t.roles[j.m[key]].source == MANUAL
    ensures Verdict(j, RoleEntity, key) == Some(Update) ==> key in j.m && j.t.roles[j.m[key]].source == IAC
  {
    SnapshotRole(j, key);
    RoleDecisionShape(RoleDocs(j), Index(j.c.roles, CurrentKey), key);
  }

  /** Deleted roles are undeclared iac roles without users. */
  lemma RoleDeleted(j: Job, key: string)
    requires Sound(j)
    ensures key in DeletedKeys(j) <==> Verdict(j, RoleEntity, key) == Some(Delete)
    ensures key in DeletedKeys(j) ==> key !in RoleDocs(j) && j.t.roles[j.m[key]].source == IAC && !Bound(j.t, j.m[key])
  {
    SnapshotRole(j, key);
    RoleDecisionShape(RoleDocs(j), Index(j.c.roles, CurrentKey), key);
  }

  /** A declared key is expressible and its target code leads back to it. */
  lemma DeclaredRole(j: Job, key: string)
    requires Valid(j.d) && IsRoleIndex(j.t, j.m) && key in RoleDocs(j)
    ensures Expressible(key) && IacRoleKey(TargetCode(j.m, key)) == key && RoleDocs(j)[key] in j.d.roles
    ensures key !in j.m ==> TargetCode(j.m, key) !in j.t.roles
  {
    KeyOfCreatedCode(key);
    assert RoleComplete(RoleDocs(j)[key], Declared(j.d.permissions));
  }

  lemma PermissionVerdict(j: Job, code: string)
    requires Sound(j)
    ensures Writes(Verdict(j, PermissionEntity, code)) ==> code in WrittenPermissions(j)
    ensures code in PermissionDocs(j) ==> Writes(Verdict(j, PermissionEntity, code)) || code in j.t.permissions
    ensures Verdict(j, PermissionEntity, code) == Some(Delete) ==>
      code in DeletedPermissions(j) && code !in PermissionDocs(j) && j.t.permissions[code].source == IAC
  {
    SnapshotPermission(j, code);
  }

  lemma DeclaredPolicy(j: Job, id: string)
    requires Valid(j.d)
    ensures Group(j.d.policies, PolicyId, id) == if id in PolicyDocs(j) then [PolicyDocs(j)[id]] else []
  {
    GroupDistinct(j.d.policies, PolicyId, id);
  }

  lemma {:induction false} GroupDistinct<T(!new)>(xs: seq<T>, key: T -> string, k: string)
    requires Distinct(Keys(xs, key))
    ensures Group(xs, key, k) == if k in Index(xs, key) then [Index(xs, key)[k]] else []
  {
    if xs != [] {
      var rest := xs[..|xs| - 1];
      var last := xs[|xs| - 1];
      assert Keys(xs, key) == Keys(rest, key) + [key(last)];
      DistinctLast(Keys(rest, key), key(last));
      GroupDistinct(rest, key, k);
    }
  }

  ghost function DeclaredAt(j: Job, id: string): seq<PolicyDoc> {
    if id in PolicyDocs(j) then [PolicyDocs(j)[id]] else []
  }

  ghost function StoredAt(j: Job, id: string): seq<DataRow> {
    Select(j.t.data, j.t.nextId, TopIdentity(id))
  }

  lemma PolicyVerdictIs(j: Job, id: string)
    requires Valid(j.d) && j.c.policies == CurrentPolicies(Select(j.t.data, j.t.nextId, TopLevel))
    ensures Verdict(j, PolicyEntity, id) == PolicyDecision(DeclaredAt(j, id), CurrentPolicies(StoredAt(j, id)))
  {
    DeclaredPolicy(j, id);
    GroupCurrent(j.t.data, j.t.nextId, id);
  }

  lemma PolicyDecisionShape(d: seq<PolicyDoc>, c: seq<CurrentPolicy>)
    requires |d| <= 1
    ensures PolicyDecision(d, c) == Some(Create) ==> |d| == 1 && |c| == 0
    ensures PolicyDecision(d, c) == Some(Adopt) || PolicyDecision(d, c) == Some(Update) ==> |d| == 1 && |c| == 1
    ensures PolicyDecision(d, c) == Some(Delete) ==> |d| == 0 && |c| == 1
  {
  }

  /** Facts behind a policy verdict: how many stored rows have the identity, and where they come from. */
  lemma PolicyVerdict(j: Job, id: string)
    requires Valid(j.d) && j.c.policies == CurrentPolicies(Select(j.t.data, j.t.nextId, TopLevel))
    ensures Verdict(j, PolicyEntity, id) == Some(Create) <==> id in CreatedPolicies(j)
    ensures Verdict(j, PolicyEntity, id) == Some(Create) ==> |StoredAt(j, id)| == 0
    ensures Verdict(j, PolicyEntity, id) == Some(Adopt) || Verdict(j, PolicyEntity, id) == Some(Update) <==> id in ReplacedPolicies(j)
    ensures id in ReplacedPolicies(j) ==> |StoredAt(j, id)| == 1
    ensures Verdict(j, PolicyEntity, id) == Some(Delete) <==> id in DeletedPolicies(j)
    ensures id in DeletedPolicies(j) ==> id !in PolicyDocs(j) && |StoredAt(j, id)| == 1
  {
    PolicyVerdictIs(j, id);
    PolicyDecisionShape(DeclaredAt(j, id), CurrentPolicies(StoredAt(j, id)));
    if Verdict(j, PolicyEntity, id) == Some(Delete) {
      DeletedIsListed(j, id);
    }
  }

  lemma DeletedIsListed(j: Job, id: string)
    requires Verdict(j, PolicyEntity, id) == Some(Delete)
    ensures id in DeletedPolicies(j)
  {
    var rows := Group(j.c.policies, CurrentPolicyId, id);
    assert rows[0] in rows;
    assert rows[0] in j.c.policies;
  }

  lemma CodesDiffer(j: Job, a: string, b: string)
    requires IsRoleIndex(j.t, j.m) && TargetCode(j.m, a) == TargetCode(j.m, b)
    ensures a == b
  {
    KeyOfCreatedCode(a);
    KeyOfCreatedCode(b);
  }
}
