/** Planning again after an import: when nothing is left to do, and what an import never touches. */
module Convergence {

  import opened Graph
  import opened Sorting
  import opened Tables
  import opened Iac
  import opened DataRows
  import opened Snapshot
  import opened ImportTarget
  import opened Import

  /** A written role lists a permission code twice. */
  ghost predicate RepeatsCode(j: Job) {
    exists key :: key in WrittenKeys(j) && !Distinct(RoleDocs(j)[key].codes)
  }

  /** A written top-level policy has the role subject type, so it is stored among the role scopes. */
  ghost predicate WritesRoleSubject(j: Job) {
    exists id :: id in CreatedPolicies(j) + ReplacedPolicies(j) && PolicyDocs(j)[id].subjectType == ROLE
  }

  // ---------------------------------------------------------------- data rows after an import

  lemma SelectOverAppended(base: map<nat, DataRow>, data: map<nat, DataRow>, from: nat, rows: seq<DataRow>, end: nat, sel: Selector)
    requires data == base + Appended(from, rows) && end == from + |rows|
    ensures Select(data, end, sel) == Select(data, from, sel) + Filter(rows, sel)
  {
    SelectAppended(data, from, end, rows, sel);
  }

  /** Selecting after an import: the old ids first, then the appended rows. */
  lemma SelectAfter(j: Job, data: map<nat, DataRow>, n: nat, scopeRows: seq<DataRow>, policyRows: seq<DataRow>, sel: Selector)
    requires DataReconciled(j, data, n, scopeRows, policyRows)
    ensures Select(data, n, sel) == Select(data, j.t.nextId, sel) + (Filter(scopeRows, sel) + Filter(policyRows, sel))
  {
    SelectOverAppended(KeptData(j), data, j.t.nextId, scopeRows + policyRows, n, sel);
    FilterJoin(scopeRows, policyRows, sel);
  }

  /** The import removes this row. */
  ghost predicate Removed(j: Job, row: DataRow) {
    if row.subjectType == ROLE then row.subjectId in CodesOf(j, DeletedKeys(j)) || row.subjectId in CodesOf(j, WrittenKeys(j))
    else RowIdentity(row) in DeletedPolicies(j)
  }

  /** The import replaces this row. */
  ghost predicate Replaced(j: Job, row: DataRow) {
    row.subjectType != ROLE && RowIdentity(row) in ReplacedPolicies(j)
  }

  ghost function KeptRow(j: Job, row: DataRow): DataRow {
    if Replaced(j, row) then PolicyRow(PolicyDocs(j)[RowIdentity(row)], j.version) else row
  }

  /** What becomes of the old ids: removed, replaced, or left as they are. */
  ghost predicate OldRowsKept(j: Job, data: map<nat, DataRow>) {
    forall i: nat | i < j.t.nextId ::
      (i in data <==> i in j.t.data && !Removed(j, j.t.data[i])) && (i in data ==> data[i] == KeptRow(j, j.t.data[i]))
  }

  lemma OldIds(j: Job, data: map<nat, DataRow>, n: nat, scopeRows: seq<DataRow>, policyRows: seq<DataRow>)
    requires DataReconciled(j, data, n, scopeRows, policyRows) && DeletedPolicies(j) !! ReplacedPolicies(j)
    ensures OldRowsKept(j, data)
  {
    forall i: nat | i < j.t.nextId
      ensures i in data <==> i in j.t.data && !Removed(j, j.t.data[i])
      ensures i in data ==> data[i] == KeptRow(j, j.t.data[i])
    {
      assert i !in Appended(j.t.nextId, scopeRows + policyRows);
    }
  }

  lemma PolicyRowsIdentity(j: Job, ids: set<string>, rows: seq<DataRow>)
    requires PolicyRowsFor(j, ids, rows)
    ensures forall r :: r in rows ==> RowIdentity(r) in ids && r.subjectType == PolicyDocs(j)[RowIdentity(r)].subjectType
  {
    forall r | r in rows
      ensures RowIdentity(r) in ids && RowIdentity(r) in PolicyDocs(j) && r.subjectType == PolicyDocs(j)[RowIdentity(r)].subjectType
    {
      var id :| id in ids && id in PolicyDocs(j) && r == PolicyRow(PolicyDocs(j)[id], j.version);
      PolicyRowIdentity(j, id);
    }
  }

  /** Appended rows with one identity: the created policy's row, unless it went to the role scopes. */
  lemma AppendedIdentity(j: Job, scopeRows: seq<DataRow>, policyRows: seq<DataRow>, id: string)
    requires ScopeRowsFor(j, WrittenKeys(j), scopeRows) && PolicyRowsFor(j, CreatedPolicies(j), policyRows)
    ensures Filter(scopeRows, TopIdentity(id)) == []
    ensures Filter(policyRows, TopIdentity(id)) ==
      if id in CreatedPolicies(j) && PolicyDocs(j)[id].subjectType != ROLE then [PolicyRow(PolicyDocs(j)[id], j.version)] else []
  {
    FilterAll(scopeRows, TopIdentity(id));
    PolicyRowsIdentity(j, CreatedPolicies(j), policyRows);
    if !(id in CreatedPolicies(j) && PolicyDocs(j)[id].subjectType != ROLE) {
      FilterAll(policyRows, TopIdentity(id));
    }
  }

  ghost function NewRow(j: Job, id: string): seq<DataRow>
    requires id in PolicyDocs(j)
  {
    if PolicyDocs(j)[id].subjectType != ROLE then [PolicyRow(PolicyDocs(j)[id], j.version)] else []
  }

  ghost function OldRowsAfter(j: Job, id: string): seq<DataRow> {
    if id in DeletedPolicies(j) then []
    else if id in ReplacedPolicies(j) then NewRow(j, id)
    else StoredAt(j, id)
  }

  lemma OldRowsSelected(j: Job, data: map<nat, DataRow>, id: string)
    requires OldRowsKept(j, data) && DeletedPolicies(j) !! ReplacedPolicies(j)
    requires id in ReplacedPolicies(j) ==> |StoredAt(j, id)| == 1
    ensures Select(data, j.t.nextId, TopIdentity(id)) == OldRowsAfter(j, id)
  {
    forall i: nat | i < j.t.nextId && HitAt(data, TopIdentity(id), i)
      ensures HitAt(j.t.data, TopIdentity(id), i) && id !in DeletedPolicies(j)
      ensures data[i] == if id in ReplacedPolicies(j) then PolicyRow(PolicyDocs(j)[id], j.version) else j.t.data[i]
    {
      if Replaced(j, j.t.data[i]) {
        PolicyRowIdentity(j, RowIdentity(j.t.data[i]));
      }
    }
    if id in DeletedPolicies(j) {
      SelectNone(data, j.t.nextId, TopIdentity(id));
    } else if id in ReplacedPolicies(j) {
      ReplacedRowSelected(j, data, id);
    } else {
      SelectAgree(data, j.t.data, j.t.nextId, TopIdentity(id));
    }
  }

  lemma ReplacedRowSelected(j: Job, data: map<nat, DataRow>, id: string)
    requires OldRowsKept(j, data) && id in ReplacedPolicies(j) && id !in DeletedPolicies(j) && |StoredAt(j, id)| == 1
    requires forall i: nat | i < j.t.nextId && HitAt(data, TopIdentity(id), i) :: HitAt(j.t.data, TopIdentity(id), i)
    ensures Select(data, j.t.nextId, TopIdentity(id)) == NewRow(j, id)
  {
    var top := SelectSome(j.t.data, j.t.nextId, TopIdentity(id));
    SelectHit(j.t.data, j.t.nextId, TopIdentity(id), top);
    PolicyRowIdentity(j, id);
    assert top in data && data[top] == PolicyRow(PolicyDocs(j)[id], j.version);
    if PolicyDocs(j)[id].subjectType != ROLE {
      SelectOne(data, j.t.nextId, TopIdentity(id), top);
    } else {
      SelectNone(data, j.t.nextId, TopIdentity(id));
    }
  }

  lemma OldRowsAfterImport(j: Job, data: map<nat, DataRow>, n: nat, scopeRows: seq<DataRow>, policyRows: seq<DataRow>, id: string)
    requires DataReconciled(j, data, n, scopeRows, policyRows) && DeletedPolicies(j) !! ReplacedPolicies(j)
    requires id in ReplacedPolicies(j) ==> |StoredAt(j, id)| == 1
    ensures Select(data, j.t.nextId, TopIdentity(id)) == OldRowsAfter(j, id)
  {
    OldIds(j, data, n, scopeRows, policyRows);
    OldRowsSelected(j, data, id);
  }

  lemma NewRowsAfterImport(j: Job, data: map<nat, DataRow>, n: nat, scopeRows: seq<DataRow>, policyRows: seq<DataRow>, id: string)
    requires DataReconciled(j, data, n, scopeRows, policyRows)
    ensures Select(data, n, TopIdentity(id)) ==
      Select(data, j.t.nextId, TopIdentity(id)) + if id in CreatedPolicies(j) then NewRow(j, id) else []
  {
    SelectAfter(j, data, n, scopeRows, policyRows, TopIdentity(id));
    AppendedIdentity(j, scopeRows, policyRows, id);
  }

  /** The rows with one identity after an import. */
  lemma StoredAfter(j: Job, data: map<nat, DataRow>, n: nat, scopeRows: seq<DataRow>, policyRows: seq<DataRow>, id: string)
    requires DataReconciled(j, data, n, scopeRows, policyRows) && DeletedPolicies(j) !! ReplacedPolicies(j)
    requires id in ReplacedPolicies(j) ==> |StoredAt(j, id)| == 1
    ensures Select(data, n, TopIdentity(id)) == OldRowsAfter(j, id) + if id in CreatedPolicies(j) then NewRow(j, id) else []
  {
    OldRowsAfterImport(j, data, n, scopeRows, policyRows, id);
    NewRowsAfterImport(j, data, n, scopeRows, policyRows, id);
  }

  // ---------------------------------------------------------------- role scopes after an import

  /** Appended rows in a role's scope, when no policy went to the role scopes. */
  lemma AppendedScopes(j: Job, scopeRows: seq<DataRow>, policyRows: seq<DataRow>, key: string, code: string)
    requires ScopeRowsFor(j, WrittenKeys(j), scopeRows) && PolicyRowsFor(j, CreatedPolicies(j), policyRows)
    requires forall id :: id in CreatedPolicies(j) ==> PolicyDocs(j)[id].subjectType != ROLE
    requires key in WrittenKeys(j) ==> code == TargetCode(j.m, key)
    requires key !in WrittenKeys(j) ==> code !in CodesOf(j, WrittenKeys(j))
    ensures Filter(policyRows, RoleScope(code)) == []
    ensures Filter(scopeRows, RoleScope(code)) == if key in WrittenKeys(j) then ScopeRowsOf(code, RoleDocs(j)[key].scopes, j.version) else []
  {
    PolicyRowsIdentity(j, CreatedPolicies(j), policyRows);
    FilterAll(policyRows, RoleScope(code));
    if key !in WrittenKeys(j) {
      FilterAll(scopeRows, RoleScope(code));
    }
  }

  lemma OldScopes(j: Job, data: map<nat, DataRow>, code: string)
    requires OldRowsKept(j, data) && forall id :: id in ReplacedPolicies(j) ==> PolicyDocs(j)[id].subjectType != ROLE
    ensures Select(data, j.t.nextId, RoleScope(code)) ==
      if code in CodesOf(j, DeletedKeys(j)) || code in CodesOf(j, WrittenKeys(j)) then []
      else Select(j.t.data, j.t.nextId, RoleScope(code))
  {
    if code in CodesOf(j, DeletedKeys(j)) || code in CodesOf(j, WrittenKeys(j)) {
      SelectNone(data, j.t.nextId, RoleScope(code));
    } else {
      SelectAgree(data, j.t.data, j.t.nextId, RoleScope(code));
    }
  }

  lemma OldScopesAfterImport(j: Job, data: map<nat, DataRow>, n: nat, scopeRows: seq<DataRow>, policyRows: seq<DataRow>, code: string)
    requires DataReconciled(j, data, n, scopeRows, policyRows) && DeletedPolicies(j) !! ReplacedPolicies(j) && !WritesRoleSubject(j)
    ensures Select(data, j.t.nextId, RoleScope(code)) ==
      if code in CodesOf(j, DeletedKeys(j)) || code in CodesOf(j, WrittenKeys(j)) then []
      else Select(j.t.data, j.t.nextId, RoleScope(code))
  {
    OldIds(j, data, n, scopeRows, policyRows);
    NoRoleSubjects(j);
    OldScopes(j, data, code);
  }

  lemma NoRoleSubjects(j: Job)
    requires !WritesRoleSubject(j)
    ensures forall id :: id in ReplacedPolicies(j) ==> PolicyDocs(j)[id].subjectType != ROLE
    ensures forall id :: id in CreatedPolicies(j) ==> PolicyDocs(j)[id].subjectType != ROLE
  {
    forall id | id in ReplacedPolicies(j) || id in CreatedPolicies(j)
      ensures PolicyDocs(j)[id].subjectType != ROLE
    {
      assert id in CreatedPolicies(j) + ReplacedPolicies(j);
    }
  }

  lemma NewScopesAfterImport(j: Job, data: map<nat, DataRow>, n: nat, scopeRows: seq<DataRow>, policyRows: seq<DataRow>, key: string, code: string)
    requires DataReconciled(j, data, n, scopeRows, policyRows) && !WritesRoleSubject(j)
    requires key in WrittenKeys(j) ==> code == TargetCode(j.m, key)
    requires key !in WrittenKeys(j) ==> code !in CodesOf(j, WrittenKeys(j))
    ensures Select(data, n, RoleScope(code)) == Select(data, j.t.nextId, RoleScope(code))
      + if key in WrittenKeys(j) then ScopeRowsOf(code, RoleDocs(j)[key].scopes, j.version) else []
  {
    hide WrittenKeys, CreatedPolicies, KeptData, Select, Filter, CodesOf, ScopeRowsFor, PolicyRowsFor, Appended, WritesRoleSubject;
    NoRoleSubjects(j);
    SelectAfter(j, data, n, scopeRows, policyRows, RoleScope(code));
    AppendedScopes(j, scopeRows, policyRows, key, code);
  }

  /** A written role has exactly its declared scopes, in order. */
  lemma WrittenScopes(j: Job, data: map<nat, DataRow>, n: nat, scopeRows: seq<DataRow>, policyRows: seq<DataRow>, key: string)
    requires DataReconciled(j, data, n, scopeRows, policyRows) && DeletedPolicies(j) !! ReplacedPolicies(j) && !WritesRoleSubject(j)
    requires key in WrittenKeys(j)
    ensures Select(data, n, RoleScope(TargetCode(j.m, key))) == ScopeRowsOf(TargetCode(j.m, key), RoleDocs(j)[key].scopes, j.version)
  {
    OldScopesAfterImport(j, data, n, scopeRows, policyRows, TargetCode(j.m, key));
    NewScopesAfterImport(j, data, n, scopeRows, policyRows, key, TargetCode(j.m, key));
  }

  /** A role the plan leaves alone keeps its scopes. */
  lemma KeptScopes(j: Job, data: map<nat, DataRow>, n: nat, scopeRows: seq<DataRow>, policyRows: seq<DataRow>, key: string, code: string)
    requires DataReconciled(j, data, n, scopeRows, policyRows) && DeletedPolicies(j) !! ReplacedPolicies(j) && !WritesRoleSubject(j)
    requires key !in WrittenKeys(j) && code !in CodesOf(j, WrittenKeys(j)) && code !in CodesOf(j, DeletedKeys(j))
    ensures Select(data, n, RoleScope(code)) == Select(j.t.data, j.t.nextId, RoleScope(code))
  {
    OldScopesAfterImport(j, data, n, scopeRows, policyRows, code);
    NewScopesAfterImport(j, data, n, scopeRows, policyRows, key, code);
  }
}
