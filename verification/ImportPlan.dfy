/** Carries a whole plan out: it succeeds unless an ungoverned role blocks a permission delete, and then the tables are reconciled. */
module ImportPlan {

  import opened Graph
  import opened Sorting
  import opened Tables
  import opened Iac
  import opened DataRows
  import opened Snapshot
  import opened ImportTarget
  import opened Import

  // ---------------------------------------------------------------- the plan names exactly the entities with a verdict

  /** `ids` are the identities of the entity whose verdict is among `kinds`. */
  ghost predicate HaveVerdict(j: Job, entity: Entity, kinds: set<Kind>, ids: set<string>) {
    forall id :: id in ids <==> Verdict(j, entity, id).Some? && Verdict(j, entity, id).value in kinds
  }

  lemma PlannedAre(j: Job, plan: seq<Item>, entity: Entity, kinds: set<Kind>, ids: set<string>)
    requires IsPlan(j.d, j.c, plan) && HaveVerdict(j, entity, kinds, ids)
    ensures PlannedIds(plan, entity, kinds) == ids
  {
    forall id | id in ids
      ensures id in PlannedIds(plan, entity, kinds)
    {
      assert Item(Verdict(j, entity, id).value, entity, id) in plan;
    }
    forall id | id in PlannedIds(plan, entity, kinds)
      ensures id in ids
    {
      var it :| it in plan && it.entity == entity && it.kind in kinds && it.id == id;
      assert Verdict(j, it.entity, it.id) == Some(it.kind);
    }
  }

  lemma RoleSets(j: Job)
    requires Sound(j)
    ensures HaveVerdict(j, RoleEntity, {Delete}, DeletedKeys(j)) && HaveVerdict(j, RoleEntity, WRITES, WrittenKeys(j))
  {
    forall key
      ensures key in DeletedKeys(j) <==> Verdict(j, RoleEntity, key) == Some(Delete)
      ensures key in WrittenKeys(j) <==> Writes(Verdict(j, RoleEntity, key))
    {
      RoleVerdict(j, key);
      RoleDeleted(j, key);
    }
  }

  lemma PermissionSets(j: Job)
    requires Sound(j)
    ensures HaveVerdict(j, PermissionEntity, {Delete}, DeletedPermissions(j))
    ensures HaveVerdict(j, PermissionEntity, WRITES, WrittenPermissions(j))
  {
    forall code
      ensures code in DeletedPermissions(j) <==> Verdict(j, PermissionEntity, code) == Some(Delete)
      ensures code in WrittenPermissions(j) <==> Writes(Verdict(j, PermissionEntity, code))
    {
      PermissionVerdict(j, code);
    }
  }

  lemma PolicySets(j: Job)
    requires Sound(j)
    ensures HaveVerdict(j, PolicyEntity, {Delete}, DeletedPolicies(j))
    ensures HaveVerdict(j, PolicyEntity, {Adopt, Update}, ReplacedPolicies(j))
    ensures HaveVerdict(j, PolicyEntity, {Create}, CreatedPolicies(j))
  {
    forall id
      ensures id in DeletedPolicies(j) <==> Verdict(j, PolicyEntity, id) == Some(Delete)
      ensures id in ReplacedPolicies(j) <==> Verdict(j, PolicyEntity, id) == Some(Adopt) || Verdict(j, PolicyEntity, id) == Some(Update)
      ensures id in CreatedPolicies(j) <==> Verdict(j, PolicyEntity, id) == Some(Create)
    {
      PolicyVerdict(j, id);
    }
  }

  // ---------------------------------------------------------------- each phase leaves the next one what it relies on

  /** The tables before roles are written. */
  ghost function BeforeRoles(j: Job): Tables {
    var t := AfterRoleDeletes(j, DeletedKeys(j));
    t.(permissions := t.permissions + PermissionRows(j, WrittenPermissions(j)),
       data := t.data - TopIds(j.t.data, DeletedPolicies(j)))
  }

  lemma CodesExist(j: Job, key: string)
    requires Sound(j) && key in RoleDocs(j)
    ensures forall p :: p in RoleDocs(j)[key].codes ==> p in PermissionDocs(j) && p in BeforeRoles(j).permissions
    ensures forall s :: s in RoleDocs(j)[key].scopes ==> KnownEffect(s.effect)
  {
    assert RoleComplete(RoleDocs(j)[key], Declared(j.d.permissions));
    forall p | p in RoleDocs(j)[key].codes
      ensures p in PermissionDocs(j) && p in BeforeRoles(j).permissions
    {
      var doc :| doc in j.d.permissions && doc.code == p;
      IndexDistinct(j.d.permissions, PermissionCode, doc);
      PermissionVerdict(j, p);
    }
  }

  lemma KeptCode(j: Job, key: string)
    requires Sound(j) && Writes(Verdict(j, RoleEntity, key))
    ensures TargetCode(j.m, key) !in CodesOf(j, DeletedKeys(j))
    ensures Verdict(j, RoleEntity, key) == Some(Create) ==> TargetCode(j.m, key) !in j.t.roles
  {
    RoleVerdict(j, key);
    DeclaredRole(j, key);
    RoleDeleted(j, key);
    if k :| k in DeletedKeys(j) && TargetCode(j.m, k) == TargetCode(j.m, key) {
      CodesDiffer(j, k, key);
    }
  }

  lemma RoleIsReady(j: Job, it: Item)
    requires Sound(j) && Verdict(j, RoleEntity, it.id) == Some(it.kind) && it.kind in WRITES
    ensures RoleReady(j, BeforeRoles(j), it)
  {
    hide Sound, Verdict, BeforeRoles, ScopeIds, RoleDocs, TargetCode, KnownEffect, NormEffect;
    RoleIsDeclared(j, it);
    RoleIsPlaced(j, it);
  }

  /** What a written role declares can be written. */
  lemma RoleIsDeclared(j: Job, it: Item)
    requires Sound(j) && Verdict(j, RoleEntity, it.id) == Some(it.kind) && it.kind in WRITES
    ensures it.id in RoleDocs(j) && IacRoleKey(TargetCode(j.m, it.id)) == it.id
    ensures forall p :: p in RoleDocs(j)[it.id].codes ==> p in BeforeRoles(j).permissions
    ensures forall s :: s in RoleDocs(j)[it.id].scopes ==> KnownEffect(NormEffect(s.effect))
  {
    hide Valid, WellFormed, IsSnapshot, IsRoleIndex, Verdict, BeforeRoles, CodesOf, DeletedKeys, RoleDocs;
    RoleVerdict(j, it.id);
    DeclaredRole(j, it.id);
    CodesExist(j, it.id);
  }

  /** Its code is free when it is new, and still taken by a role of the right source when it is not. */
  lemma RoleIsPlaced(j: Job, it: Item)
    requires Sound(j) && Verdict(j, RoleEntity, it.id) == Some(it.kind) && it.kind in WRITES
    ensures var base, code := BeforeRoles(j), TargetCode(j.m, it.id);
      && (it.kind == Create ==> it.id !in j.m && code !in base.roles)
      && (it.kind == Adopt ==> it.id in j.m && j.m[it.id] in base.roles && base.roles[j.m[it.id]].source == MANUAL)
      && (it.kind == Update ==> it.id in j.m && j.m[it.id] in base.roles && base.roles[j.m[it.id]].source == IAC)
      && (forall id :: id in ScopeIds(j.t.data, {code}) ==> id in base.data)
  {
    assert it.id in j.m ==> j.m[it.id] in j.t.roles;
    hide Valid, WellFormed, IsSnapshot, IsRoleIndex, Sound, Verdict, BeforeRoles, CodesOf, DeletedKeys, WrittenKeys, ScopeIds, RoleDocs;
    RoleVerdict(j, it.id);
    KeptCode(j, it.id);
    RoleStays(j, TargetCode(j.m, it.id));
  }

  /** A role that is not deleted is still there with its scopes when roles are written. */
  lemma RoleStays(j: Job, code: string)
    requires code !in CodesOf(j, DeletedKeys(j))
    ensures code in BeforeRoles(j).roles <==> code in j.t.roles
    ensures code in j.t.roles ==> BeforeRoles(j).roles[code] == j.t.roles[code]
    ensures forall id :: id in ScopeIds(j.t.data, {code}) ==> id in BeforeRoles(j).data
  {
    hide DeletedKeys, WrittenPermissions, PermissionRows, DeletedPolicies;
  }

  lemma StoredOnce(j: Job, ids: set<string>)
    requires Sound(j) && (ids == DeletedPolicies(j) || ids == ReplacedPolicies(j))
    ensures forall id | id in ids :: |StoredAt(j, id)| == 1
  {
    forall id | id in ids
      ensures |StoredAt(j, id)| == 1
    {
      PolicyVerdict(j, id);
    }
  }

  /** A stored policy that the plan replaces is still there when policies are written. */
  lemma ReplacedStays(j: Job, written: set<string>, rows: seq<DataRow>, id: nat)
    requires id in j.t.data && j.t.data[id].subjectType != ROLE && RowIdentity(j.t.data[id]) !in DeletedPolicies(j) && id < j.t.nextId
    ensures id in DataAfterRoles(j, BeforeRoles(j), written, rows) && DataAfterRoles(j, BeforeRoles(j), written, rows)[id] == j.t.data[id]
  {
  }

  lemma ReplacedIsStored(j: Job, tops: map<string, nat>, id: string, t: Tables, rows: seq<DataRow>)
    requires WellFormed(j.t) && IsTopIndex(j.t, tops) && |StoredAt(j, id)| == 1 && id !in DeletedPolicies(j)
    requires RolesWritten(j, BeforeRoles(j), WrittenKeys(j), rows, t)
    ensures id in tops && TopIds(j.t.data, {id}) == {tops[id]} && 0 < tops[id] < t.nextId
    ensures tops[id] in t.data && RowIdentity(t.data[tops[id]]) == id
  {
    OneTopRow(j, tops, id);
    ReplacedStays(j, WrittenKeys(j), rows, tops[id]);
  }

  lemma WrittenPolicy(j: Job, it: Item)
    requires Sound(j) && Verdict(j, PolicyEntity, it.id) == Some(it.kind) && it.kind in WRITES
    ensures it.id in PolicyDocs(j) && KnownEffect(PolicyDocs(j)[it.id].effect) && it.id !in DeletedPolicies(j)
    ensures it.kind != Create ==> |StoredAt(j, it.id)| == 1
  {
    PolicyVerdict(j, it.id);
    DeclaredEffect(j, it.id);
  }

  lemma PolicyIsReady(j: Job, tops: map<string, nat>, it: Item, t: Tables, rows: seq<DataRow>)
    requires it.id in PolicyDocs(j) && KnownEffect(PolicyDocs(j)[it.id].effect) && it.id !in DeletedPolicies(j)
    requires it.kind != Create ==> |StoredAt(j, it.id)| == 1
    requires WellFormed(j.t) && IsTopIndex(j.t, tops) && RolesWritten(j, BeforeRoles(j), WrittenKeys(j), rows, t)
    ensures PolicyReady(j, t, tops, it)
  {
    if it.kind != Create {
      ReplacedIsStored(j, tops, it.id, t, rows);
    }
  }

  lemma DeclaredEffect(j: Job, id: string)
    requires Valid(j.d) && id in PolicyDocs(j)
    ensures KnownEffect(PolicyDocs(j)[id].effect)
  {
    assert PolicyComplete(PolicyDocs(j)[id]);
  }

  // ---------------------------------------------------------------- composing the phases

  lemma ComposeGrants(j: Job)
    ensures GrantsAfterRoles(j, BeforeRoles(j), WrittenKeys(j))
         == TargetGrants(j)
  {
    var gone, written := CodesOf(j, DeletedKeys(j)), CodesOf(j, WrittenKeys(j));
    assert GrantsOutside(GrantsOutside(j.t.grants, gone), written) == GrantsOutside(j.t.grants, gone + written);
  }

  lemma DataAlgebra(t: map<nat, DataRow>, a: set<nat>, b: set<nat>, c: set<nat>, x: map<nat, DataRow>, y: map<nat, DataRow>, z: map<nat, DataRow>)
    requires x.Keys !! y.Keys
    ensures ((((t - a) - b) - c) + x + y) + z == ((t - (a + c) - b) + y) + (x + z)
  {
    assert ((t - a) - b) - c == t - (a + c) - b;
  }

  lemma ComposeData(j: Job, t: Tables, scopeRows: seq<DataRow>, policyRows: seq<DataRow>)
    requires forall id :: id in j.t.data ==> id < j.t.nextId
    requires RolesWritten(j, BeforeRoles(j), WrittenKeys(j), scopeRows, t)
    ensures (t.data + ReplacedRows(j, ReplacedPolicies(j))) + Appended(t.nextId, policyRows)
         == KeptData(j) + Appended(j.t.nextId, scopeRows + policyRows)
  {
    var gone, written := CodesOf(j, DeletedKeys(j)), CodesOf(j, WrittenKeys(j));
    var a, c := ScopeIds(j.t.data, gone), ScopeIds(j.t.data, written);
    assert a + c == ScopeIds(j.t.data, gone + written);
    var n := t.nextId;
    AppendedJoin(j.t.nextId, scopeRows, n, policyRows);
    DataAlgebra(j.t.data, a, TopIds(j.t.data, DeletedPolicies(j)), c, Appended(j.t.nextId, scopeRows),
      ReplacedRows(j, ReplacedPolicies(j)), Appended(n, policyRows));
  }

  lemma BindingsStay(j: Job)
    requires Sound(j)
    ensures AfterRoleDeletes(j, DeletedKeys(j)).bindings == j.t.bindings
  {
    forall b | b in j.t.bindings
      ensures b.role !in CodesOf(j, DeletedKeys(j))
    {
      if key :| key in DeletedKeys(j) && TargetCode(j.m, key) == b.role {
        RoleDeleted(j, key);
      }
    }
  }

  lemma RoleIndexIsUnique(t: Tables, m: map<string, string>, m': map<string, string>)
    requires IsRoleIndex(t, m) && IsRoleIndex(t, m')
    ensures m == m' && KeysUnique(t)
  {
  }

  /** Phases A and B1: role and policy deletes, then permission writes. */
  method DeleteAndWritePermissions(tx: Tx, d: Document, plan: seq<Item>, m: map<string, string>, scopes: map<string, seq<nat>>,
                                   tops: map<string, nat>, ghost j: Job)
      returns (r: Result<seq<DataPolicyChange>, ImportError>)
    requires WellFormed(j.t) && IsRoleIndex(j.t, j.m) && IsTopIndex(j.t, tops) && OncePerIdentity(plan)
    requires tx.t == j.t && d == j.d && m == j.m
    requires forall code :: IdsOf(scopes, code) == SelectIds(j.t.data, j.t.nextId, RoleScope(code))
    requires PlannedIds(plan, RoleEntity, {Delete}) == DeletedKeys(j)
    requires PlannedIds(plan, PolicyEntity, {Delete}) == DeletedPolicies(j)
    requires PlannedIds(plan, PermissionEntity, WRITES) == WrittenPermissions(j)
    requires forall id | id in DeletedPolicies(j) :: |StoredAt(j, id)| == 1
    modifies tx
    ensures r.Success? && tx.t == BeforeRoles(j) && Accounts(View(j.t.data), r.value, tx.t)
  {
    var rolesDeleted := DeletePlannedRoles(tx, plan, m, scopes, j);
    if rolesDeleted.Failure? {
      return rolesDeleted;
    }
    r := DeletePlannedPolicies(tx, plan, tops, rolesDeleted.value, j, tx.t);
    if r.Failure? {
      return r;
    }
    var docs := BuildIndex(d.permissions, PermissionCode);
    WritePlannedPermissions(tx, plan, docs, j, tx.t);
  }

  lemma AllRolesReady(j: Job, plan: seq<Item>)
    requires Sound(j) && IsPlan(j.d, j.c, plan)
    ensures forall it | it in plan && it.entity == RoleEntity && it.kind in WRITES :: RoleReady(j, BeforeRoles(j), it)
  {
    forall it | it in plan && it.entity == RoleEntity && it.kind in WRITES
      ensures RoleReady(j, BeforeRoles(j), it)
    {
      assert Verdict(j, it.entity, it.id) == Some(it.kind);
      RoleIsReady(j, it);
    }
  }

  lemma AllPoliciesReady(j: Job, plan: seq<Item>, tops: map<string, nat>, t: Tables, rows: seq<DataRow>)
    requires Sound(j) && IsPlan(j.d, j.c, plan) && IsTopIndex(j.t, tops)
    requires RolesWritten(j, BeforeRoles(j), WrittenKeys(j), rows, t)
    ensures forall it | it in plan && it.entity == PolicyEntity && it.kind in WRITES :: PolicyReady(j, t, tops, it)
  {
    forall it | it in plan && it.entity == PolicyEntity && it.kind in WRITES
      ensures PolicyReady(j, t, tops, it)
    {
      assert Verdict(j, it.entity, it.id) == Some(it.kind);
      WrittenPolicy(j, it);
      PolicyIsReady(j, tops, it, t, rows);
    }
  }

  /** Phases B2 and B3: roles, then top-level policies. */
  method WriteRolesAndPolicies(tx: Tx, d: Document, plan: seq<Item>, m: map<string, string>, scopes: map<string, seq<nat>>,
                               tops: map<string, nat>, version: nat, changes: seq<DataPolicyChange>, ghost j: Job)
      returns (r: Result<seq<DataPolicyChange>, ImportError>, ghost scopeRows: seq<DataRow>, ghost policyRows: seq<DataRow>, ghost mid: Tables)
    requires Sound(j) && IsPlan(j.d, j.c, plan) && IsTopIndex(j.t, tops)
    requires tx.t == BeforeRoles(j) && d == j.d && m == j.m && version == j.version
    requires forall code :: IdsOf(scopes, code) == SelectIds(j.t.data, j.t.nextId, RoleScope(code))
    requires Accounts(View(j.t.data), changes, tx.t)
    modifies tx
    ensures r.Success? && Accounts(View(j.t.data), r.value, tx.t)
    ensures RolesWritten(j, BeforeRoles(j), PlannedIds(plan, RoleEntity, WRITES), scopeRows, mid)
    ensures ScopeRowsFor(j, PlannedIds(plan, RoleEntity, WRITES), scopeRows)
    ensures PoliciesDone(j, mid, plan, |plan|, policyRows, tx.t)
  {
    var roleDocs := BuildIndex(d.roles, RoleKey);
    var policyDocs := BuildIndex(d.policies, PolicyId);
    AllRolesReady(j, plan);
    r, scopeRows := WritePlannedRoles(tx, plan, roleDocs, m, scopes, version, changes, j, tx.t);
    mid := tx.t;
    policyRows := [];
    if r.Failure? {
      return;
    }
    RoleSets(j);
    PlannedAre(j, plan, RoleEntity, WRITES, WrittenKeys(j));
    AllPoliciesReady(j, plan, tops, tx.t, scopeRows);
    r, policyRows := WritePlannedPolicies(tx, plan, policyDocs, tops, version, r.value, j, tx.t);
  }

  /** All phases but the last, composed. */
  lemma Composed(j: Job, plan: seq<Item>, mid: Tables, t: Tables, scopeRows: seq<DataRow>, policyRows: seq<DataRow>)
    requires WellFormed(j.t) && AfterRoleDeletes(j, DeletedKeys(j)).bindings == j.t.bindings
    requires RolesWritten(j, BeforeRoles(j), WrittenKeys(j), scopeRows, mid) && ScopeRowsFor(j, WrittenKeys(j), scopeRows)
    requires PoliciesWritten(j, mid, ReplacedPolicies(j), policyRows, t) && PolicyRowsFor(j, CreatedPolicies(j), policyRows)
    ensures Reconciled(j, t.(permissions := t.permissions - DeletedPermissions(j)), scopeRows, policyRows)
  {
    ComposeGrants(j);
    ComposeData(j, mid, scopeRows, policyRows);
  }

  /** No declared grant refers to a permission the plan deletes. */
  ghost predicate DeclaredGrantsKept(j: Job) {
    forall g | g in NewGrants(j, WrittenKeys(j)) :: g.permission !in DeletedPermissions(j)
  }

  lemma DeclaredGrantsAreKept(j: Job)
    requires Sound(j)
    ensures DeclaredGrantsKept(j)
  {
    forall g | g in DeclaredGrants(j, WrittenKeys(j))
      ensures g.permission !in DeletedPermissions(j)
    {
      var key, p :| key in WrittenKeys(j) && key in RoleDocs(j) && p in RoleDocs(j)[key].codes && g == Grant(TargetCode(j.m, key), p);
      CodesExist(j, key);
      PermissionVerdict(j, p);
    }
  }

  lemma BlockedKeepsReference(j: Job, t: Tables)
    requires t.grants == TargetGrants(j)
    requires Blocked(j)
    ensures exists code :: code in DeletedPermissions(j) && Referenced(t, code)
  {
    var g :| g in j.t.grants && g.permission in DeletedPermissions(j)
      && g.role !in CodesOf(j, DeletedKeys(j)) && g.role !in CodesOf(j, WrittenKeys(j));
    assert g in t.grants;
    assert Referenced(t, g.permission);
  }

  lemma ReferenceMeansBlocked(j: Job, t: Tables, code: string)
    requires t.grants == TargetGrants(j)
    requires DeclaredGrantsKept(j) && code in DeletedPermissions(j) && Referenced(t, code)
    ensures Blocked(j)
  {
    var g :| g in t.grants && g.permission == code;
    assert g !in NewGrants(j, WrittenKeys(j));
  }

  lemma StillGrantedIffBlocked(j: Job, t: Tables)
    requires DeclaredGrantsKept(j) && t.grants == GrantsAfterRoles(j, BeforeRoles(j), WrittenKeys(j))
    ensures (exists code :: code in DeletedPermissions(j) && Referenced(t, code)) <==> Blocked(j)
  {
    ComposeGrants(j);
    if Blocked(j) {
      BlockedKeepsReference(j, t);
    }
    if code :| code in DeletedPermissions(j) && Referenced(t, code) {
      ReferenceMeansBlocked(j, t, code);
    }
  }

  lemma DeletedAreThere(j: Job, mid: Tables, t: Tables, scopeRows: seq<DataRow>, policyRows: seq<DataRow>)
    requires RolesWritten(j, BeforeRoles(j), WrittenKeys(j), scopeRows, mid)
    requires PoliciesWritten(j, mid, ReplacedPolicies(j), policyRows, t)
    ensures forall code :: code in DeletedPermissions(j) ==> code in t.permissions
    ensures t.grants == GrantsAfterRoles(j, BeforeRoles(j), WrittenKeys(j))
  {
  }

  /** Phase C: deletes permissions last, when only ungoverned roles can still refer to them. */
  method DeletePermissionsLast(tx: Tx, plan: seq<Item>, changes: seq<DataPolicyChange>, ghost j: Job, ghost mid: Tables,
                               ghost scopeRows: seq<DataRow>, ghost policyRows: seq<DataRow>)
      returns (r: Result<seq<DataPolicyChange>, ImportError>)
    requires OncePerIdentity(plan) && PlannedIds(plan, PermissionEntity, {Delete}) == DeletedPermissions(j)
    requires WellFormed(j.t) && AfterRoleDeletes(j, DeletedKeys(j)).bindings == j.t.bindings && DeclaredGrantsKept(j)
    requires RolesWritten(j, BeforeRoles(j), WrittenKeys(j), scopeRows, mid) && ScopeRowsFor(j, WrittenKeys(j), scopeRows)
    requires PoliciesWritten(j, mid, ReplacedPolicies(j), policyRows, tx.t) && PolicyRowsFor(j, CreatedPolicies(j), policyRows)
    requires Accounts(View(j.t.data), changes, tx.t)
    modifies tx
    ensures r.Success? <==> !Blocked(j)
    ensures r.Success? ==> Reconciled(j, tx.t, scopeRows, policyRows) && Accounts(View(j.t.data), r.value, tx.t)
  {
    DeletedAreThere(j, mid, tx.t, scopeRows, policyRows);
    StillGrantedIffBlocked(j, tx.t);
    Composed(j, plan, mid, tx.t, scopeRows, policyRows);
    var deleted := DeletePlannedPermissions(tx, plan);
    if deleted.Failure? {
      return Failure(deleted.error);
    }
    return Success(changes);
  }

  /**
   Carries out the plan computed from the snapshot of the same transaction.
   It succeeds exactly when no ungoverned role holds a permission to be deleted; the tables are then reconciled
   with the document, and the returned changes turn the old data policies into the new ones.
   */
  method ApplyImportPlan(tx: Tx, d: Document, plan: seq<Item>, version: nat, ghost j: Job)
      returns (r: Result<seq<DataPolicyChange>, ImportError>, ghost scopeRows: seq<DataRow>, ghost policyRows: seq<DataRow>)
    requires Sound(j) && IsPlan(j.d, j.c, plan) && tx.t == j.t && d == j.d && version == j.version
    modifies tx
    ensures r.Success? <==> !Blocked(j)
    ensures r.Success? ==> Reconciled(j, tx.t, scopeRows, policyRows) && Accounts(View(j.t.data), r.value, tx.t)
  {
    scopeRows, policyRows := [], [];
    var scopes, top := SplitDataPolicies(tx.t);
    var found, m := IndexRoles(tx.t);
    RoleIndexIsUnique(j.t, j.m, if found then m else j.m);
    if !found {
      return Failure(DuplicateKey), scopeRows, policyRows;
    }
    var tops := IndexTop(tx.t, top);
    Prepared(j, plan);
    r := DeleteAndWritePermissions(tx, d, plan, m, scopes, tops, j);
    if r.Failure? {
      return;
    }
    ghost var mid;
    r, scopeRows, policyRows, mid := WriteRolesAndPolicies(tx, d, plan, m, scopes, tops, version, r.value, j);
    if r.Failure? {
      return;
    }
    BindingsStay(j);
    DeclaredGrantsAreKept(j);
    AllDone(j, mid, plan, policyRows, tx.t);
    r := DeletePermissionsLast(tx, plan, r.value, j, mid, scopeRows, policyRows);
  }

  lemma AllDone(j: Job, mid: Tables, plan: seq<Item>, rows: seq<DataRow>, t: Tables)
    requires PoliciesDone(j, mid, plan, |plan|, rows, t)
    ensures PoliciesWritten(j, mid, PlannedIds(plan, PolicyEntity, {Adopt, Update}), rows, t)
    ensures PolicyRowsFor(j, PlannedIds(plan, PolicyEntity, {Create}), rows)
  {
    assert plan[..|plan|] == plan;
  }

  /** The plan's identities, by entity and kind. */
  lemma Prepared(j: Job, plan: seq<Item>)
    requires Sound(j) && IsPlan(j.d, j.c, plan)
    ensures PlannedIds(plan, RoleEntity, {Delete}) == DeletedKeys(j)
    ensures PlannedIds(plan, RoleEntity, WRITES) == WrittenKeys(j)
    ensures PlannedIds(plan, PermissionEntity, {Delete}) == DeletedPermissions(j)
    ensures PlannedIds(plan, PermissionEntity, WRITES) == WrittenPermissions(j)
    ensures PlannedIds(plan, PolicyEntity, {Delete}) == DeletedPolicies(j)
    ensures PlannedIds(plan, PolicyEntity, {Adopt, Update}) == ReplacedPolicies(j)
    ensures PlannedIds(plan, PolicyEntity, {Create}) == CreatedPolicies(j)
    ensures forall id | id in DeletedPolicies(j) :: |StoredAt(j, id)| == 1
  {
    RoleSets(j);
    PermissionSets(j);
    PolicySets(j);
    StoredOnce(j, DeletedPolicies(j));
    PlannedAre(j, plan, RoleEntity, {Delete}, DeletedKeys(j));
    PlannedAre(j, plan, RoleEntity, WRITES, WrittenKeys(j));
    PlannedAre(j, plan, PermissionEntity, {Delete}, DeletedPermissions(j));
    PlannedAre(j, plan, PermissionEntity, WRITES, WrittenPermissions(j));
    PlannedAre(j, plan, PolicyEntity, {Delete}, DeletedPolicies(j));
    PlannedAre(j, plan, PolicyEntity, {Adopt, Update}, ReplacedPolicies(j));
    PlannedAre(j, plan, PolicyEntity, {Create}, CreatedPolicies(j));
  }
}
