/** Exporting an application as a document, and importing that document back into the same application. */
module Export {

  import opened Graph
  import opened Rules
  import opened Sorting
  import opened Tables
  import opened Projection
  import opened Iac
  import opened DataRows
  import opened Snapshot
  import opened ImportTarget
  import opened Import
  import opened Convergence
  import opened Replan
  import opened ImportFrame

  function ExportedPermission(p: CurrentPermission): PermissionDoc {
    PermissionDoc(p.code, p.row.resource, p.row.action, p.row.kind, p.row.name, p.row.description)
  }

  function ExportedRole(r: CurrentRole): RoleDoc {
    RoleDoc(r.key, r.name, r.description, r.codes, r.scopes)
  }

  function ExportedPolicy(p: CurrentPolicy): PolicyDoc {
    PolicyDoc(p.subjectType, p.subjectId, p.resource, p.effect, p.condition)
  }

  ghost predicate IsExport(c: Current, d: Document) {
    && d.apiVersion == API_VERSION
    && |d.permissions| == |c.permissions| && |d.roles| == |c.roles| && |d.policies| == |c.policies|
    && (forall i :: 0 <= i < |c.permissions| ==> d.permissions[i] == ExportedPermission(c.permissions[i]))
    && (forall i :: 0 <= i < |c.roles| ==> d.roles[i] == ExportedRole(c.roles[i]))
    && (forall i :: 0 <= i < |c.policies| ==> d.policies[i] == ExportedPolicy(c.policies[i]))
  }

  /** Reads the application and writes it down as a document; fails exactly when two roles derive the same key. */
  method ExportAppPolicy(t: Tables) returns (ok: bool, d: Document, ghost c: Current)
    ensures ok <==> KeysUnique(t)
    ensures ok ==> IsSnapshot(t, c) && Ordered(c) && IsExport(c, d)
  {
    var current;
    ok, current := SnapshotCurrent(t);
    c := current;
    d := Document(API_VERSION, [], [], []);
    if !ok {
      return;
    }
    hide IsSnapshot, KeysUnique, Ordered;
    for i := 0 to |current.permissions|
      invariant d.apiVersion == API_VERSION && |d.permissions| == i && d.roles == [] && d.policies == []
      invariant forall j :: 0 <= j < i ==> d.permissions[j] == ExportedPermission(current.permissions[j])
    {
      d := d.(permissions := d.permissions + [ExportedPermission(current.permissions[i])]);
    }
    ghost var permissions := d.permissions;
    for i := 0 to |current.roles|
      invariant d.apiVersion == API_VERSION && |d.roles| == i && d.permissions == permissions && d.policies == []
      invariant forall j :: 0 <= j < i ==> d.roles[j] == ExportedRole(current.roles[j])
    {
      d := d.(roles := d.roles + [ExportedRole(current.roles[i])]);
    }
    ghost var roles := d.roles;
    for i := 0 to |current.policies|
      invariant d.apiVersion == API_VERSION && |d.policies| == i && d.permissions == permissions && d.roles == roles
      invariant forall j :: 0 <= j < i ==> d.policies[j] == ExportedPolicy(current.policies[j])
    {
      d := d.(policies := d.policies + [ExportedPolicy(current.policies[i])]);
    }
  }

  /** Two exports of the same tables agree, up to the order of their roles. */
  lemma ExportIsDetermined(t: Tables, c: Current, c': Current, d: Document, d': Document)
    requires IsSnapshot(t, c) && IsSnapshot(t, c') && Ordered(c) && Ordered(c') && IsExport(c, d) && IsExport(c', d')
    ensures d.apiVersion == d'.apiVersion && d.permissions == d'.permissions && d.policies == d'.policies
    ensures forall r :: r in d.roles <==> r in d'.roles
  {
    SnapshotIsDetermined(t, c, c');
    hide IsSnapshot, Ordered;
    forall r
      ensures r in d.roles <==> r in d'.roles
    {
      if r in d.roles {
        ExportedRoleIn(c, c', d, d', r);
      }
      if r in d'.roles {
        ExportedRoleIn(c', c, d', d, r);
      }
    }
  }

  lemma ExportedRoleIn(c: Current, c': Current, d: Document, d': Document, r: RoleDoc)
    requires IsExport(c, d) && IsExport(c', d') && (forall x :: x in c.roles ==> x in c'.roles) && r in d.roles
    ensures r in d'.roles
  {
    var i :| 0 <= i < |d.roles| && d.roles[i] == r;
    assert c.roles[i] in c'.roles;
    var k :| 0 <= k < |c'.roles| && c'.roles[k] == c.roles[i];
    assert d'.roles[k] == r;
  }

  // ---------------------------------------------------------------- its plan

  lemma {:induction false} IndexMapped<A, B>(xs: seq<A>, ys: seq<B>, keyA: A -> string, keyB: B -> string, f: A -> B)
    requires |xs| == |ys| && forall i :: 0 <= i < |xs| ==> ys[i] == f(xs[i])
    requires forall x :: keyB(f(x)) == keyA(x)
    ensures Index(ys, keyB).Keys == Index(xs, keyA).Keys
    ensures forall k | k in Index(xs, keyA) :: Index(ys, keyB)[k] == f(Index(xs, keyA)[k])
  {
    if xs != [] {
      IndexMapped(xs[..|xs| - 1], ys[..|ys| - 1], keyA, keyB, f);
    }
  }

  lemma {:induction false} GroupMapped<A(!new), B(!new)>(xs: seq<A>, ys: seq<B>, keyA: A -> string, keyB: B -> string, f: A -> B, k: string)
    requires |xs| == |ys| && forall i :: 0 <= i < |xs| ==> ys[i] == f(xs[i])
    requires forall x :: keyB(f(x)) == keyA(x)
    ensures |Group(ys, keyB, k)| == |Group(xs, keyA, k)|
    ensures forall i :: 0 <= i < |Group(xs, keyA, k)| ==> Group(ys, keyB, k)[i] == f(Group(xs, keyA, k)[i])
  {
    if xs != [] {
      var n := |xs| - 1;
      GroupMapped(xs[..n], ys[..n], keyA, keyB, f, k);
      assert Group(xs, keyA, k) == Group(xs[..n], keyA, k) + if keyA(xs[n]) == k then [xs[n]] else [];
      assert Group(ys, keyB, k) == Group(ys[..n], keyB, k) + if keyA(xs[n]) == k then [ys[n]] else [];
      hide Group;
    }
  }

  /** Nothing to do for what already belongs to policy-as-code; the rest is taken over, or left to its reporter. */
  function Taken(source: string): Option<Kind> {
    if source == MANUAL then Some(Adopt) else None
  }

  lemma ExportedPermissionVerdict(c: Current, d: Document, code: string)
    requires IsExport(c, d)
    ensures Decision(d, c, PermissionEntity, code) ==
      if code in Index(c.permissions, CurrentCode) then Taken(Index(c.permissions, CurrentCode)[code].row.source) else None
  {
    IndexMapped(c.permissions, d.permissions, CurrentCode, PermissionCode, ExportedPermission);
  }

  lemma ExportedRoleVerdict(c: Current, d: Document, key: string)
    requires IsExport(c, d)
    ensures Index(d.roles, RoleKey).Keys == Index(c.roles, CurrentKey).Keys
    ensures Decision(d, c, RoleEntity, key) ==
      if key in Index(c.roles, CurrentKey) then Taken(Index(c.roles, CurrentKey)[key].source) else None
    ensures key in Index(c.roles, CurrentKey) ==> Index(d.roles, RoleKey)[key] == ExportedRole(Index(c.roles, CurrentKey)[key])
  {
    IndexMapped(c.roles, d.roles, CurrentKey, RoleKey, ExportedRole);
  }

  lemma ExportedPolicyVerdict(c: Current, d: Document, id: string)
    requires IsExport(c, d) && Distinct(Keys(d.policies, PolicyId))
    ensures Decision(d, c, PolicyEntity, id) ==
      if Group(c.policies, CurrentPolicyId, id) != [] then Taken(Group(c.policies, CurrentPolicyId, id)[0].source) else None
  {
    hide PolicyDecision, Index, Taken;
    GroupMapped(c.policies, d.policies, CurrentPolicyId, PolicyId, ExportedPolicy, id);
    GroupDistinct(d.policies, PolicyId, id);
    ExportedPolicyDecision(Group(d.policies, PolicyId, id), Group(c.policies, CurrentPolicyId, id));
  }

  lemma ExportedPolicyDecision(ds: seq<PolicyDoc>, cs: seq<CurrentPolicy>)
    requires |ds| == |cs| <= 1 && forall i :: 0 <= i < |cs| ==> ds[i] == ExportedPolicy(cs[i])
    ensures PolicyDecision(ds, cs) == if cs != [] then Taken(cs[0].source) else None
  {
  }

  /** The plan for an application's own valid export only adopts. */
  lemma OwnExportOnlyAdopts(c: Current, d: Document, entity: Entity, id: string)
    requires IsExport(c, d) && Valid(d)
    ensures Decision(d, c, entity, id) == None || Decision(d, c, entity, id) == Some(Adopt)
  {
    match entity
    case PermissionEntity => ExportedPermissionVerdict(c, d, id);
    case RoleEntity => ExportedRoleVerdict(c, d, id);
    case PolicyEntity => ExportedPolicyVerdict(c, d, id);
  }

  // ---------------------------------------------------------------- its effect on the rules

  /** An application about to import its own valid export. */
  ghost predicate OwnExport(j: Job) {
    Sound(j) && IsExport(j.c, j.d)
  }

  lemma NothingDeleted(j: Job)
    requires OwnExport(j)
    ensures DeletedKeys(j) == {} && DeletedPermissions(j) == {} && CodesOf(j, DeletedKeys(j)) == {}
  {
    forall entity, id
      ensures Verdict(j, entity, id) != Some(Delete)
    {
      OwnExportOnlyAdopts(j.c, j.d, entity, id);
    }
    hide OwnExport, Verdict;
  }

  lemma PermissionsKeepMeaning(j: Job, t': Tables, code: string)
    requires OwnExport(j) && PermissionsReconciled(j, t')
    ensures code in t'.permissions <==> code in j.t.permissions
    ensures code in t'.permissions ==> t'.permissions[code].resource == j.t.permissions[code].resource
    ensures code in t'.permissions ==> t'.permissions[code].action == j.t.permissions[code].action
  {
    NothingDeleted(j);
    hide PermissionsReconciled, Valid, WellFormed, IsRoleIndex;
    SnapshotPermission(j, code);
    IndexMapped(j.c.permissions, j.d.permissions, CurrentCode, PermissionCode, ExportedPermission);
    PermissionAfter(j, t', code);
  }

  lemma WrittenRoleIsStored(j: Job, key: string)
    requires OwnExport(j) && key in WrittenKeys(j)
    ensures key in j.m && j.t.roles[j.m[key]].source == MANUAL
    ensures forall p :: p in RoleDocs(j)[key].codes <==> Grant(j.m[key], p) in j.t.grants
  {
    SoundParts(j);
    hide Valid, WellFormed, IsRoleIndex, Sound, IsSnapshot;
    SnapshotRole(j, key);
    ExportedRoleVerdict(j.c, j.d, key);
  }

  /** A role the import takes over: manual, and expressible as a document key. */
  predicate TakenOver(t: Tables, code: string) {
    code in t.roles && t.roles[code].source == MANUAL && Expressible(IacRoleKey(code))
  }

  lemma WrittenAreTakenOver(j: Job, code: string)
    requires OwnExport(j)
    ensures code in CodesOf(j, WrittenKeys(j)) <==> TakenOver(j.t, code)
  {
    SoundParts(j);
    hide Valid, WellFormed, Sound, IsSnapshot, OwnExport;
    if key :| key in WrittenKeys(j) && TargetCode(j.m, key) == code {
      WrittenRoleIsStored(j, key);
    }
    if TakenOver(j.t, code) {
      TakenOverIsWritten(j, IacRoleKey(code));
      assert TargetCode(j.m, IacRoleKey(code)) == code;
    }
  }

  lemma TakenOverIsWritten(j: Job, key: string)
    requires OwnExport(j) && key in j.m && j.m[key] in j.t.roles && j.t.roles[j.m[key]].source == MANUAL
    ensures key in WrittenKeys(j)
  {
    SoundParts(j);
    hide Valid, WellFormed, Sound, IsSnapshot, IsRoleIndex;
    SnapshotRole(j, key);
    ExportedRoleVerdict(j.c, j.d, key);
  }

  /** The grants stay, but every grant of a role taken over becomes an allow grant. */
  lemma GrantsAfterOwnImport(j: Job, t': Tables, g: Grant)
    requires OwnExport(j) && RolesReconciled(j, t')
    ensures g in t'.grants <==> g in j.t.grants
    ensures g in t'.grants ==> t'.grants[g] == if TakenOver(j.t, g.role) then ALLOW else j.t.grants[g]
  {
    NothingDeleted(j);
    SoundParts(j);
    WrittenAreTakenOver(j, g.role);
    hide Sound, OwnExport, TakenOver, WellFormed, IsSnapshot, Valid, RolesReconciled, IsRoleIndex;
    if g.role in CodesOf(j, WrittenKeys(j)) {
      var key :| key in WrittenKeys(j) && TargetCode(j.m, key) == g.role;
      WrittenRoleIsStored(j, key);
      WrittenGrantsAfter(j, t', key, g.permission);
      WrittenGrantsAllow(j, t', g);
    } else {
      KeptRoleAfter(j, t', g.role);
      if g in j.t.grants {
        KeptEffects(j, t', g.role);
      }
    }
  }

  lemma RolesStay(j: Job, t': Tables)
    requires OwnExport(j) && RolesReconciled(j, t')
    ensures t'.roles.Keys == j.t.roles.Keys
  {
    NothingDeleted(j);
    SoundParts(j);
    hide Sound, WellFormed, IsSnapshot, Valid;
    forall code | code in RoleRows(j, WrittenKeys(j))
      ensures code in j.t.roles
    {
      WrittenAreTakenOver(j, code);
    }
  }

  /** The role is taken over and holds a grant that is not an allow grant. */
  ghost predicate LosesEffect(t: Tables) {
    exists g :: g in t.grants && TakenOver(t, g.role) && t.grants[g] != ALLOW
  }

  /** Two tables that agree on everything the projection reads, except perhaps the effects of grants. */
  ghost predicate SameButEffects(t: Tables, t': Tables) {
    && t.roles.Keys == t'.roles.Keys && t.inherits == t'.inherits && t.bindings == t'.bindings
    && t.grants.Keys == t'.grants.Keys && t.permissions.Keys == t'.permissions.Keys
    && forall code | code in t.permissions ::
        t'.permissions[code].resource == t.permissions[code].resource && t'.permissions[code].action == t.permissions[code].action
  }

  lemma SameEffectsSameRules(t: Tables, t': Tables, domain: string)
    requires SameButEffects(t, t') && forall g | g in t.grants :: t'.grants[g] == t.grants[g]
    ensures Project(t', domain) == Project(t, domain)
  {
    assert PermissionRules(t', domain) == PermissionRules(t, domain);
    assert BindingRules(t', domain) == BindingRules(t, domain);
    assert InheritanceRules(t', domain) == InheritanceRules(t, domain);
  }

  /** The rule of a grant whose role has only allow grants afterwards is lost. */
  lemma LostRule(t: Tables, t': Tables, domain: string, g: Grant)
    requires g in t.grants && g.role in t.roles && g.permission in t.permissions && t.grants[g] != ALLOW
    requires forall h | h in t'.grants && h.role == g.role :: t'.grants[h] == ALLOW
    ensures Project(t', domain) != Project(t, domain)
  {
    var r := PermissionRule(g.role, domain, t.permissions[g.permission], t.grants[g]);
    assert r in PermissionRules(t, domain);
    assert r !in Project(t', domain);
  }

  lemma OwnImportSameButEffects(j: Job, t': Tables, scopeRows: seq<DataRow>, policyRows: seq<DataRow>)
    requires OwnExport(j) && Reconciled(j, t', scopeRows, policyRows)
    ensures SameButEffects(j.t, t')
  {
    hide OwnExport, Reconciled, RolesReconciled, PermissionsReconciled, DataReconciled, DeletedKeys, CodesOf;
    ReconciledParts(j, t', scopeRows, policyRows);
    NothingDeleted(j);
    RolesStay(j, t');
    assert t'.inherits == j.t.inherits;
    forall g
      ensures g in t'.grants <==> g in j.t.grants
    {
      GrantsAfterOwnImport(j, t', g);
    }
    forall code
      ensures code in t'.permissions <==> code in j.t.permissions
      ensures code in t'.permissions ==> t'.permissions[code].resource == j.t.permissions[code].resource
      ensures code in t'.permissions ==> t'.permissions[code].action == j.t.permissions[code].action
    {
      PermissionsKeepMeaning(j, t', code);
    }
  }

  /** Importing an application's own export keeps its rules, unless a role taken over holds a deny grant. */
  lemma OwnImportKeepsRules(j: Job, t': Tables, scopeRows: seq<DataRow>, policyRows: seq<DataRow>, domain: string)
    requires OwnExport(j) && Reconciled(j, t', scopeRows, policyRows)
    ensures Project(t', domain) == Project(j.t, domain) <==> !LosesEffect(j.t)
  {
    hide OwnExport, Reconciled, RolesReconciled, PermissionsReconciled, DataReconciled, Project;
    OwnImportSameButEffects(j, t', scopeRows, policyRows);
    OwnExportIsWellFormed(j);
    ReconciledParts(j, t', scopeRows, policyRows);
    forall g
      ensures g in t'.grants <==> g in j.t.grants
      ensures g in t'.grants ==> t'.grants[g] == if TakenOver(j.t, g.role) then ALLOW else j.t.grants[g]
    {
      GrantsAfterOwnImport(j, t', g);
    }
    if LosesEffect(j.t) {
      var g :| g in j.t.grants && TakenOver(j.t, g.role) && j.t.grants[g] != ALLOW;
      LostRule(j.t, t', domain, g);
    } else {
      SameEffectsSameRules(j.t, t', domain);
    }
  }

  lemma OwnExportIsWellFormed(j: Job)
    requires OwnExport(j)
    ensures WellFormed(j.t)
  {
  }
}
