/** Imports that meet the exceptions of the convergence and export theorems. */
module ImportExamples {

  import opened Graph
  import opened Rules
  import opened Sorting
  import opened Tables
  import opened Projection
  import opened Enforcement
  import opened Iac
  import opened DataRows
  import opened Snapshot
  import opened ImportTarget
  import opened Convergence
  import opened Replan
  import opened Export

  const READ := PermissionDoc("doc:read", "doc", "read", "api", "read", "")

  lemma IndexOne<T>(x: T, key: T -> string)
    ensures Index([x], key) == map[key(x) := x] && Index<T>([], key) == map[]
  {
    assert [x][..0] == [];
  }

  lemma GroupOne<T(!new)>(x: T, key: T -> string, k: string)
    ensures Group([x], key, k) == (if key(x) == k then [x] else []) && Group<T>([], key, k) == []
  {
    assert [x][..0] == [];
  }

  lemma NotBlank(s: string)
    requires s != "" && 'a' <= s[0] <= 'z'
    ensures !Blank(s)
  {
    assert !IsSpace(s[0]);
  }

  /** The job of importing a document into an application that holds nothing. */
  ghost function FirstJob(d: Document, version: nat): Job {
    Job(EMPTY_TABLES, d, EMPTY_CURRENT, map[], version)
  }

  lemma FirstIsSound(d: Document, version: nat)
    requires Valid(d)
    ensures Sound(FirstJob(d, version))
  {
    hide Valid;
  }

  /** Everything declared is created. */
  lemma FirstVerdict(d: Document, version: nat, entity: Entity, id: string)
    requires Valid(d)
    ensures var j := FirstJob(d, version);
      Verdict(j, entity, id) ==
      if (match entity case PermissionEntity => id in PermissionDocs(j) case RoleEntity => id in RoleDocs(j) case PolicyEntity => id in PolicyDocs(j))
      then Some(Create) else None
  {
    var j := FirstJob(d, version);
    if entity == PolicyEntity {
      assert Select(j.t.data, 1, TopLevel) == [];
      PolicyVerdictIs(j, id);
      assert Select(j.t.data, 0, TopIdentity(id)) == [] && !HitAt(j.t.data, TopIdentity(id), 0);
      assert StoredAt(j, id) == [];
    }
  }

  lemma FirstPlan(d: Document, version: nat)
    requires Valid(d)
    ensures var j := FirstJob(d, version);
      && NoConflict(j) && WrittenKeys(j) == RoleDocs(j).Keys && DeletedKeys(j) == {} && CodesOf(j, {}) == {}
      && WrittenPermissions(j) == PermissionDocs(j).Keys && DeletedPermissions(j) == {}
      && CreatedPolicies(j) == PolicyDocs(j).Keys && ReplacedPolicies(j) == {} && DeletedPolicies(j) == {}
  {
    var j := FirstJob(d, version);
    forall entity, id
      ensures Verdict(j, entity, id) == Some(Create) || Verdict(j, entity, id) == None
      ensures Verdict(j, PermissionEntity, id) == Some(Create) <==> id in PermissionDocs(j)
      ensures Verdict(j, RoleEntity, id) == Some(Create) <==> id in RoleDocs(j)
      ensures Verdict(j, PolicyEntity, id) == Some(Create) <==> id in PolicyDocs(j)
    {
      FirstVerdict(d, version, entity, id);
      FirstVerdict(d, version, PermissionEntity, id);
      FirstVerdict(d, version, RoleEntity, id);
      FirstVerdict(d, version, PolicyEntity, id);
    }
    hide Verdict, RoleDocs, PolicyDocs, PermissionDocs;
  }

  /** A first import creates what the document declares. */
  lemma FirstReconciles(d: Document, version: nat, j: Job, t': Tables, scopeRows: seq<DataRow>, policyRows: seq<DataRow>)
    requires Valid(d) && j == FirstJob(d, version)
    requires t'.permissions == PermissionRows(j, WrittenPermissions(j)) && t'.roles == RoleRows(j, WrittenKeys(j))
    requires t'.grants == NewGrants(j, WrittenKeys(j)) && t'.inherits == {} && t'.bindings == {}
    requires ScopeRowsFor(j, WrittenKeys(j), scopeRows) && PolicyRowsFor(j, CreatedPolicies(j), policyRows)
    requires t'.data == Appended(1, scopeRows + policyRows) && t'.nextId == 1 + |scopeRows| + |policyRows|
    ensures Reconciled(j, t', scopeRows, policyRows)
  {
    FirstPlan(d, version);
    NothingKept(j);
    hide Valid, FirstJob, WrittenKeys, DeletedKeys, WrittenPermissions, DeletedPermissions, CreatedPolicies, ReplacedPolicies,
      DeletedPolicies, PermissionRows, RoleRows, NewGrants, ScopeRowsFor, PolicyRowsFor, CodesOf, KeptData, GrantsOutside, EdgesOutside,
      Appended, Governed, NoConflict, RoleDocs, PolicyDocs, PermissionDocs;
    FirstRows(j, t');
    FirstData(j, t'.data, t'.nextId, scopeRows, policyRows);
    hide PermissionsReconciled, RolesReconciled, DataReconciled;
  }

  lemma FirstRows(j: Job, t': Tables)
    requires j.t == EMPTY_TABLES && DeletedPermissions(j) == {} && DeletedKeys(j) == {} && CodesOf(j, {}) == {}
    requires GrantsOutside(j.t.grants, Governed(j)) == map[]
    requires t'.permissions == PermissionRows(j, WrittenPermissions(j)) && t'.roles == RoleRows(j, WrittenKeys(j))
    requires t'.grants == NewGrants(j, WrittenKeys(j))
    ensures PermissionsReconciled(j, t') && RolesReconciled(j, t')
  {
    hide DeletedPermissions, DeletedKeys, CodesOf, Governed, GrantsOutside, PermissionRows, RoleRows, NewGrants, WrittenPermissions, WrittenKeys;
    OntoNothing(t'.permissions);
    OntoNothing(t'.roles);
    OntoNothing(t'.grants);
    assert j.t.roles - {} == map[];
  }

  lemma FirstData(j: Job, data: map<nat, DataRow>, n: nat, scopeRows: seq<DataRow>, policyRows: seq<DataRow>)
    requires j.t == EMPTY_TABLES && KeptData(j) == map[]
    requires ScopeRowsFor(j, WrittenKeys(j), scopeRows) && PolicyRowsFor(j, CreatedPolicies(j), policyRows)
    requires data == Appended(1, scopeRows + policyRows) && n == 1 + |scopeRows| + |policyRows|
    ensures DataReconciled(j, data, n, scopeRows, policyRows)
  {
    hide KeptData, ScopeRowsFor, PolicyRowsFor, Appended, WrittenKeys, CreatedPolicies;
    OntoNothing(data);
  }

  lemma OntoNothing<K, V>(m: map<K, V>)
    ensures map[] + m == m && (map[] + m) - {} == m
  {
  }

  lemma NothingKept(j: Job)
    requires j.t == EMPTY_TABLES && ReplacedPolicies(j) == {}
    ensures GrantsOutside(j.t.grants, Governed(j)) == map[] && KeptData(j) == map[]
    ensures EdgesOutside(j.t.inherits, CodesOf(j, DeletedKeys(j))) == {}
  {
    hide ReplacedPolicies, Governed, CodesOf, DeletedKeys, DeletedPolicies, KeptData;
    NoDataKept(j);
  }

  lemma OneCode(j: Job, key: string)
    requires key !in j.m
    ensures CodesOf(j, {key}) == {IAC_PREFIX + key}
  {
  }

  // ---------------------------------------------------------------- a repeated permission code

  const REPEATING := Document("", [READ], [RoleDoc("r", "r", "", ["doc:read", "doc:read"], [])], [])

  const REPEATED_TABLES := Tables(
    map["doc:read" := PermissionRow(READ)], map["iac:r" := Role("r", "", IAC)], map[Grant("iac:r", "doc:read") := ALLOW],
    {}, {}, map[], 1)

  const REPEATED_CURRENT := Current(
    [CurrentPermission("doc:read", PermissionRow(READ))], [CurrentRole("r", "r", "", IAC, ["doc:read"], [], false)], [])

  ghost function RepeatedRun(version: nat): Run {
    Run(FirstJob(REPEATING, version), REPEATED_TABLES, REPEATED_CURRENT, [], [])
  }

  lemma RepeatingIsValid()
    ensures Valid(REPEATING)
  {
    NotBlank("doc:read");
    NotBlank("doc");
    NotBlank("read");
    NotBlank("api");
    NotBlank("r");
    assert READ in REPEATING.permissions && "doc:read" in Declared(REPEATING.permissions);
    hide Blank;
    assert PermissionComplete(READ);
  }

  lemma RepeatingPlan(version: nat)
    ensures var j := FirstJob(REPEATING, version);
      && WrittenKeys(j) == {"r"} && CodesOf(j, {"r"}) == {"iac:r"} && WrittenPermissions(j) == {"doc:read"} && CreatedPolicies(j) == {}
      && RoleDocs(j) == map["r" := REPEATING.roles[0]] && PermissionDocs(j) == map["doc:read" := READ]
  {
    var j := FirstJob(REPEATING, version);
    RepeatingIsValid();
    FirstPlan(REPEATING, version);
    IndexOne(REPEATING.roles[0], RoleKey);
    IndexOne(READ, PermissionCode);
    assert PolicyDocs(j).Keys == {};
    hide *;
    assert RoleDocs(j).Keys == {"r"};
    OneCode(j, "r");
    assert IAC_PREFIX + "r" == "iac:r";
  }

  lemma RepeatedIsReconciled(version: nat)
    ensures Reconciled(FirstJob(REPEATING, version), REPEATED_TABLES, [], [])
  {
    var j := FirstJob(REPEATING, version);
    RepeatingIsValid();
    RepeatingPlan(version);
    RepeatedRows(j, version);
    hide Valid, WrittenKeys, WrittenPermissions, CreatedPolicies, PermissionRows, RoleRows, NewGrants, ScopeRowsFor, PolicyRowsFor, Reconciled,
      CodesOf, RoleDocs, PermissionDocs, PolicyDocs, FirstJob, PermissionRow;
    FirstReconciles(REPEATING, version, j, REPEATED_TABLES, [], []);
  }

  lemma RepeatedRows(j: Job, version: nat)
    requires j == FirstJob(REPEATING, version)
    ensures PermissionRows(j, WrittenPermissions(j)) == REPEATED_TABLES.permissions
    ensures RoleRows(j, WrittenKeys(j)) == REPEATED_TABLES.roles && NewGrants(j, WrittenKeys(j)) == REPEATED_TABLES.grants
    ensures ScopeRowsFor(j, WrittenKeys(j), []) && PolicyRowsFor(j, CreatedPolicies(j), [])
  {
    RepeatingPlan(version);
    RepeatedGrants(j, version);
    hide WrittenKeys, WrittenPermissions, CreatedPolicies, RoleDocs, PermissionDocs, PolicyDocs, CodesOf, DeclaredGrants;
    assert IacRoleKey("iac:r") == "r";
    hide ScopeRowsFor, PolicyRowsFor;
    NoScopeRows(j, {"r"});
  }

  lemma RepeatedGrants(j: Job, version: nat)
    requires j == FirstJob(REPEATING, version)
    ensures DeclaredGrants(j, {"r"}) == {Grant("iac:r", "doc:read")}
  {
    RepeatingPlan(version);
    hide RoleDocs, WrittenKeys, WrittenPermissions, CreatedPolicies, CodesOf;
    assert TargetCode(j.m, "r") == "iac:r";
    assert "doc:read" in RoleDocs(j)["r"].codes;
  }

  lemma RepeatedIsRead()
    ensures IsSnapshot(REPEATED_TABLES, REPEATED_CURRENT)
  {
    var t, c := REPEATED_TABLES, REPEATED_CURRENT;
    assert IacRoleKey("iac:r") == "r";
    assert Select(t.data, 0, RoleScope("iac:r")) == [] && Select(t.data, 1, RoleScope("iac:r")) == [];
    assert Select(t.data, 0, TopLevel) == [] && Select(t.data, 1, TopLevel) == [];
    hide Select;
    assert RoleMatches(t, "iac:r", c.roles[0]);
    assert ReadsSomeRole(t, c.roles[0]) && ReadBySome(t, c.roles, "iac:r");
    assert c.permissions[0] in c.permissions;
  }

  /** A role that lists a permission twice is stored with one grant, so the next plan updates it again. */
  lemma RepeatedCodeRecurs(version: nat) returns (r: Finished)
    ensures r == RepeatedRun(version) && RepeatsCode(r.j) && !WritesRoleSubject(r.j) && Next(r, RoleEntity, "r") == Some(Update)
  {
    var run := RepeatedRun(version);
    RepeatingIsValid();
    FirstIsSound(REPEATING, version);
    FirstPlan(REPEATING, version);
    RepeatedIsReconciled(version);
    RepeatedIsRead();
    RepeatingPlan(version);
    hide Sound, NoConflict, Reconciled, IsSnapshot, WrittenKeys, Valid, RoleDocs, CreatedPolicies, ReplacedPolicies, Next;
    assert IsFinished(run);
    r := run;
    assert RoleDocs(r.j)["r"].codes[0] == RoleDocs(r.j)["r"].codes[1];
    RoleSettled(r, "r");
  }

  // ---------------------------------------------------------------- a top-level policy with the role subject type

  const SCOPED := PolicyDoc("role", "admin", "doc", "allow", "{}")
  const SCOPING := Document("", [], [], [SCOPED])

  ghost function ScopedTables(version: nat): Tables {
    EMPTY_TABLES.(data := map[1 := PolicyRow(SCOPED, version)], nextId := 2)
  }

  ghost function ScopedRun(version: nat): Run {
    Run(FirstJob(SCOPING, version), ScopedTables(version), EMPTY_CURRENT, [], [PolicyRow(SCOPED, version)])
  }

  lemma ScopingIsValid()
    ensures Valid(SCOPING)
  {
    NotBlank("role");
    NotBlank("admin");
    NotBlank("doc");
    assert !IsSpace("{}"[0]);
  }

  lemma ScopingPlan(version: nat)
    ensures var j := FirstJob(SCOPING, version);
      && PolicyDocs(j) == map[PolicyId(SCOPED) := SCOPED] && CreatedPolicies(j) == {PolicyId(SCOPED)}
      && WrittenKeys(j) == {} && WrittenPermissions(j) == {}
  {
    var j := FirstJob(SCOPING, version);
    ScopingIsValid();
    FirstPlan(SCOPING, version);
    IndexOne(SCOPED, PolicyId);
    hide CreatedPolicies, WrittenKeys, WrittenPermissions, Valid, NoConflict, PolicyId;
    assert RoleDocs(j).Keys == {} && PermissionDocs(j).Keys == {};
  }

  lemma ScopedIsReconciled(version: nat)
    ensures Reconciled(FirstJob(SCOPING, version), ScopedTables(version), [], [PolicyRow(SCOPED, version)])
  {
    var j := FirstJob(SCOPING, version);
    ScopingIsValid();
    ScopingPlan(version);
    ScopedRows(j);
    ScopedPolicyRow(j, version);
    hide Valid, PermissionRows, RoleRows, NewGrants, ScopeRowsFor, PolicyRowsFor, Reconciled, Appended, PolicyRow, FirstJob,
      WrittenKeys, WrittenPermissions, CreatedPolicies, PolicyDocs, PolicyId;
    FirstReconciles(SCOPING, version, j, ScopedTables(version), [], [PolicyRow(SCOPED, version)]);
  }

  lemma ScopedRows(j: Job)
    requires WrittenKeys(j) == {} && WrittenPermissions(j) == {}
    ensures PermissionRows(j, WrittenPermissions(j)) == map[] && RoleRows(j, WrittenKeys(j)) == map[]
    ensures NewGrants(j, WrittenKeys(j)) == map[] && ScopeRowsFor(j, WrittenKeys(j), [])
  {
    hide PolicyDocs, WrittenKeys, WrittenPermissions, CreatedPolicies;
    assert CodesOf(j, {}) == {} && DeclaredGrants(j, {}) == {};
  }

  lemma ScopedPolicyRow(j: Job, version: nat)
    requires j.version == version && PolicyDocs(j) == map[PolicyId(SCOPED) := SCOPED] && CreatedPolicies(j) == {PolicyId(SCOPED)}
    ensures PolicyRowsFor(j, CreatedPolicies(j), [PolicyRow(SCOPED, version)])
    ensures Appended(1, [PolicyRow(SCOPED, version)]) == map[1 := PolicyRow(SCOPED, version)]
  {
    hide PolicyDocs, CreatedPolicies, PolicyId, PolicyRow;
  }

  lemma ScopedIsRead(version: nat)
    ensures IsSnapshot(ScopedTables(version), EMPTY_CURRENT)
  {
    var data := ScopedTables(version).data;
    assert Select(data, 0, TopLevel) == [] && Select(data, 1, TopLevel) == [];
    assert Select(data, 2, TopLevel) == [];
  }

  /** A top-level policy for a role is stored among the role scopes, where the next plan does not look, so it is created again. */
  lemma RoleSubjectRecurs(version: nat) returns (r: Finished)
    ensures r == ScopedRun(version) && WritesRoleSubject(r.j) && !RepeatsCode(r.j) && Next(r, PolicyEntity, PolicyId(SCOPED)) == Some(Create)
  {
    var run := ScopedRun(version);
    ScopingIsValid();
    FirstIsSound(SCOPING, version);
    FirstPlan(SCOPING, version);
    ScopingPlan(version);
    ScopedIsReconciled(version);
    ScopedIsRead(version);
    hide Sound, NoConflict, Reconciled, IsSnapshot, Valid, Next, CreatedPolicies, WrittenKeys, ReplacedPolicies;
    assert IsFinished(run);
    r := run;
    assert PolicyId(SCOPED) in CreatedPolicies(r.j);
    PolicySettled(r, PolicyId(SCOPED));
  }

  // ---------------------------------------------------------------- an own export of a deny grant

  const EDITOR := RoleDoc("editor", "editor", "", ["doc:read"], [])

  /** A manual role that denies its one user a permission. */
  const DENYING := Tables(
    map["doc:read" := Permission("doc", "read", "api", "read", "", MANUAL)], map["editor" := Role("editor", "", MANUAL)],
    map[Grant("editor", "doc:read") := DENY], {}, {Binding("ann", "editor")}, map[], 1)

  const DENYING_CURRENT := Current(
    [CurrentPermission("doc:read", Permission("doc", "read", "api", "read", "", MANUAL))],
    [CurrentRole("editor", "editor", "", MANUAL, ["doc:read"], [], true)], [])

  const DENYING_EXPORT := Document(API_VERSION, [READ], [EDITOR], [])

  const ALLOWING := DENYING.(
    permissions := map["doc:read" := PermissionRow(READ)], roles := map["editor" := RoleRow(EDITOR)],
    grants := map[Grant("editor", "doc:read") := ALLOW])

  ghost function OwnJob(version: nat): Job {
    Job(DENYING, DENYING_EXPORT, DENYING_CURRENT, map["editor" := "editor"], version)
  }

  lemma ExportIsValid()
    ensures Valid(DENYING_EXPORT)
  {
    NotBlank("doc:read");
    NotBlank("doc");
    NotBlank("read");
    NotBlank("api");
    NotBlank("editor");
    assert READ in DENYING_EXPORT.permissions && "doc:read" in Declared(DENYING_EXPORT.permissions);
    hide Blank;
    assert PermissionComplete(READ);
  }

  lemma EditorKey()
    ensures IacRoleKey("editor") == "editor" && Expressible("editor")
  {
    assert IAC_PREFIX[0] != "editor"[0];
  }

  lemma DenyingIsRead()
    ensures IsSnapshot(DENYING, DENYING_CURRENT)
  {
    var t, c := DENYING, DENYING_CURRENT;
    EditorKey();
    EditorIsRead();
    NothingSelected(TopLevel);
    hide Select, RoleMatches, IacRoleKey;
    assert ReadsSomeRole(t, c.roles[0]) && ReadBySome(t, c.roles, "editor");
    assert c.permissions[0] in c.permissions;
  }

  lemma NothingSelected(sel: Selector)
    ensures Select(map[], 1, sel) == []
  {
    assert Select(map[], 0, sel) == [] && !HitAt(map[], sel, 0);
  }

  lemma EditorIsRead()
    ensures RoleMatches(DENYING, "editor", DENYING_CURRENT.roles[0])
  {
    EditorKey();
    NothingSelected(RoleScope("editor"));
    hide Select, IacRoleKey;
    assert Binding("ann", "editor") in DENYING.bindings;
  }

  lemma EditorIsIndexed()
    ensures WellFormed(DENYING) && IsRoleIndex(DENYING, map["editor" := "editor"])
  {
    EditorKey();
    hide IacRoleKey, Expressible;
  }

  lemma EditorIsExported()
    ensures IsExport(DENYING_CURRENT, DENYING_EXPORT)
  {
  }

  lemma IsOwnExport(version: nat)
    ensures OwnExport(OwnJob(version))
  {
    ExportIsValid();
    DenyingIsRead();
    EditorIsIndexed();
    EditorIsExported();
    hide Valid, IsSnapshot, IsRoleIndex, WellFormed, IsExport;
  }

  lemma OwnPlan(version: nat)
    ensures var j := OwnJob(version);
      && WrittenKeys(j) == {"editor"} && WrittenPermissions(j) == {"doc:read"} && CreatedPolicies(j) == {}
      && RoleDocs(j) == map["editor" := EDITOR] && PermissionDocs(j) == map["doc:read" := READ]
      && ReplacedPolicies(j) == {} && DeletedPolicies(j) == {}
  {
    var j := OwnJob(version);
    IndexOne(EDITOR, RoleKey);
    IndexOne(READ, PermissionCode);
    OwnVerdicts(j);
    hide Verdict;
    assert PolicyDocs(j) == map[];
  }

  lemma OwnVerdicts(j: Job)
    requires j.d == DENYING_EXPORT && j.c == DENYING_CURRENT
    ensures Verdict(j, RoleEntity, "editor") == Some(Adopt) && Verdict(j, PermissionEntity, "doc:read") == Some(Adopt)
  {
    hide Decision;
    EditorIsExported();
    IndexOne(DENYING_CURRENT.roles[0], CurrentKey);
    IndexOne(DENYING_CURRENT.permissions[0], CurrentCode);
    ExportedRoleVerdict(j.c, j.d, "editor");
    ExportedPermissionVerdict(j.c, j.d, "doc:read");
  }

  lemma OwnRows(j: Job, version: nat)
    requires j == OwnJob(version)
    ensures PermissionRows(j, {"doc:read"}) == ALLOWING.permissions && RoleRows(j, {"editor"}) == ALLOWING.roles
    ensures NewGrants(j, {"editor"}) == ALLOWING.grants && CodesOf(j, {"editor"}) == {"editor"}
  {
    OwnPlan(version);
    hide RoleDocs, PermissionDocs, WrittenKeys, WrittenPermissions, CreatedPolicies, ReplacedPolicies, DeletedPolicies;
    EditorKey();
    assert TargetCode(j.m, "editor") == "editor";
    assert "doc:read" in RoleDocs(j)["editor"].codes;
    assert DeclaredGrants(j, {"editor"}) == {Grant("editor", "doc:read")};
  }

  lemma OwnIsReconciled(version: nat)
    ensures Reconciled(OwnJob(version), ALLOWING, [], [])
  {
    var j := OwnJob(version);
    IsOwnExport(version);
    OwnPlan(version);
    NothingDeleted(j);
    OwnRows(j, version);
    hide OwnExport, WrittenKeys, DeletedKeys, WrittenPermissions, DeletedPermissions, CreatedPolicies, ReplacedPolicies, DeletedPolicies,
      PermissionRows, RoleRows, NewGrants, RoleDocs, PermissionDocs, PolicyDocs, CodesOf;
    OwnPermissions(j);
    OwnRoles(j);
    OwnData(j);
    hide RolesReconciled, DataReconciled, PermissionsReconciled, EdgesOutside, OwnJob;
  }

  lemma OwnPermissions(j: Job)
    requires j.t == DENYING && WrittenPermissions(j) == {"doc:read"} && DeletedPermissions(j) == {}
    requires PermissionRows(j, {"doc:read"}) == ALLOWING.permissions
    ensures PermissionsReconciled(j, ALLOWING) && EdgesOutside(j.t.inherits, CodesOf(j, DeletedKeys(j))) == {}
  {
    hide WrittenPermissions, DeletedPermissions, PermissionRows, CodesOf, DeletedKeys;
    assert (j.t.permissions + ALLOWING.permissions) - {} == ALLOWING.permissions;
  }

  lemma OwnRoles(j: Job)
    requires j.t == DENYING && WrittenKeys(j) == {"editor"} && CodesOf(j, {"editor"}) == {"editor"} && CodesOf(j, DeletedKeys(j)) == {}
    requires RoleRows(j, {"editor"}) == ALLOWING.roles && NewGrants(j, {"editor"}) == ALLOWING.grants
    ensures RolesReconciled(j, ALLOWING)
  {
    hide WrittenKeys, DeletedKeys, CodesOf, RoleRows, NewGrants;
    assert GrantsOutside(j.t.grants, {"editor"}) == map[];
    OntoNothing(ALLOWING.grants);
    assert Governed(j) == {"editor"};
  }

  lemma OwnData(j: Job)
    requires j.t == DENYING && j.d == DENYING_EXPORT && WrittenKeys(j) == {"editor"} && RoleDocs(j) == map["editor" := EDITOR]
    requires ReplacedPolicies(j) == {} && CreatedPolicies(j) == {}
    ensures DataReconciled(j, ALLOWING.data, ALLOWING.nextId, [], [])
  {
    hide WrittenKeys, DeletedKeys, CodesOf, Governed, RoleDocs, ReplacedPolicies, CreatedPolicies, DeletedPolicies, ScopeRowsFor,
      PolicyRowsFor, KeptData, Appended;
    NoScopeRows(j, {"editor"});
    NoDataKept(j);
    assert Appended(1, []) == map[];
    OntoNothing(ALLOWING.data);
  }

  lemma NoScopeRows(j: Job, keys: set<string>)
    requires forall key | key in keys && key in RoleDocs(j) :: RoleDocs(j)[key].scopes == []
    ensures ScopeRowsFor(j, keys, []) && PolicyRowsFor(j, {}, [])
  {
    hide RoleDocs, PolicyDocs, CodesOf;
    forall key | key in keys && key in RoleDocs(j)
      ensures ScopeRowsOf(TargetCode(j.m, key), RoleDocs(j)[key].scopes, j.version) == []
    {
    }
  }

  lemma NoDataKept(j: Job)
    requires j.t.data == map[] && ReplacedPolicies(j) == {}
    ensures KeptData(j) == map[]
  {
    hide ReplacedPolicies, Governed, DeletedPolicies, PolicyDocs;
    assert ReplacedRows(j, {}) == map[];
  }

  /** Importing its own export, the application gives its user the permission that it denied. */
  lemma OwnExportAllows(version: nat, domain: string) returns (j: Job)
    ensures j == OwnJob(version) && OwnExport(j) && Reconciled(j, ALLOWING, [], []) && LosesEffect(j.t)
    ensures Project(ALLOWING, domain) != Project(j.t, domain)
    ensures !TablesAllow(j.t, "ann", "doc", "read") && TablesAllow(ALLOWING, "ann", "doc", "read")
  {
    j := OwnJob(version);
    IsOwnExport(version);
    OwnIsReconciled(version);
    EditorKey();
    var g := Grant("editor", "doc:read");
    assert g in j.t.grants && TakenOver(j.t, g.role);
    AnnIsAllowed();
    hide OwnExport, Reconciled, TablesAllow, Project;
    OwnImportKeepsRules(j, ALLOWING, [], [], domain);
  }

  lemma AnnIsAllowed()
    ensures !TablesAllow(DENYING, "ann", "doc", "read") && TablesAllow(ALLOWING, "ann", "doc", "read")
  {
    var b, g := Binding("ann", "editor"), Grant("editor", "doc:read");
    ReachSelf(ALLOWING.inherits, "editor");
    assert b in ALLOWING.bindings && Holds(ALLOWING, "ann", "editor");
    assert g in ALLOWING.grants;
  }
}
