/** Planning again after an import finds nothing to do, exactly when two conditions on the document hold. */
module Replan {

  import opened Graph
  import opened Sorting
  import opened Tables
  import opened Iac
  import opened DataRows
  import opened Snapshot
  import opened ImportTarget
  import opened Import
  import opened ImportPlan
  import opened Convergence

  /** A conflict-free import that succeeded, and a snapshot taken after it. */
  datatype Run = Run(j: Job, t: Tables, c: Current, scopeRows: seq<DataRow>, policyRows: seq<DataRow>)

  ghost predicate IsFinished(r: Run) {
    && Sound(r.j) && NoConflict(r.j) && IsSnapshot(r.t, r.c)
    && Reconciled(r.j, r.t, r.scopeRows, r.policyRows)
  }

  const EMPTY_TABLES := Tables(map[], map[], map[], {}, {}, map[], 1)
  const EMPTY_CURRENT := Current([], [], [])
  const EMPTY_RUN := Run(Job(EMPTY_TABLES, Document("", [], [], []), EMPTY_CURRENT, map[], 0), EMPTY_TABLES, EMPTY_CURRENT, [], [])

  /** Importing an empty document into an empty application finishes. */
  lemma EmptyRunFinishes()
    ensures IsFinished(EMPTY_RUN)
  {
    EmptyIsSound();
    EmptyDecidesNothing();
    EmptyReconciles();
    assert IsSnapshot(EMPTY_TABLES, EMPTY_CURRENT);
    hide Sound, NoConflict, IsSnapshot, Reconciled, DataReconciled;
  }

  lemma EmptyIsSound()
    ensures Sound(EMPTY_RUN.j)
  {
  }

  lemma EmptyDecidesNothing()
    ensures forall entity, id :: Verdict(EMPTY_RUN.j, entity, id) == None
  {
    forall entity: Entity, id: string
      ensures Verdict(EMPTY_RUN.j, entity, id) == None
    {
    }
  }

  lemma EmptyPlansNothing()
    ensures var j := EMPTY_RUN.j; WrittenKeys(j) == {} && DeletedKeys(j) == {} && CodesOf(j, {}) == {}
    ensures var j := EMPTY_RUN.j; CreatedPolicies(j) == {} && ReplacedPolicies(j) == {} && DeletedPolicies(j) == {}
    ensures var j := EMPTY_RUN.j; WrittenPermissions(j) == {} && DeletedPermissions(j) == {}
  {
    EmptyDecidesNothing();
    hide Verdict;
  }

  lemma EmptyReconciles()
    ensures Reconciled(EMPTY_RUN.j, EMPTY_TABLES, [], []) && DataReconciled(EMPTY_RUN.j, EMPTY_TABLES.data, 1, [], [])
  {
    EmptyPlansNothing();
    hide WrittenKeys, DeletedKeys, CodesOf, CreatedPolicies, ReplacedPolicies, DeletedPolicies, WrittenPermissions, DeletedPermissions;
  }

  type Finished = r: Run | IsFinished(r) ghost witness (EmptyRunFinishes(); EMPTY_RUN)

  lemma Parts(r: Finished)
    ensures Sound(r.j) && IsSnapshot(r.j.t, r.j.c) && IsSnapshot(r.t, r.c) && NoConflict(r.j)
    ensures RolesReconciled(r.j, r.t) && PermissionsReconciled(r.j, r.t)
    ensures DataReconciled(r.j, r.t.data, r.t.nextId, r.scopeRows, r.policyRows)
  {
    hide IsSnapshot, NoConflict, DataReconciled, Valid, WellFormed, IsRoleIndex;
  }

  /** The same document planned against the tables after the import. */
  ghost function Again(r: Run): Job {
    Job(r.t, r.j.d, r.c, IndexAfter(r.j), r.j.version)
  }

  ghost function IndexAfter(j: Job): map<string, string> {
    (j.m - DeletedKeys(j)) + map key | key in WrittenKeys(j) :: TargetCode(j.m, key)
  }

  /** What the next plan decides. */
  ghost function Next(r: Run, entity: Entity, id: string): Option<Kind> {
    Decision(r.j.d, r.c, entity, id)
  }

  // ---------------------------------------------------------------- permissions

  lemma PermissionAfter(j: Job, t': Tables, code: string)
    requires PermissionsReconciled(j, t')
    ensures code in DeletedPermissions(j) ==> code !in t'.permissions
    ensures code in WrittenPermissions(j) && code !in DeletedPermissions(j) ==>
      code in t'.permissions && t'.permissions[code] == PermissionRow(PermissionDocs(j)[code])
    ensures code !in WrittenPermissions(j) && code !in DeletedPermissions(j) ==>
      (code in t'.permissions <==> code in j.t.permissions)
      && (code in t'.permissions ==> t'.permissions[code] == j.t.permissions[code])
  {
  }

  ghost function PermissionVerdictOf(d: map<string, PermissionDoc>, t: map<string, Permission>, code: string): Option<Kind> {
    PermissionDecision(d, map c | c in t :: CurrentPermission(c, t[c]), code)
  }

  lemma PermissionVerdictIs(j: Job, code: string)
    requires IsSnapshot(j.t, j.c)
    ensures Verdict(j, PermissionEntity, code) == PermissionVerdictOf(PermissionDocs(j), j.t.permissions, code)
  {
    SnapshotPermission(j, code);
  }

  lemma PermissionSettledIn(d: map<string, PermissionDoc>, t: map<string, Permission>, t': map<string, Permission>, code: string)
    requires PermissionVerdictOf(d, t, code) == Some(Delete) ==> code !in t'
    requires Writes(PermissionVerdictOf(d, t, code)) ==> code in t' && t'[code] == PermissionRow(d[code])
    requires PermissionVerdictOf(d, t, code) == None ==> (code in t' <==> code in t) && (code in t' ==> t'[code] == t[code])
    ensures PermissionVerdictOf(d, t', code) == None
  {
  }

  /** After an import no permission has anything left to do. */
  lemma PermissionSettled(r: Finished, code: string)
    ensures Next(r, PermissionEntity, code) == None
  {
    hide Sound, NoConflict, IsSnapshot, IsFinished, DataReconciled, Reconciled;
    Parts(r);
    PermissionVerdictIs(r.j, code);
    PermissionVerdictIs(Again(r), code);
    PermissionVerdict(r.j, code);
    PermissionAfter(r.j, r.t, code);
    PermissionSettledIn(PermissionDocs(r.j), r.j.t.permissions, r.t.permissions, code);
  }

  // ---------------------------------------------------------------- policies

  lemma PolicySettledIn(d: seq<PolicyDoc>, c: seq<CurrentPolicy>, c': seq<CurrentPolicy>)
    requires |d| <= 1 && PolicyDecision(d, c) != Some(Conflict)
    requires PolicyDecision(d, c) == Some(Delete) ==> c' == []
    requires PolicyDecision(d, c) == None ==> c' == c
    requires Writes(PolicyDecision(d, c)) ==> c' == [] || (|c'| == 1 && c'[0].source == IAC && PolicyFieldsEqual(c'[0], d[0]))
    ensures PolicyDecision(d, c') == if Writes(PolicyDecision(d, c)) && c' == [] then Some(Create) else None
  {
    PolicyDecisionShape(d, c);
  }

  lemma CurrentPoliciesOfOne(row: DataRow)
    ensures CurrentPolicies([row]) == [CurrentPolicyOf(row)]
  {
  }

  lemma PolicyRowsAfter(r: Finished, id: string)
    ensures Select(r.t.data, r.t.nextId, TopIdentity(id)) ==
      if id in DeletedPolicies(r.j) then []
      else if id in ReplacedPolicies(r.j) || id in CreatedPolicies(r.j) then NewRow(r.j, id)
      else StoredAt(r.j, id)
  {
    DeletedNotReplaced(r.j);
    PolicyVerdict(r.j, id);
    StoredAfter(r.j, r.t.data, r.t.nextId, r.scopeRows, r.policyRows, id);
  }

  lemma DeletedNotReplaced(j: Job)
    requires Sound(j)
    ensures DeletedPolicies(j) !! ReplacedPolicies(j)
  {
    forall id | id in DeletedPolicies(j)
      ensures id !in ReplacedPolicies(j)
    {
      PolicyVerdict(j, id);
    }
  }

  lemma NewRowMatches(j: Job, id: string)
    requires Valid(j.d) && id in PolicyDocs(j)
    ensures CurrentPolicies(NewRow(j, id)) == [] <==> PolicyDocs(j)[id].subjectType == ROLE
    ensures PolicyDocs(j)[id].subjectType != ROLE ==> |CurrentPolicies(NewRow(j, id))| == 1
    ensures PolicyDocs(j)[id].subjectType != ROLE ==> CurrentPolicies(NewRow(j, id))[0].source == IAC
    ensures PolicyDocs(j)[id].subjectType != ROLE ==> PolicyFieldsEqual(CurrentPolicies(NewRow(j, id))[0], PolicyDocs(j)[id])
  {
    DeclaredEffect(j, id);
    CurrentPoliciesOfOne(PolicyRow(PolicyDocs(j)[id], j.version));
  }

  /** After an import a policy is settled, unless the import wrote it with the role subject type; then it is created again. */
  lemma PolicySettled(r: Finished, id: string)
    ensures Next(r, PolicyEntity, id) ==
      if id in CreatedPolicies(r.j) + ReplacedPolicies(r.j) && PolicyDocs(r.j)[id].subjectType == ROLE then Some(Create) else None
  {
    PolicyRowsAfter(r, id);
    PolicyVerdict(r.j, id);
    PolicyVerdictIs(r.j, id);
    PolicyVerdictIs(Again(r), id);
    assert Verdict(r.j, PolicyEntity, id) != Some(Conflict);
    if id in PolicyDocs(r.j) {
      NewRowMatches(r.j, id);
    }
    PolicySettledIn(DeclaredAt(r.j, id), CurrentPolicies(StoredAt(r.j, id)), CurrentPolicies(StoredAt(Again(r), id)));
  }

  // ---------------------------------------------------------------- roles

  lemma WrittenRoleAfter(j: Job, t': Tables, key: string)
    requires Valid(j.d) && IsRoleIndex(j.t, j.m) && RolesReconciled(j, t') && key in WrittenKeys(j)
    ensures TargetCode(j.m, key) in t'.roles && t'.roles[TargetCode(j.m, key)] == RoleRow(RoleDocs(j)[key])
  {
    DeclaredRole(j, key);
    assert TargetCode(j.m, key) in CodesOf(j, WrittenKeys(j));
  }

  lemma WrittenGrantsAfter(j: Job, t': Tables, key: string, p: string)
    requires IsRoleIndex(j.t, j.m) && RolesReconciled(j, t') && key in WrittenKeys(j)
    ensures Grant(TargetCode(j.m, key), p) in t'.grants <==> p in RoleDocs(j)[key].codes
  {
    var g := Grant(TargetCode(j.m, key), p);
    assert g.role in CodesOf(j, WrittenKeys(j));
    if g in DeclaredGrants(j, WrittenKeys(j)) {
      var k, q :| k in WrittenKeys(j) && k in RoleDocs(j) && q in RoleDocs(j)[k].codes && g == Grant(TargetCode(j.m, k), q);
      CodesDiffer(j, k, key);
    }
    if p in RoleDocs(j)[key].codes {
      assert g in DeclaredGrants(j, WrittenKeys(j));
    }
  }

  lemma WrittenGrantsAllow(j: Job, t': Tables, g: Grant)
    requires RolesReconciled(j, t') && g.role in CodesOf(j, WrittenKeys(j))
    ensures g in t'.grants ==> t'.grants[g] == ALLOW
  {
    hide CodesOf, DeclaredGrants, WrittenKeys, DeletedKeys;
  }

  /** A code outside the written and deleted ones keeps its row and its grants. */
  lemma KeptRoleAfter(j: Job, t': Tables, code: string)
    requires RolesReconciled(j, t') && code !in CodesOf(j, DeletedKeys(j)) && code !in CodesOf(j, WrittenKeys(j))
    ensures code in t'.roles <==> code in j.t.roles
    ensures code in t'.roles ==> t'.roles[code] == j.t.roles[code]
    ensures forall p :: Grant(code, p) in t'.grants <==> Grant(code, p) in j.t.grants
  {
    forall g | g in NewGrants(j, WrittenKeys(j))
      ensures g.role in CodesOf(j, WrittenKeys(j))
    {
    }
  }

  lemma IndexedWritten(j: Job, code: string)
    requires Valid(j.d) && IsRoleIndex(j.t, j.m) && code in RoleRows(j, WrittenKeys(j))
    ensures IacRoleKey(code) in WrittenKeys(j) && IndexAfter(j)[IacRoleKey(code)] == code
  {
    var k :| k in WrittenKeys(j) && TargetCode(j.m, k) == code;
    DeclaredRole(j, k);
  }

  lemma IndexedKept(j: Job, code: string)
    requires IsRoleIndex(j.t, j.m) && code in j.t.roles && code !in CodesOf(j, DeletedKeys(j)) && Expressible(IacRoleKey(code))
    ensures IacRoleKey(code) in IndexAfter(j) && IndexAfter(j)[IacRoleKey(code)] == code
  {
    var key := IacRoleKey(code);
    assert j.m[key] == code == TargetCode(j.m, key);
    assert key !in DeletedKeys(j);
  }

  lemma IndexedAfter(j: Job, t': Tables, code: string)
    requires Valid(j.d) && IsRoleIndex(j.t, j.m) && RolesReconciled(j, t')
    requires code in t'.roles && Expressible(IacRoleKey(code))
    ensures IacRoleKey(code) in IndexAfter(j) && IndexAfter(j)[IacRoleKey(code)] == code
  {
    if code in RoleRows(j, WrittenKeys(j)) {
      IndexedWritten(j, code);
    } else {
      IndexedKept(j, code);
    }
  }

  lemma KeyedAfter(j: Job, t': Tables, key: string)
    requires Valid(j.d) && IsRoleIndex(j.t, j.m) && RolesReconciled(j, t') && key in IndexAfter(j) && DeletedKeys(j) <= j.m.Keys
    ensures IndexAfter(j)[key] in t'.roles && IacRoleKey(IndexAfter(j)[key]) == key && Expressible(key)
  {
    if key in WrittenKeys(j) {
      WrittenRoleAfter(j, t', key);
      DeclaredRole(j, key);
    } else {
      CodeIsNew(j, DeletedKeys(j), key);
      CodeIsNew(j, WrittenKeys(j), key);
      KeptRoleAfter(j, t', j.m[key]);
    }
  }

  /** After an import every expressible role still has a key of its own. */
  lemma RoleIndexAfter(j: Job, t': Tables)
    requires Valid(j.d) && IsRoleIndex(j.t, j.m) && RolesReconciled(j, t') && DeletedKeys(j) !! WrittenKeys(j)
    ensures IsRoleIndex(t', IndexAfter(j)) && KeysUnique(t')
  {
    forall code | code in t'.roles && Expressible(IacRoleKey(code))
      ensures IacRoleKey(code) in IndexAfter(j) && IndexAfter(j)[IacRoleKey(code)] == code
    {
      IndexedAfter(j, t', code);
    }
    forall key | key in IndexAfter(j)
      ensures IndexAfter(j)[key] in t'.roles && IacRoleKey(IndexAfter(j)[key]) == key && Expressible(key)
    {
      KeyedAfter(j, t', key);
    }
  }

  lemma DeletedNotWritten(j: Job)
    requires Sound(j)
    ensures DeletedKeys(j) !! WrittenKeys(j)
  {
    forall key | key in DeletedKeys(j)
      ensures key !in WrittenKeys(j)
    {
      RoleDeleted(j, key);
    }
  }

  lemma ScopesBack(code: string, ss: seq<DataScope>, version: nat)
    requires forall s :: s in ss ==> KnownEffect(s.effect)
    ensures ScopesOfRows(ScopeRowsOf(code, ss, version)) == ss
  {
    forall i | 0 <= i < |ss|
      ensures ScopesOfRows(ScopeRowsOf(code, ss, version))[i] == ss[i]
    {
      assert ss[i] in ss;
    }
  }

  /** What the next snapshot reads of a written role agrees with the document, up to a repeated code. */
  lemma WrittenRoleAgrees(doc: RoleDoc, x: CurrentRole)
    requires x.name == doc.name && x.description == doc.description && x.scopes == doc.scopes
    requires Distinct(x.codes) && forall p :: p in x.codes <==> p in doc.codes
    ensures RoleFieldsEqual(x, doc) <==> Distinct(doc.codes)
  {
    if Distinct(doc.codes) {
      DistinctSameElements(x.codes, doc.codes);
    }
    if SortedCopy(x.codes) == SortedCopy(doc.codes) {
      SortedCopyDistinctBack(x.codes, doc.codes);
    }
  }

  /** Two snapshots of an untouched role agree with a document alike. */
  lemma KeptRoleAgrees(doc: RoleDoc, x: CurrentRole, y: CurrentRole)
    requires x.name == y.name && x.description == y.description && x.scopes == y.scopes
    requires Distinct(x.codes) && Distinct(y.codes) && forall p :: p in x.codes <==> p in y.codes
    ensures RoleFieldsEqual(x, doc) <==> RoleFieldsEqual(y, doc)
  {
    DistinctSameElements(x.codes, y.codes);
  }

  lemma ScopesAreKnown(j: Job, key: string)
    requires Valid(j.d) && key in RoleDocs(j)
    ensures forall s :: s in RoleDocs(j)[key].scopes ==> KnownEffect(s.effect)
  {
    assert RoleComplete(RoleDocs(j)[key], Declared(j.d.permissions));
  }

  lemma WrittenCodesAfter(r: Finished, key: string, codes: seq<string>)
    requires key in WrittenKeys(r.j) && HasCodes(r.t, TargetCode(r.j.m, key), codes)
    ensures Distinct(codes) && forall p :: p in codes <==> p in RoleDocs(r.j)[key].codes
  {
    forall p
      ensures p in codes <==> p in RoleDocs(r.j)[key].codes
    {
      WrittenGrantsAfter(r.j, r.t, key, p);
    }
  }

  lemma WrittenScopesAfter(r: Finished, key: string)
    requires key in WrittenKeys(r.j) && !WritesRoleSubject(r.j)
    ensures ScopesOfRows(Select(r.t.data, r.t.nextId, RoleScope(TargetCode(r.j.m, key)))) == RoleDocs(r.j)[key].scopes
  {
    DeletedNotReplaced(r.j);
    WrittenScopes(r.j, r.t.data, r.t.nextId, r.scopeRows, r.policyRows, key);
    ScopesAreKnown(r.j, key);
    ScopesBack(TargetCode(r.j.m, key), RoleDocs(r.j)[key].scopes, r.j.version);
  }

  /** What the next snapshot says of a written role. */
  lemma WrittenEntry(r: Finished, key: string, x: CurrentRole)
    requires key in WrittenKeys(r.j) && !WritesRoleSubject(r.j)
    requires TargetCode(r.j.m, key) in r.t.roles && RoleMatches(r.t, TargetCode(r.j.m, key), x)
    ensures x.source == IAC && (RoleFieldsEqual(x, RoleDocs(r.j)[key]) <==> Distinct(RoleDocs(r.j)[key].codes))
  {
    WrittenRoleAfter(r.j, r.t, key);
    WrittenCodesAfter(r, key, x.codes);
    WrittenScopesAfter(r, key);
    WrittenRoleAgrees(RoleDocs(r.j)[key], x);
  }

  lemma KeptScopesAfter(r: Finished, key: string)
    requires key in r.j.m && key !in WrittenKeys(r.j) && key !in DeletedKeys(r.j) && !WritesRoleSubject(r.j)
    ensures Select(r.t.data, r.t.nextId, RoleScope(r.j.m[key])) == Select(r.j.t.data, r.j.t.nextId, RoleScope(r.j.m[key]))
  {
    DeletedNotReplaced(r.j);
    CodeIsNew(r.j, DeletedKeys(r.j), key);
    CodeIsNew(r.j, WrittenKeys(r.j), key);
    KeptScopes(r.j, r.t.data, r.t.nextId, r.scopeRows, r.policyRows, key, r.j.m[key]);
  }

  lemma KeptRowAfter(r: Finished, key: string)
    requires key in r.j.m && key !in WrittenKeys(r.j) && key !in DeletedKeys(r.j)
    ensures r.j.m[key] in r.t.roles && r.t.roles[r.j.m[key]] == r.j.t.roles[r.j.m[key]]
    ensures forall p :: Grant(r.j.m[key], p) in r.t.grants <==> Grant(r.j.m[key], p) in r.j.t.grants
  {
    CodeIsNew(r.j, DeletedKeys(r.j), key);
    CodeIsNew(r.j, WrittenKeys(r.j), key);
    KeptRoleAfter(r.j, r.t, r.j.m[key]);
  }

  /** What the next snapshot says of an untouched role. */
  lemma KeptEntry(r: Finished, key: string, x: CurrentRole, y: CurrentRole, doc: RoleDoc)
    requires key in r.j.m && key !in WrittenKeys(r.j) && key !in DeletedKeys(r.j) && !WritesRoleSubject(r.j)
    requires RoleMatches(r.j.t, r.j.m[key], x) && r.j.m[key] in r.t.roles && RoleMatches(r.t, r.j.m[key], y)
    ensures x.source == y.source && (RoleFieldsEqual(x, doc) <==> RoleFieldsEqual(y, doc))
  {
    KeptRowAfter(r, key);
    KeptScopesAfter(r, key);
    KeptRoleAgrees(doc, x, y);
  }

  lemma EntryAfter(r: Finished, key: string)
    ensures key in Index(r.c.roles, CurrentKey) <==> key in IndexAfter(r.j)
    ensures key in IndexAfter(r.j) ==>
      IndexAfter(r.j)[key] in r.t.roles && RoleMatches(r.t, IndexAfter(r.j)[key], Index(r.c.roles, CurrentKey)[key])
  {
    DeletedNotWritten(r.j);
    RoleIndexAfter(r.j, r.t);
    SnapshotRole(Again(r), key);
  }

  lemma WrittenRoleSettled(r: Finished, key: string)
    requires !WritesRoleSubject(r.j) && key in WrittenKeys(r.j)
    ensures Next(r, RoleEntity, key) == if !Distinct(RoleDocs(r.j)[key].codes) then Some(Update) else None
  {
    hide IsFinished, RoleFieldsEqual, RoleMatches, WritesRoleSubject;
    EntryAfter(r, key);
    WrittenEntry(r, key, Index(r.c.roles, CurrentKey)[key]);
  }

  lemma UndecidedShape(d: map<string, RoleDoc>, c: map<string, CurrentRole>, key: string)
    requires RoleDecision(d, c, key) == None
    ensures key !in c ==> key !in d
    ensures key in c && c[key].source == IAC ==> key in d && RoleFieldsEqual(c[key], d[key])
    ensures key in c && c[key].source == MANUAL ==> key !in d
  {
  }

  lemma KeptRoleSettled(r: Finished, key: string)
    requires !WritesRoleSubject(r.j) && Verdict(r.j, RoleEntity, key) == None
    requires key !in WrittenKeys(r.j) && key !in DeletedKeys(r.j)
    ensures Next(r, RoleEntity, key) == None
  {
    EntryAfter(r, key);
    SnapshotRole(r.j, key);
    var c, after := Index(r.j.c.roles, CurrentKey), Index(r.c.roles, CurrentKey);
    UndecidedShape(RoleDocs(r.j), c, key);
    if key in r.j.m && key in RoleDocs(r.j) {
      KeptEntry(r, key, c[key], after[key], RoleDocs(r.j)[key]);
    } else if key in r.j.m {
      KeptRowAfter(r, key);
    }
  }

  lemma DeletedRoleSettled(r: Finished, key: string)
    requires key in DeletedKeys(r.j)
    ensures Next(r, RoleEntity, key) == None
  {
    EntryAfter(r, key);
    DeletedNotWritten(r.j);
    RoleDeleted(r.j, key);
  }

  lemma NotConflicting(j: Job, entity: Entity, id: string)
    requires NoConflict(j)
    ensures Verdict(j, entity, id) != Some(Conflict)
  {
  }

  lemma SomeVerdict(k: Option<Kind>)
    requires k.Some?
    ensures Writes(k) || k == Some(Delete) || k == Some(Conflict)
  {
    match k.value
    case Create =>
    case Adopt =>
    case Update =>
    case Delete =>
    case Conflict =>
  }

  lemma UntouchedRole(r: Finished, key: string)
    requires key !in WrittenKeys(r.j) && key !in DeletedKeys(r.j)
    ensures Verdict(r.j, RoleEntity, key) == None
  {
    hide *;
    Parts(r);
    RoleVerdict(r.j, key);
    RoleDeleted(r.j, key);
    NotConflicting(r.j, RoleEntity, key);
    if Verdict(r.j, RoleEntity, key).Some? {
      SomeVerdict(Verdict(r.j, RoleEntity, key));
    }
  }

  /** After an import a role is settled, unless it was written from a list that repeats a code; then it is updated again. */
  lemma RoleSettled(r: Finished, key: string)
    requires !WritesRoleSubject(r.j)
    ensures Next(r, RoleEntity, key) ==
      if key in WrittenKeys(r.j) && !Distinct(RoleDocs(r.j)[key].codes) then Some(Update) else None
  {
    hide *;
    if key in WrittenKeys(r.j) {
      WrittenRoleSettled(r, key);
    } else if key in DeletedKeys(r.j) {
      DeletedRoleSettled(r, key);
    } else {
      UntouchedRole(r, key);
      KeptRoleSettled(r, key);
    }
  }

  // ---------------------------------------------------------------- the theorem

  /**
   Planning the same document against a snapshot taken after a successful import finds nothing to do,
   exactly when no written role lists a permission code twice and no written top-level policy has the role subject type.
   */
  lemma ImportConverges(r: Finished)
    ensures (forall entity, id :: Next(r, entity, id) == None) <==> !RepeatsCode(r.j) && !WritesRoleSubject(r.j)
  {
    hide IsFinished, Next, Verdict, RoleDocs, PolicyDocs;
    if WritesRoleSubject(r.j) {
      var id :| id in CreatedPolicies(r.j) + ReplacedPolicies(r.j) && PolicyDocs(r.j)[id].subjectType == ROLE;
      PolicySettled(r, id);
      assert Next(r, PolicyEntity, id) == Some(Create);
    } else if RepeatsCode(r.j) {
      var key :| key in WrittenKeys(r.j) && !Distinct(RoleDocs(r.j)[key].codes);
      RoleSettled(r, key);
      assert Next(r, RoleEntity, key) == Some(Update);
    } else {
      EverythingSettled(r);
    }
  }

  lemma EverythingSettled(r: Finished)
    requires !RepeatsCode(r.j) && !WritesRoleSubject(r.j)
    ensures forall entity, id :: Next(r, entity, id) == None
  {
    forall entity: Entity, id: string
      ensures Next(r, entity, id) == None
    {
      match entity
      case PermissionEntity => PermissionSettled(r, id);
      case RoleEntity => RoleSettled(r, id);
      case PolicyEntity => PolicySettled(r, id);
    }
  }
}
