/** What a successful import leaves in the tables, read off the document. */
module ImportEffect {

  import opened Graph
  import opened Sorting
  import opened Tables
  import opened Iac
  import opened DataRows
  import opened Snapshot
  import opened ImportTarget
  import opened Import
  import opened ImportPlan
  import opened Convergence
  import opened Replan
  import opened ImportFrame
  import opened ImportOutcome

  // ---------------------------------------------------------------- permissions

  lemma PermissionDocIs(j: Job, p: PermissionDoc)
    requires Valid(j.d) && p in j.d.permissions
    ensures p.code in PermissionDocs(j) && PermissionDocs(j)[p.code] == p
  {
    hide PermissionComplete, RoleComplete, PolicyComplete;
    IndexDistinct(j.d.permissions, PermissionCode, p);
  }

  lemma UndeclaredCode(j: Job, code: string)
    requires forall p | p in j.d.permissions :: p.code != code
    ensures code !in PermissionDocs(j)
  {
  }

  lemma NoPermissionVerdict(d: map<string, PermissionDoc>, t: map<string, Permission>, code: string)
    requires code in d && PermissionVerdictOf(d, t, code) == None && (code in t ==> t[code].source == "manual" || t[code].source == "iac")
    ensures code in t && t[code] == Permission(d[code].resource, d[code].action, d[code].kind, d[code].name, d[code].description, "iac")
  {
  }

  lemma PermissionVerdictWrites(d: map<string, PermissionDoc>, t: map<string, Permission>, code: string)
    requires code in d
    ensures PermissionVerdictOf(d, t, code) == None || Writes(PermissionVerdictOf(d, t, code))
  {
  }

  /** A declared permission that was absent, manual or iac is stored with exactly the declared fields, and belongs to policy-as-code. */
  lemma DeclaredPermissionIsStored(j: Job, t': Tables, p: PermissionDoc)
    requires Sound(j) && PermissionsReconciled(j, t') && p in j.d.permissions
    requires p.code in j.t.permissions ==> j.t.permissions[p.code].source == "manual" || j.t.permissions[p.code].source == "iac"
    ensures p.code in t'.permissions
      && t'.permissions[p.code] == Permission(p.resource, p.action, p.kind, p.name, p.description, "iac")
  {
    SoundParts(j);
    hide Sound, Valid, WellFormed, IsSnapshot, IsRoleIndex, PermissionsReconciled, PermissionVerdictOf, Verdict;
    PermissionDocIs(j, p);
    PermissionVerdictIs(j, p.code);
    PermissionVerdict(j, p.code);
    PermissionVerdictWrites(PermissionDocs(j), j.t.permissions, p.code);
    PermissionAfter(j, t', p.code);
    if PermissionVerdictOf(PermissionDocs(j), j.t.permissions, p.code) == None {
      NoPermissionVerdict(PermissionDocs(j), j.t.permissions, p.code);
    }
  }

  lemma UndeclaredPermissionVerdict(d: map<string, PermissionDoc>, t: map<string, Permission>, code: string)
    requires code !in d && code in t && t[code].source == "iac"
    ensures PermissionVerdictOf(d, t, code) == Some(Delete)
  {
  }

  /** An iac permission that is not declared any more is gone. */
  lemma UndeclaredPermissionIsGone(j: Job, t': Tables, code: string)
    requires Sound(j) && PermissionsReconciled(j, t') && forall p | p in j.d.permissions :: p.code != code
    requires code in j.t.permissions && j.t.permissions[code].source == "iac"
    ensures code !in t'.permissions
  {
    UndeclaredCode(j, code);
    SoundParts(j);
    hide Sound, Valid, WellFormed, IsSnapshot, IsRoleIndex, PermissionsReconciled, PermissionVerdictOf, Verdict;
    PermissionVerdictIs(j, code);
    UndeclaredPermissionVerdict(PermissionDocs(j), j.t.permissions, code);
    PermissionVerdict(j, code);
    PermissionAfter(j, t', code);
  }

  // ---------------------------------------------------------------- roles

  lemma RoleDocIs(j: Job, r: RoleDoc)
    requires Valid(j.d) && r in j.d.roles
    ensures r.key in RoleDocs(j) && RoleDocs(j)[r.key] == r && r.key != "" && ':' !in r.key
  {
    assert RoleComplete(r, Declared(j.d.permissions));
    hide PermissionComplete, RoleComplete, PolicyComplete;
    IndexDistinct(j.d.roles, RoleKey, r);
  }

  /** The codes that have a colon-free key: the key itself, and the key after "iac:". */
  lemma CodesOfKey(code: string, key: string)
    requires ':' !in key
    ensures IacRoleKey(code) == key <==> code == key || code == "iac:" + key
  {
    if code == "iac:" + key {
      KeyOfCreatedCode(key);
    }
    assert IAC_PREFIX[3] == ':';
    if IacRoleKey(code) == key && IAC_PREFIX <= code {
      assert code == code[..4] + code[4..];
    }
  }

  /** The code under which a declared role is stored: that of the stored role with its key, or a new one. */
  ghost predicate IsCodeOf(t: Tables, key: string, code: string) {
    (code == key || code == "iac:" + key) && (code in t.roles || (code == "iac:" + key && key !in t.roles))
  }

  lemma CodeOfRole(j: Job, key: string, code: string)
    requires IsRoleIndex(j.t, j.m) && key != "" && ':' !in key && IsCodeOf(j.t, key, code)
    ensures TargetCode(j.m, key) == code && (key in j.m <==> code in j.t.roles)
  {
    CodesOfKey(code, key);
    if key in j.m {
      CodesOfKey(j.m[key], key);
    }
  }

  lemma NoRoleVerdict(d: map<string, RoleDoc>, c: map<string, CurrentRole>, key: string)
    requires key in d && RoleDecision(d, c, key) == None && (key in c ==> c[key].source == "manual" || c[key].source == "iac")
    ensures key in c && c[key].source == "iac" && RoleFieldsEqual(c[key], d[key])
  {
  }

  lemma DeclaredRoleVerdict(d: map<string, RoleDoc>, c: map<string, CurrentRole>, key: string)
    requires key in d
    ensures RoleDecision(d, c, key) == None || Writes(RoleDecision(d, c, key))
  {
  }

  lemma EqualRoleFields(x: CurrentRole, r: RoleDoc)
    ensures RoleFieldsEqual(x, r) <==>
      x.name == r.name && x.description == r.description && multiset(x.codes) == multiset(r.codes)
      && multiset(ScopeKeys(x.scopes)) == multiset(ScopeKeys(r.scopes))
  {
    SortedCopiesEqual(x.codes, r.codes);
    SortedCopiesEqual(ScopeKeys(x.scopes), ScopeKeys(r.scopes));
  }

  lemma SameElements(a: seq<string>, b: seq<string>)
    requires multiset(a) == multiset(b)
    ensures forall x :: x in a <==> x in b
  {
    forall x
      ensures x in a <==> x in b
    {
      assert x in multiset(a) <==> x in multiset(b);
    }
  }

  /** What is stored of a role that the plan leaves alone although it is declared. */
  lemma UnplannedRole(j: Job, r: RoleDoc, code: string) returns (x: CurrentRole)
    requires Sound(j) && r in j.d.roles && IsCodeOf(j.t, r.key, code) && r.key !in WrittenKeys(j)
    requires code in j.t.roles ==> j.t.roles[code].source == "manual" || j.t.roles[code].source == "iac"
    ensures code in j.t.roles && j.t.roles[code].source == "iac" && RoleMatches(j.t, code, x) && RoleFieldsEqual(x, r)
    ensures code !in CodesOf(j, WrittenKeys(j)) && code !in CodesOf(j, DeletedKeys(j))
  {
    SoundParts(j);
    hide Sound, Valid, WellFormed, RoleFieldsEqual, RoleMatches, RoleDecision, IsSnapshot, IsRoleIndex, IsCodeOf, DeletedKeys, CodesOf;
    RoleDocIs(j, r);
    CodeOfRole(j, r.key, code);
    SnapshotRole(j, r.key);
    var stored := Index(j.c.roles, CurrentKey);
    RoleVerdict(j, r.key);
    DeclaredRoleVerdict(RoleDocs(j), stored, r.key);
    assert Verdict(j, RoleEntity, r.key) == None;
    if r.key in j.m {
      x := stored[r.key];
      MatchedSource(j.t, code, x);
    }
    NoRoleVerdict(RoleDocs(j), stored, r.key);
    NotDeleted(j, r.key);
    CodeIsNew(j, WrittenKeys(j), r.key);
    CodeIsNew(j, DeletedKeys(j), r.key);
  }

  lemma MatchedSource(t: Tables, code: string, x: CurrentRole)
    requires code in t.roles && RoleMatches(t, code, x)
    ensures x.source == t.roles[code].source && x.name == t.roles[code].name && x.description == t.roles[code].description
  {
  }

  lemma NotDeleted(j: Job, key: string)
    requires Verdict(j, RoleEntity, key) == None
    ensures key !in DeletedKeys(j)
  {
  }

  /**
   A declared role whose key was free, or belonged to a manual or iac role, is stored with the declared name and description,
   belongs to policy-as-code, and is granted exactly the declared permissions.
   */
  lemma DeclaredRoleIsStored(j: Job, t': Tables, r: RoleDoc, code: string)
    requires Sound(j) && RolesReconciled(j, t') && r in j.d.roles && IsCodeOf(j.t, r.key, code)
    requires code in j.t.roles ==> j.t.roles[code].source == "manual" || j.t.roles[code].source == "iac"
    ensures code in t'.roles && t'.roles[code] == Role(r.name, r.description, "iac")
    ensures forall p :: Grant(code, p) in t'.grants <==> p in r.codes
    ensures code !in j.t.roles || j.t.roles[code].source == "manual" ==>
      forall p | Grant(code, p) in t'.grants :: t'.grants[Grant(code, p)] == "allow"
  {
    SoundParts(j);
    hide Sound, Valid, WellFormed, RolesReconciled, IsSnapshot, IsRoleIndex, IsCodeOf, RoleFieldsEqual, WrittenKeys;
    RoleDocIs(j, r);
    CodeOfRole(j, r.key, code);
    if r.key in WrittenKeys(j) {
      WrittenRoleAfter(j, t', r.key);
      forall p
        ensures Grant(code, p) in t'.grants <==> p in r.codes
      {
        WrittenGrantsAfter(j, t', r.key, p);
      }
      assert code in CodesOf(j, WrittenKeys(j));
      forall p | Grant(code, p) in t'.grants
        ensures t'.grants[Grant(code, p)] == "allow"
      {
        WrittenGrantsAllow(j, t', Grant(code, p));
      }
    } else {
      var x := UnplannedRole(j, r, code);
      EqualRoleFields(x, r);
      SameElements(x.codes, r.codes);
      KeptRoleAfter(j, t', code);
    }
  }

  /** The data scopes stored for a role code, in id order. */
  ghost function StoredScopes(t: Tables, code: string): seq<DataScope> {
    ScopesOfRows(Select(t.data, t.nextId, RoleScope(code)))
  }

  /** The stored role agrees with its declaration in everything the plan compares, and yet holds other data scopes. */
  ghost predicate ScopesCollide(t: Tables, r: RoleDoc, code: string) {
    && code in t.roles && t.roles[code] == Role(r.name, r.description, "iac")
    && Distinct(r.codes) && (forall p :: p in r.codes <==> Grant(code, p) in t.grants)
    && multiset(ScopeKeys(StoredScopes(t, code))) == multiset(ScopeKeys(r.scopes))
    && multiset(StoredScopes(t, code)) != multiset(r.scopes)
  }

  lemma MatchedScopes(t: Tables, code: string, x: CurrentRole)
    requires code in t.roles && RoleMatches(t, code, x)
    ensures x.scopes == StoredScopes(t, code) && Distinct(x.codes) && forall p :: p in x.codes <==> Grant(code, p) in t.grants
  {
    hide Select;
  }

  lemma MultisetDistinct(a: seq<string>, b: seq<string>)
    requires Distinct(a)
    ensures multiset(a) == multiset(b) <==> Distinct(b) && forall x :: x in a <==> x in b
  {
    if multiset(a) == multiset(b) {
      DistinctMultiset(a);
      DistinctMultiset(b);
      SameElements(a, b);
    }
    if Distinct(b) && forall x :: x in a <==> x in b {
      DistinctSameElements(a, b);
      SortedCopiesEqual(a, b);
    }
  }

  /** A written role agrees with its declaration no longer, or never did. */
  lemma PlannedRoleDiffers(j: Job, r: RoleDoc, code: string)
    requires Sound(j) && r in j.d.roles && IsCodeOf(j.t, r.key, code) && r.key in WrittenKeys(j)
    ensures !ScopesCollide(j.t, r, code)
  {
    SoundParts(j);
    hide Sound, Valid, WellFormed, RoleFieldsEqual, RoleMatches, IsSnapshot, IsRoleIndex, IsCodeOf, StoredScopes, Distinct;
    RoleDocIs(j, r);
    CodeOfRole(j, r.key, code);
    SnapshotRole(j, r.key);
    if ScopesCollide(j.t, r, code) {
      var x := Index(j.c.roles, CurrentKey)[r.key];
      MatchedSource(j.t, code, x);
      MatchedScopes(j.t, code, x);
      MultisetDistinct(x.codes, r.codes);
      EqualRoleFields(x, r);
    }
  }

  lemma NoDeclaredRoleSubject(j: Job)
    requires forall p | p in j.d.policies :: p.subjectType != "role"
    ensures !WritesRoleSubject(j)
  {
    hide Verdict;
  }

  /**
   With no top-level policy declared for a role subject, a declared role is stored with exactly the declared data scopes,
   unless it was an unchanged iac role whose other scopes have the same comparison keys.
   */
  lemma DeclaredScopesAreStored(j: Job, t': Tables, scopeRows: seq<DataRow>, policyRows: seq<DataRow>, r: RoleDoc, code: string)
    requires Sound(j) && Reconciled(j, t', scopeRows, policyRows) && r in j.d.roles && IsCodeOf(j.t, r.key, code)
    requires code in j.t.roles ==> j.t.roles[code].source == "manual" || j.t.roles[code].source == "iac"
    requires forall p | p in j.d.policies :: p.subjectType != "role"
    ensures multiset(StoredScopes(t', code)) == multiset(r.scopes) <==> !ScopesCollide(j.t, r, code)
  {
    hide Sound, Reconciled, WellFormed, Valid, IsSnapshot, IsRoleIndex, IsCodeOf, WritesRoleSubject, DataReconciled, Select, Distinct;
    hide ScopesOfRows, RoleFieldsEqual, RoleMatches, ScopesCollide;
    SoundParts(j);
    ReconciledParts(j, t', scopeRows, policyRows);
    NoDeclaredRoleSubject(j);
    RoleDocIs(j, r);
    CodeOfRole(j, r.key, code);
    DeletedNotReplaced(j);
    if r.key in WrittenKeys(j) {
      WrittenScopes(j, t'.data, t'.nextId, scopeRows, policyRows, r.key);
      ScopesAreKnown(j, r.key);
      ScopesBack(code, r.scopes, j.version);
      PlannedRoleDiffers(j, r, code);
    } else {
      var x := UnplannedRole(j, r, code);
      KeptScopes(j, t'.data, t'.nextId, scopeRows, policyRows, r.key, code);
      UnplannedCollides(j, r, code, x);
    }
  }

  /** The scopes of a role that the import creates or adopts belong to policy-as-code and carry the version of the import. */
  lemma NewScopesBelongToImport(j: Job, t': Tables, scopeRows: seq<DataRow>, policyRows: seq<DataRow>, r: RoleDoc, code: string, id: nat)
    requires Sound(j) && Reconciled(j, t', scopeRows, policyRows) && r in j.d.roles && IsCodeOf(j.t, r.key, code)
    requires code in j.t.roles ==> j.t.roles[code].source == "manual"
    requires forall p | p in j.d.policies :: p.subjectType != "role"
    requires id in t'.data && t'.data[id].subjectType == "role" && t'.data[id].subjectId == code
    ensures t'.data[id].source == "iac" && t'.data[id].version == j.version
  {
    hide Sound, Reconciled, WellFormed, Valid, IsSnapshot, IsRoleIndex, IsCodeOf, WritesRoleSubject, DataReconciled, Select, WrittenKeys;
    SoundParts(j);
    ReconciledParts(j, t', scopeRows, policyRows);
    NoDeclaredRoleSubject(j);
    RoleDocIs(j, r);
    CodeOfRole(j, r.key, code);
    DeletedNotReplaced(j);
    if r.key !in WrittenKeys(j) {
      var x := UnplannedRole(j, r, code);
    } else {
      WrittenScopes(j, t'.data, t'.nextId, scopeRows, policyRows, r.key);
      IdsAreBelow(j, t'.data, t'.nextId, scopeRows, policyRows);
      SelectMember(t'.data, t'.nextId, RoleScope(code), id);
    }
  }

  lemma UnplannedCollides(j: Job, r: RoleDoc, code: string, x: CurrentRole)
    requires code in j.t.roles && j.t.roles[code].source == "iac" && RoleMatches(j.t, code, x) && RoleFieldsEqual(x, r)
    ensures multiset(StoredScopes(j.t, code)) == multiset(r.scopes) <==> !ScopesCollide(j.t, r, code)
  {
    hide RoleMatches, RoleFieldsEqual, StoredScopes, Distinct;
    MatchedSource(j.t, code, x);
    MatchedScopes(j.t, code, x);
    EqualRoleFields(x, r);
    MultisetDistinct(x.codes, r.codes);
    assert j.t.roles[code] == Role(r.name, r.description, "iac");
  }

  predicate BarFree(s: DataScope) {
    '|' !in s.resource && '|' !in s.effect
  }

  lemma UntilBar(a: string, b: string, x: string, y: string)
    requires '|' !in a && '|' !in b && a + "|" + x == b + "|" + y
    ensures a == b && x == y
  {
    var s := a + "|" + x;
    assert s[|a|] == '|' && s[|b|] == '|';
    assert forall i :: 0 <= i < |a| ==> s[i] == a[i];
    assert forall i :: 0 <= i < |b| ==> s[i] == b[i];
    assert |a| == |b|;
    assert a == s[..|a|] == b && x == s[|a| + 1..] == y;
  }

  lemma BarFreeKey(a: DataScope, b: DataScope)
    requires BarFree(a) && BarFree(b) && ScopeKey(a) == ScopeKey(b)
    ensures a == b
  {
    var x, y := a.effect + "|" + a.condition, b.effect + "|" + b.condition;
    assert ScopeKey(a) == a.resource + "|" + x && ScopeKey(b) == b.resource + "|" + y;
    UntilBar(a.resource, b.resource, x, y);
    UntilBar(a.effect, b.effect, a.condition, b.condition);
  }

  lemma {:induction false} KeyCount(ss: seq<DataScope>, s: DataScope)
    requires BarFree(s) && forall x | x in ss :: BarFree(x)
    ensures multiset(ScopeKeys(ss))[ScopeKey(s)] == multiset(ss)[s]
  {
    if ss != [] {
      var n := |ss| - 1;
      var rest := ss[..n];
      assert ss == rest + [ss[n]] && ScopeKeys(ss) == ScopeKeys(rest) + [ScopeKey(ss[n])];
      assert ss[n] in ss;
      KeyCount(rest, s);
      if ScopeKey(ss[n]) == ScopeKey(s) {
        BarFreeKey(ss[n], s);
      }
    }
  }

  /** Scopes whose resources and effects hold no bar are told apart by their keys, so they never collide. */
  lemma BarFreeScopesNeverCollide(t: Tables, r: RoleDoc, code: string)
    requires (forall s | s in StoredScopes(t, code) :: BarFree(s)) && forall s | s in r.scopes :: BarFree(s)
    ensures !ScopesCollide(t, r, code)
  {
    var a, b := StoredScopes(t, code), r.scopes;
    hide StoredScopes, BarFree, ScopeKeys, ScopeKey;
    if multiset(ScopeKeys(a)) == multiset(ScopeKeys(b)) {
      forall s
        ensures multiset(a)[s] == multiset(b)[s]
      {
        if s in a || s in b {
          KeyCount(a, s);
          KeyCount(b, s);
        }
      }
      assert multiset(a) == multiset(b);
    }
  }

  /** A bar in a resource gives two different scopes one key. */
  lemma BarCollides()
    ensures var a, b := DataScope("a|allow|b", "allow", "c"), DataScope("a", "allow", "b|allow|c"); a != b && ScopeKey(a) == ScopeKey(b)
  {
    assert "a|allow|b" + "|" + "allow" + "|" + "c" == "a" + "|" + "allow" + "|" + "b|allow|c";
    assert |"a|allow|b"| != |"a"|;
  }

  lemma UndeclaredRoleVerdict(d: map<string, RoleDoc>, c: map<string, CurrentRole>, key: string)
    requires key !in d && key in c && c[key].source == "iac"
    ensures RoleDecision(d, c, key) == if c[key].bound then Some(Conflict) else Some(Delete)
  {
  }

  lemma StoredRoleVerdict(j: Job, code: string)
    requires Sound(j) && code in j.t.roles && j.t.roles[code].source == "iac" && Expressible(IacRoleKey(code))
    requires forall r | r in j.d.roles :: r.key != IacRoleKey(code)
    ensures Verdict(j, RoleEntity, IacRoleKey(code)) == if Bound(j.t, code) then Some(Conflict) else Some(Delete)
    ensures IacRoleKey(code) in j.m && TargetCode(j.m, IacRoleKey(code)) == code
  {
    var key := IacRoleKey(code);
    SoundParts(j);
    assert key !in RoleDocs(j);
    assert key in j.m && j.m[key] == code;
    hide Sound, Valid, WellFormed, IsSnapshot, IsRoleIndex, RoleDecision, RoleDocs, IacRoleKey, Expressible;
    SnapshotRole(j, key);
    UndeclaredRoleVerdict(RoleDocs(j), Index(j.c.roles, CurrentKey), key);
  }

  /** An iac role that is not declared any more is gone. */
  lemma UndeclaredRoleIsGone(j: Job, t': Tables, code: string)
    requires Sound(j) && NoConflict(j) && RolesReconciled(j, t')
    requires code in j.t.roles && j.t.roles[code].source == "iac" && Expressible(IacRoleKey(code))
    requires forall r | r in j.d.roles :: r.key != IacRoleKey(code)
    ensures code !in t'.roles
  {
    var key := IacRoleKey(code);
    StoredRoleVerdict(j, code);
    NotConflicting(j, RoleEntity, key);
    hide Sound, NoConflict, RolesReconciled, Verdict, TargetCode, IacRoleKey, Expressible;
    assert key in DeletedKeys(j);
    assert code in CodesOf(j, DeletedKeys(j));
    RemainingRole(j, t', code);
  }

  // ---------------------------------------------------------------- top-level data policies

  /** A top-level row with the identity of a declared policy. */
  predicate SamePlace(row: DataRow, p: PolicyDoc) {
    row.subjectType != "role"
    && row.subjectType + ":" + row.subjectId + ":" + row.resource == p.subjectType + ":" + p.subjectId + ":" + p.resource
  }

  /** All rows with the identity of the declared policy come from one of these sources. */
  ghost predicate PlaceIsFrom(t: Tables, p: PolicyDoc, sources: set<string>) {
    forall id | id in t.data && SamePlace(t.data[id], p) :: t.data[id].source in sources
  }

  lemma PolicyDocIs(j: Job, p: PolicyDoc)
    requires Valid(j.d) && p in j.d.policies
    ensures PolicyId(p) in PolicyDocs(j) && PolicyDocs(j)[PolicyId(p)] == p && KnownEffect(p.effect)
  {
    assert PolicyComplete(p);
    hide PermissionComplete, RoleComplete, PolicyComplete;
    IndexDistinct(j.d.policies, PolicyId, p);
  }

  lemma SelectMember(data: map<nat, DataRow>, n: nat, sel: Selector, id: nat)
    requires id < n && HitAt(data, sel, id)
    ensures data[id] in Select(data, n, sel)
  {
    SelectedRows(data, n, sel);
    var ids := SelectIds(data, n, sel);
    var k :| 0 <= k < |ids| && ids[k] == id;
    assert RowsAt(data, ids)[k] == data[id];
  }

  lemma SelectPair(data: map<nat, DataRow>, n: nat, sel: Selector)
    ensures |Select(data, n, sel)| > 1 <==> exists a: nat, b: nat :: a < b < n && HitAt(data, sel, a) && HitAt(data, sel, b)
  {
    SelectedRows(data, n, sel);
    var ids := SelectIds(data, n, sel);
    if |ids| > 1 {
      assert ids[0] in ids && ids[1] in ids;
    }
    if a: nat, b: nat :| a < b < n && HitAt(data, sel, a) && HitAt(data, sel, b) {
      assert a in ids && b in ids;
    }
  }

  /** Exactly one row is selected, and it is the one at some id. */
  lemma OneSelected(data: map<nat, DataRow>, n: nat, sel: Selector) returns (id: nat)
    requires |Select(data, n, sel)| == 1
    ensures id < n && HitAt(data, sel, id) && Select(data, n, sel) == [data[id]]
    ensures forall i: nat | i < n && HitAt(data, sel, i) :: i == id
  {
    id := SelectSome(data, n, sel);
    SelectHit(data, n, sel, id);
  }

  lemma IdsAreBelow(j: Job, data: map<nat, DataRow>, n: nat, scopeRows: seq<DataRow>, policyRows: seq<DataRow>)
    requires WellFormed(j.t) && DataReconciled(j, data, n, scopeRows, policyRows)
    ensures forall id | id in data :: id < n
  {
    hide KeptData, ScopeRowsFor, PolicyRowsFor;
    KeptDataIsOld(j);
  }

  lemma NoPolicyVerdict(d: seq<PolicyDoc>, c: seq<CurrentPolicy>)
    requires |d| == 1 && PolicyDecision(d, c) == None && (|c| == 1 ==> c[0].source == "manual" || c[0].source == "iac")
    ensures |c| == 1 && c[0].source == "iac" && c[0].effect == d[0].effect && c[0].condition == d[0].condition
  {
  }

  lemma DeclaredPolicyVerdict(d: seq<PolicyDoc>, c: seq<CurrentPolicy>)
    requires |d| == 1
    ensures PolicyDecision(d, c) == None || PolicyDecision(d, c) == Some(Conflict) || Writes(PolicyDecision(d, c))
  {
  }

  lemma DecidedNone(j: Job, p: PolicyDoc)
    requires Sound(j) && NoConflict(j) && p in j.d.policies
    requires PolicyId(p) !in CreatedPolicies(j) && PolicyId(p) !in ReplacedPolicies(j)
    ensures PolicyDecision([p], CurrentPolicies(StoredAt(j, PolicyId(p)))) == None
  {
    var id := PolicyId(p);
    SoundParts(j);
    hide PolicyDecision, Verdict, Select, CreatedPolicies, ReplacedPolicies, Valid, WellFormed, IsRoleIndex;
    PolicyDocIs(j, p);
    PolicyVerdict(j, id);
    PolicyVerdictIs(j, id);
    NotConflicting(j, PolicyEntity, id);
    DeclaredPolicyVerdict([p], CurrentPolicies(StoredAt(j, id)));
  }

  /** What is stored with a declared identity that the plan leaves alone. */
  lemma UnplannedPolicy(j: Job, p: PolicyDoc)
    requires Sound(j) && NoConflict(j) && p in j.d.policies && p.subjectType != "role"
    requires PolicyId(p) !in CreatedPolicies(j) && PolicyId(p) !in ReplacedPolicies(j)
    requires PlaceIsFrom(j.t, p, {"manual", "iac"})
    ensures |StoredAt(j, PolicyId(p))| == 1 && exists n :: n in j.t.data && SamePlace(j.t.data[n], p) && j.t.data[n] == StoredAt(j, PolicyId(p))[0]
    ensures var row := StoredAt(j, PolicyId(p))[0]; row.source == "iac" && row.effect == p.effect && row.condition == p.condition
  {
    hide PolicyDecision, Select, CreatedPolicies, ReplacedPolicies, Sound, NoConflict;
    var id := PolicyId(p);
    DecidedNone(j, p);
    if |StoredAt(j, id)| == 1 {
      var n := OneSelected(j.t.data, j.t.nextId, TopIdentity(id));
      assert SamePlace(j.t.data[n], p);
    }
    NoPolicyVerdict([p], CurrentPolicies(StoredAt(j, id)));
  }

  lemma FromIac(j: Job, p: PolicyDoc, row: DataRow)
    requires row.source == "iac" && exists n :: n in j.t.data && SamePlace(j.t.data[n], p) && j.t.data[n] == row
    ensures !PlaceIsFrom(j.t, p, {"manual"})
  {
    hide SamePlace;
  }

  lemma PlannedPolicy(j: Job, p: PolicyDoc)
    requires Sound(j) && p in j.d.policies
    ensures PolicyId(p) in PolicyDocs(j) && PolicyDocs(j)[PolicyId(p)] == p && PolicyId(p) !in DeletedPolicies(j)
    ensures PolicyId(p) in ReplacedPolicies(j) ==> |StoredAt(j, PolicyId(p))| == 1 && PolicyId(p) !in CreatedPolicies(j)
    ensures PolicyId(p) in CreatedPolicies(j) ==> |StoredAt(j, PolicyId(p))| == 0
    ensures DeletedPolicies(j) !! ReplacedPolicies(j)
    ensures KnownEffect(p.effect)
  {
    SoundParts(j);
    PolicyDocIs(j, p);
    DeletedNotReplaced(j);
    hide PolicyDecision, Verdict, Select, CreatedPolicies, ReplacedPolicies, DeletedPolicies;
    PolicyVerdict(j, PolicyId(p));
  }

  /** The one row stored with a declared identity after an import. */
  lemma DeclaredRows(j: Job, t': Tables, scopeRows: seq<DataRow>, policyRows: seq<DataRow>, p: PolicyDoc) returns (row: DataRow)
    requires Sound(j) && NoConflict(j) && DataReconciled(j, t'.data, t'.nextId, scopeRows, policyRows)
    requires p in j.d.policies && p.subjectType != "role"
    requires PlaceIsFrom(j.t, p, {"manual", "iac"})
    ensures Select(t'.data, t'.nextId, TopIdentity(PolicyId(p))) == [row]
    ensures row.effect == p.effect && row.condition == p.condition && row.source == "iac"
    ensures PlaceIsFrom(j.t, p, {"manual"}) ==> row.version == j.version
  {
    var id := PolicyId(p);
    hide Select, CreatedPolicies, ReplacedPolicies, DeletedPolicies, DataReconciled, NoConflict, SamePlace, StoredAt, Sound, PlaceIsFrom;
    hide PolicyDocs, PolicyId;
    PlannedPolicy(j, p);
    StoredAfter(j, t'.data, t'.nextId, scopeRows, policyRows, id);
    if id in CreatedPolicies(j) || id in ReplacedPolicies(j) {
      row := PolicyRow(p, j.version);
    } else {
      UnplannedPolicy(j, p);
      row := StoredAt(j, id)[0];
      FromIac(j, p, row);
    }
  }

  /**
   A declared top-level policy whose identity was free, or belonged to a manual or iac row, is stored in exactly one row,
   which has the declared effect and condition and belongs to policy-as-code.
   */
  lemma DeclaredPolicyIsStored(j: Job, t': Tables, scopeRows: seq<DataRow>, policyRows: seq<DataRow>, p: PolicyDoc) returns (id: nat)
    requires Sound(j) && NoConflict(j) && Reconciled(j, t', scopeRows, policyRows)
    requires p in j.d.policies && p.subjectType != "role"
    requires PlaceIsFrom(j.t, p, {"manual", "iac"})
    ensures id in t'.data && SamePlace(t'.data[id], p)
    ensures t'.data[id].effect == p.effect && t'.data[id].condition == p.condition && t'.data[id].source == "iac"
    ensures forall other | other in t'.data && SamePlace(t'.data[other], p) :: other == id
    ensures PlaceIsFrom(j.t, p, {"manual"}) ==> t'.data[id].version == j.version
  {
    hide Sound, NoConflict, Reconciled, DataReconciled, Valid, IsSnapshot, IsRoleIndex, Select, WellFormed;
    SoundParts(j);
    ReconciledParts(j, t', scopeRows, policyRows);
    IdsAreBelow(j, t'.data, t'.nextId, scopeRows, policyRows);
    var row := DeclaredRows(j, t', scopeRows, policyRows, p);
    id := OneSelected(t'.data, t'.nextId, TopIdentity(PolicyId(p)));
    forall other | other in t'.data && SamePlace(t'.data[other], p)
      ensures other == id
    {
      assert HitAt(t'.data, TopIdentity(PolicyId(p)), other);
    }
  }

  lemma UndeclaredPolicyVerdict(c: seq<CurrentPolicy>, x: CurrentPolicy)
    requires x in c && x.source == "iac"
    ensures PolicyDecision([], c) == Some(Delete) || PolicyDecision([], c) == Some(Conflict)
  {
  }

  lemma ReadPolicy(rows: seq<DataRow>, row: DataRow)
    requires row in rows
    ensures CurrentPolicyOf(row) in CurrentPolicies(rows)
  {
    var k :| 0 <= k < |rows| && rows[k] == row;
    assert CurrentPolicies(rows)[k] == CurrentPolicyOf(row);
  }

  /** Every iac row among the top-level policies is declared: what is not declared any more is gone. */
  lemma StoredPolicyIsDeclared(j: Job, t': Tables, scopeRows: seq<DataRow>, policyRows: seq<DataRow>, id: nat)
    requires Sound(j) && NoConflict(j) && Reconciled(j, t', scopeRows, policyRows)
    requires id in t'.data && t'.data[id].subjectType != "role" && t'.data[id].source == "iac"
    ensures exists p :: p in j.d.policies && SamePlace(t'.data[id], p)
  {
    var row := t'.data[id];
    var ident := RowIdentity(row);
    SoundParts(j);
    ReconciledParts(j, t', scopeRows, policyRows);
    hide Reconciled, IsRoleIndex, NoConflict;
    IdsAreBelow(j, t'.data, t'.nextId, scopeRows, policyRows);
    if ident in PolicyDocs(j) {
      assert PolicyDocs(j)[ident] in j.d.policies && SamePlace(row, PolicyDocs(j)[ident]);
    } else {
      DeletedNotReplaced(j);
      PolicyVerdict(j, ident);
      PolicyVerdictIs(j, ident);
      NotConflicting(j, PolicyEntity, ident);
      SelectMember(t'.data, t'.nextId, TopIdentity(ident), id);
      StoredAfter(j, t'.data, t'.nextId, scopeRows, policyRows, ident);
      hide Sound, DataReconciled, Valid, WellFormed, IsSnapshot, PolicyDecision, Verdict, Select, PolicyDocs;
      assert row in StoredAt(j, ident);
      ReadPolicy(StoredAt(j, ident), row);
      UndeclaredPolicyVerdict(CurrentPolicies(StoredAt(j, ident)), CurrentPolicyOf(row));
    }
  }

  // ---------------------------------------------------------------- when a document cannot be imported

  /** An undeclared iac role that still has users. */
  ghost predicate StrandedRole(t: Tables, d: Document, code: string) {
    && code in t.roles && t.roles[code].source == "iac" && Expressible(IacRoleKey(code))
    && (exists b :: b in t.bindings && b.role == code) && forall r | r in d.roles :: r.key != IacRoleKey(code)
  }

  /** Two top-level rows with one identity, of which one is iac, or whose identity is declared. */
  ghost predicate DoubledPolicy(t: Tables, d: Document, a: nat, b: nat) {
    && a in t.data && b in t.data && a != b && t.data[a].subjectType != "role" && t.data[b].subjectType != "role"
    && RowIdentity(t.data[a]) == RowIdentity(t.data[b])
    && (t.data[a].source == "iac" || exists p :: p in d.policies && SamePlace(t.data[a], p))
  }

  lemma DoubledDecision(d: seq<PolicyDoc>, c: seq<CurrentPolicy>)
    requires |d| <= 1
    ensures PolicyDecision(d, c) == Some(Conflict) <==> |c| > 1 && (|d| == 1 || exists x :: x in c && x.source == "iac")
  {
  }

  lemma DeclaredCount(j: Job, id: string)
    requires Valid(j.d)
    ensures id in PolicyDocs(j) <==> exists p :: p in j.d.policies && PolicyId(p) == id
  {
    if p :| p in j.d.policies && PolicyId(p) == id {
      PolicyDocIs(j, p);
    }
  }

  lemma ReadPolicyBack(rows: seq<DataRow>, x: CurrentPolicy) returns (row: DataRow)
    requires x in CurrentPolicies(rows)
    ensures row in rows && x == CurrentPolicyOf(row)
  {
    var k :| 0 <= k < |rows| && CurrentPolicies(rows)[k] == x;
    row := rows[k];
  }

  lemma SelectFrom(data: map<nat, DataRow>, n: nat, sel: Selector, row: DataRow) returns (id: nat)
    requires row in Select(data, n, sel)
    ensures id < n && HitAt(data, sel, id) && data[id] == row
  {
    SelectedRows(data, n, sel);
    var ids := SelectIds(data, n, sel);
    var k :| 0 <= k < |ids| && RowsAt(data, ids)[k] == row;
    id := ids[k];
    assert id in ids;
  }

  lemma PolicyConflictIff(j: Job, ident: string)
    requires Sound(j)
    ensures Verdict(j, PolicyEntity, ident) == Some(Conflict) <==>
      exists a, b :: DoubledPolicy(j.t, j.d, a, b) && RowIdentity(j.t.data[a]) == ident
  {
    SoundParts(j);
    hide PolicyDecision, Select, IsRoleIndex, SamePlace;
    var rows := StoredAt(j, ident);
    PolicyVerdictIs(j, ident);
    DoubledDecision(DeclaredAt(j, ident), CurrentPolicies(rows));
    DeclaredCount(j, ident);
    SelectPair(j.t.data, j.t.nextId, TopIdentity(ident));
    assert forall id | id in j.t.data :: id < j.t.nextId;
    hide Sound, Valid, IsSnapshot, WellFormed, Verdict, PolicyDocs;
    if |rows| > 1 && (ident in PolicyDocs(j) || exists x :: x in CurrentPolicies(rows) && x.source == "iac") {
      DoubledExists(j, ident);
    }
    if a, b :| DoubledPolicy(j.t, j.d, a, b) && RowIdentity(j.t.data[a]) == ident {
      assert HitAt(j.t.data, TopIdentity(ident), a) && HitAt(j.t.data, TopIdentity(ident), b);
      if j.t.data[a].source == "iac" {
        SelectMember(j.t.data, j.t.nextId, TopIdentity(ident), a);
        ReadPolicy(rows, j.t.data[a]);
      } else {
        var p :| p in j.d.policies && SamePlace(j.t.data[a], p);
        PlaceIsIdentity(j.t.data[a], p);
      }
    }
  }

  lemma PlaceIsIdentity(row: DataRow, p: PolicyDoc)
    ensures SamePlace(row, p) <==> row.subjectType != "role" && RowIdentity(row) == PolicyId(p)
  {
  }

  lemma DoubledExists(j: Job, ident: string)
    requires |StoredAt(j, ident)| > 1
    requires (exists p :: p in j.d.policies && PolicyId(p) == ident) || exists x :: x in CurrentPolicies(StoredAt(j, ident)) && x.source == "iac"
    ensures exists a, b :: DoubledPolicy(j.t, j.d, a, b) && RowIdentity(j.t.data[a]) == ident
  {
    var sel := TopIdentity(ident);
    SelectPair(j.t.data, j.t.nextId, sel);
    hide Select;
    var a: nat, b: nat :| a < b < j.t.nextId && HitAt(j.t.data, sel, a) && HitAt(j.t.data, sel, b);
    if p :| p in j.d.policies && PolicyId(p) == ident {
      PlaceIsIdentity(j.t.data[a], p);
      assert DoubledPolicy(j.t, j.d, a, b);
    } else {
      var x :| x in CurrentPolicies(StoredAt(j, ident)) && x.source == "iac";
      var row := ReadPolicyBack(StoredAt(j, ident), x);
      var i := SelectFrom(j.t.data, j.t.nextId, sel, row);
      assert DoubledPolicy(j.t, j.d, i, if i == a then b else a);
    }
  }

  lemma RoleConflictShape(d: map<string, RoleDoc>, c: map<string, CurrentRole>, key: string)
    ensures RoleDecision(d, c, key) == Some(Conflict) <==> key in c && c[key].source == "iac" && key !in d && c[key].bound
  {
  }

  lemma RoleConflictIff(j: Job, key: string)
    requires Sound(j)
    ensures Verdict(j, RoleEntity, key) == Some(Conflict) <==> exists code :: StrandedRole(j.t, j.d, code) && IacRoleKey(code) == key
  {
    SoundParts(j);
    SnapshotRole(j, key);
    var stored := Index(j.c.roles, CurrentKey);
    RoleConflictShape(RoleDocs(j), stored, key);
    if key in j.m && Verdict(j, RoleEntity, key) == Some(Conflict) {
      assert Bound(j.t, j.m[key]);
      forall r | r in j.d.roles
        ensures r.key != key
      {
        RoleDocIs(j, r);
      }
      assert StrandedRole(j.t, j.d, j.m[key]);
    }
    if code :| StrandedRole(j.t, j.d, code) && IacRoleKey(code) == key {
      StoredRoleVerdict(j, code);
    }
  }

  lemma NoPermissionConflict(j: Job, code: string)
    ensures Verdict(j, PermissionEntity, code) != Some(Conflict)
  {
  }

  /** A plan is free of conflicts exactly when no undeclared iac role has users and no governed identity is stored twice. */
  lemma ConflictFreeIff(j: Job)
    requires Sound(j)
    ensures NoConflict(j) <==> (forall code :: !StrandedRole(j.t, j.d, code)) && (forall a, b :: !DoubledPolicy(j.t, j.d, a, b))
  {
    hide Sound, Verdict, StrandedRole;
    forall id
      ensures Verdict(j, PermissionEntity, id) != Some(Conflict)
      ensures Verdict(j, RoleEntity, id) == Some(Conflict) <==> exists code :: StrandedRole(j.t, j.d, code) && IacRoleKey(code) == id
      ensures Verdict(j, PolicyEntity, id) == Some(Conflict) <==> exists a, b :: DoubledPolicy(j.t, j.d, a, b) && RowIdentity(j.t.data[a]) == id
    {
      NoPermissionConflict(j, id);
      RoleConflictIff(j, id);
      PolicyConflictIff(j, id);
    }
    if code :| StrandedRole(j.t, j.d, code) {
      assert Verdict(j, RoleEntity, IacRoleKey(code)) == Some(Conflict);
    }
    if a, b :| DoubledPolicy(j.t, j.d, a, b) {
      assert DoubledPolicy(j.t, j.d, a, b) && Verdict(j, PolicyEntity, RowIdentity(j.t.data[a])) == Some(Conflict);
    }
    if e, id :| Verdict(j, e, id) == Some(Conflict) {
      assert e == PermissionEntity || e == RoleEntity || e == PolicyEntity;
    }
  }

  /** The role keeps its grants: no document can name its code, or it is neither iac nor a manual role declared here. */
  ghost predicate KeepsGrants(t: Tables, d: Document, code: string) {
    && code in t.roles
    && (!Expressible(IacRoleKey(code))
        || (t.roles[code].source != "iac" && (t.roles[code].source == "manual" ==> forall r | r in d.roles :: r.key != IacRoleKey(code))))
  }

  /** A grant of an undeclared iac permission to a role that keeps its grants. */
  ghost predicate HoldsBack(t: Tables, d: Document, g: Grant) {
    && g in t.grants && g.permission in t.permissions && t.permissions[g.permission].source == "iac"
    && (forall p | p in d.permissions :: p.code != g.permission) && KeepsGrants(t, d, g.role)
  }

  lemma KeepsGrantsIff(j: Job, code: string)
    requires Valid(j.d) && code in j.t.roles
    ensures KeepsGrants(j.t, j.d, code) <==> RoleOutOfReach(j, code)
  {
    hide PermissionComplete, RoleComplete, PolicyComplete, Expressible;
    if IacRoleKey(code) in RoleDocs(j) {
      var r :| r in j.d.roles && r.key == IacRoleKey(code);
    }
    if r :| r in j.d.roles && r.key == IacRoleKey(code) {
      IndexDistinct(j.d.roles, RoleKey, r);
    }
  }

  /** A declared role that the plan leaves alone holds declared permissions only. */
  lemma UnplannedHoldsDeclared(j: Job, r: RoleDoc, g: Grant)
    requires Sound(j) && r in j.d.roles && IsCodeOf(j.t, r.key, g.role) && r.key !in WrittenKeys(j) && g in j.t.grants
    requires g.role in j.t.roles ==> j.t.roles[g.role].source == "manual" || j.t.roles[g.role].source == "iac"
    ensures exists p :: p in j.d.permissions && p.code == g.permission
  {
    var x := UnplannedRole(j, r, g.role);
    EqualRoleFields(x, r);
    SameElements(x.codes, r.codes);
    assert g.permission in r.codes;
    SoundParts(j);
    RoleDocIs(j, r);
    CodesExist(j, r.key);
    assert g.permission in PermissionDocs(j);
  }

  lemma UndeclaredRoleIsGoverned(j: Job, code: string)
    requires Sound(j) && NoConflict(j) && code in j.t.roles && j.t.roles[code].source == "iac" && Expressible(IacRoleKey(code))
    requires forall r | r in j.d.roles :: r.key != IacRoleKey(code)
    ensures code in Governed(j)
  {
    var key := IacRoleKey(code);
    StoredRoleVerdict(j, code);
    NotConflicting(j, RoleEntity, key);
    hide Sound, NoConflict, Verdict, TargetCode, IacRoleKey, Expressible;
    assert key in DeletedKeys(j);
  }

  lemma DeletedPermissionIsUndeclared(j: Job, code: string)
    requires Sound(j) && code in DeletedPermissions(j)
    ensures code in j.t.permissions && j.t.permissions[code].source == "iac" && forall p | p in j.d.permissions :: p.code != code
  {
    PermissionVerdict(j, code);
    SoundParts(j);
    hide Sound, WellFormed, IsSnapshot, IsRoleIndex, Valid, Verdict, PermissionDocs;
    forall p | p in j.d.permissions
      ensures p.code != code
    {
      PermissionDocIs(j, p);
    }
  }

  lemma UngovernedHoldsBack(j: Job, g: Grant)
    requires Sound(j) && NoConflict(j) && g in j.t.grants && g.permission in DeletedPermissions(j) && g.role !in Governed(j)
    ensures HoldsBack(j.t, j.d, g)
  {
    var key := IacRoleKey(g.role);
    DeletedPermissionIsUndeclared(j, g.permission);
    SoundParts(j);
    hide Sound, NoConflict, IsSnapshot, IsRoleIndex, Valid, Verdict, DeletedPermissions, RoleDecision;
    KeepsGrantsIff(j, g.role);
    if !KeepsGrants(j.t, j.d, g.role) {
      if r :| r in j.d.roles && r.key == key {
        CodesOfKey(g.role, key);
        if key in WrittenKeys(j) {
          WrittenIsGoverned(j, r, g.role);
        }
        UnplannedHoldsDeclared(j, r, g);
      } else {
        UndeclaredRoleIsGoverned(j, g.role);
      }
    }
  }

  lemma WrittenIsGoverned(j: Job, r: RoleDoc, code: string)
    requires Sound(j) && r in j.d.roles && IsCodeOf(j.t, r.key, code) && r.key in WrittenKeys(j)
    ensures code in Governed(j)
  {
    SoundParts(j);
    hide Sound, IsSnapshot, WrittenKeys, DeletedKeys, IsCodeOf, IsRoleIndex;
    RoleDocIs(j, r);
    CodeOfRole(j, r.key, code);
  }

  /** An import without conflicts is blocked exactly when a role that keeps its grants holds a permission it would delete. */
  lemma BlockedIff(j: Job)
    requires Sound(j) && NoConflict(j)
    ensures Blocked(j) <==> exists g :: HoldsBack(j.t, j.d, g)
  {
    SoundParts(j);
    if g :| g in j.t.grants && g.permission in DeletedPermissions(j) && g.role !in Governed(j) {
      UngovernedHoldsBack(j, g);
    }
    if g :| HoldsBack(j.t, j.d, g) {
      KeepsGrantsIff(j, g.role);
      NotGoverned(j, g.role);
      UndeclaredCode(j, g.permission);
      UndeclaredPermissionVerdict(PermissionDocs(j), j.t.permissions, g.permission);
      PermissionVerdictIs(j, g.permission);
      PermissionVerdict(j, g.permission);
      assert g.permission in DeletedPermissions(j);
    }
  }
}
