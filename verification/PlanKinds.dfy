/** What a plan lists, read off the document and the snapshot. */
module PlanKinds {

  import opened Sorting
  import opened Tables
  import opened Iac

  // ---------------------------------------------------------------- permissions

  ghost predicate PermissionNeeds(d: Document, c: Current, code: string, kind: Kind) {
    match kind
    case Create => (exists p :: p in d.permissions && p.code == code) && forall x | x in c.permissions :: x.code != code
    case Adopt => exists p, x :: p in d.permissions && x in c.permissions && p.code == code && x.code == code && x.row.source == "manual"
    case Update =>
      exists p, x :: p in d.permissions && x in c.permissions && p.code == code && x.code == code && x.row.source == "iac"
                     && x.row != Permission(p.resource, p.action, p.kind, p.name, p.description, "iac")
    case Delete =>
      (exists x :: x in c.permissions && x.code == code && x.row.source == "iac") && forall p | p in d.permissions :: p.code != code
    case Conflict => false
  }

  lemma InIndex<T(!new)>(xs: seq<T>, key: T -> string, k: string)
    requires Distinct(Keys(xs, key))
    ensures k in Index(xs, key) ==> Index(xs, key)[k] in xs && key(Index(xs, key)[k]) == k
    ensures forall x | x in xs && key(x) == k :: k in Index(xs, key) && Index(xs, key)[k] == x
  {
    forall x | x in xs && key(x) == k
      ensures k in Index(xs, key) && Index(xs, key)[k] == x
    {
      IndexDistinct(xs, key, x);
    }
  }

  lemma PermissionKind(d: Document, c: Current, code: string, kind: Kind)
    requires UniqueKeys(d, c)
    ensures Decision(d, c, PermissionEntity, code) == Some(kind) <==> PermissionNeeds(d, c, code, kind)
  {
    InIndex(d.permissions, PermissionCode, code);
    InIndex(c.permissions, CurrentCode, code);
    PermissionKindOf(d, c, Index(d.permissions, PermissionCode), Index(c.permissions, CurrentCode), code, kind);
  }

  lemma PermissionKindOf(d: Document, c: Current, ds: map<string, PermissionDoc>, cs: map<string, CurrentPermission>, code: string, kind: Kind)
    requires code in ds ==> ds[code] in d.permissions && ds[code].code == code
    requires forall p | p in d.permissions && p.code == code :: code in ds && ds[code] == p
    requires code in cs ==> cs[code] in c.permissions && cs[code].code == code
    requires forall x | x in c.permissions && x.code == code :: code in cs && cs[code] == x
    ensures PermissionDecision(ds, cs, code) == Some(kind) <==> PermissionNeeds(d, c, code, kind)
  {
  }

  // ---------------------------------------------------------------- roles

  function ScopeTexts(ss: seq<DataScope>): (ks: seq<string>)
    ensures |ks| == |ss| && forall i :: 0 <= i < |ss| ==> ks[i] == ss[i].resource + "|" + ss[i].effect + "|" + ss[i].condition
  {
    seq(|ss|, i requires 0 <= i < |ss| => ss[i].resource + "|" + ss[i].effect + "|" + ss[i].condition)
  }

  /** The stored role reads as declared: order in its lists aside. */
  ghost predicate ReadsAs(x: CurrentRole, r: RoleDoc) {
    && x.name == r.name && x.description == r.description && multiset(x.codes) == multiset(r.codes)
    && multiset(ScopeTexts(x.scopes)) == multiset(ScopeTexts(r.scopes))
  }

  ghost predicate RoleNeeds(d: Document, c: Current, key: string, kind: Kind) {
    match kind
    case Create => (exists r :: r in d.roles && r.key == key) && forall x | x in c.roles :: x.key != key
    case Adopt => exists r, x :: r in d.roles && x in c.roles && r.key == key && x.key == key && x.source == "manual"
    case Update => exists r, x :: r in d.roles && x in c.roles && r.key == key && x.key == key && x.source == "iac" && !ReadsAs(x, r)
    case Delete =>
      (exists x :: x in c.roles && x.key == key && x.source == "iac" && !x.bound) && forall r | r in d.roles :: r.key != key
    case Conflict =>
      (exists x :: x in c.roles && x.key == key && x.source == "iac" && x.bound) && forall r | r in d.roles :: r.key != key
  }

  lemma ReadsAsIff(x: CurrentRole, r: RoleDoc)
    ensures RoleFieldsEqual(x, r) <==> ReadsAs(x, r)
  {
    SortedCopiesEqual(x.codes, r.codes);
    SortedCopiesEqual(ScopeKeys(x.scopes), ScopeKeys(r.scopes));
    assert ScopeKeys(x.scopes) == ScopeTexts(x.scopes) && ScopeKeys(r.scopes) == ScopeTexts(r.scopes);
  }

  lemma RoleKind(d: Document, c: Current, key: string, kind: Kind)
    requires UniqueKeys(d, c)
    ensures Decision(d, c, RoleEntity, key) == Some(kind) <==> RoleNeeds(d, c, key, kind)
  {
    InIndex(d.roles, RoleKey, key);
    InIndex(c.roles, CurrentKey, key);
    RoleKindOf(d, c, Index(d.roles, RoleKey), Index(c.roles, CurrentKey), key, kind);
  }

  lemma RoleKindOf(d: Document, c: Current, ds: map<string, RoleDoc>, cs: map<string, CurrentRole>, key: string, kind: Kind)
    requires key in ds ==> ds[key] in d.roles && ds[key].key == key
    requires forall r | r in d.roles && r.key == key :: key in ds && ds[key] == r
    requires key in cs ==> cs[key] in c.roles && cs[key].key == key
    requires forall x | x in c.roles && x.key == key :: key in cs && cs[key] == x
    ensures RoleDecision(ds, cs, key) == Some(kind) <==> RoleNeeds(d, c, key, kind)
  {
    hide RoleFieldsEqual, ReadsAs;
    if key in ds && key in cs {
      ReadsAsIff(cs[key], ds[key]);
    }
  }

  // ---------------------------------------------------------------- data policies

  ghost predicate IsDeclared(p: PolicyDoc, id: string) {
    p.subjectType + ":" + p.subjectId + ":" + p.resource == id
  }

  ghost predicate IsStored(x: CurrentPolicy, id: string) {
    x.subjectType + ":" + x.subjectId + ":" + x.resource == id
  }

  ghost predicate DeclaredTwice(ps: seq<PolicyDoc>, id: string) {
    exists i, j :: 0 <= i < j < |ps| && IsDeclared(ps[i], id) && IsDeclared(ps[j], id)
  }

  ghost predicate StoredTwice(xs: seq<CurrentPolicy>, id: string) {
    exists i, j :: 0 <= i < j < |xs| && IsStored(xs[i], id) && IsStored(xs[j], id)
  }

  ghost predicate PolicyNeeds(d: Document, c: Current, id: string, kind: Kind) {
    match kind
    case Conflict =>
      || DeclaredTwice(d.policies, id)
      || (StoredTwice(c.policies, id)
          && ((exists p :: p in d.policies && IsDeclared(p, id)) || exists x :: x in c.policies && IsStored(x, id) && x.source == "iac"))
    case Create => !DeclaredTwice(d.policies, id) && (exists p :: p in d.policies && IsDeclared(p, id)) && forall x | x in c.policies :: !IsStored(x, id)
    case Adopt =>
      && !DeclaredTwice(d.policies, id) && !StoredTwice(c.policies, id)
      && exists p, x :: p in d.policies && x in c.policies && IsDeclared(p, id) && IsStored(x, id) && x.source == "manual"
    case Update =>
      && !DeclaredTwice(d.policies, id) && !StoredTwice(c.policies, id)
      && exists p, x :: p in d.policies && x in c.policies && IsDeclared(p, id) && IsStored(x, id) && x.source == "iac"
                        && (x.effect != p.effect || x.condition != p.condition)
    case Delete =>
      && !StoredTwice(c.policies, id) && (forall p | p in d.policies :: !IsDeclared(p, id))
      && exists x :: x in c.policies && IsStored(x, id) && x.source == "iac"
  }

  /** A group has two entries exactly when the list holds two with the key. */
  lemma {:induction false} GroupOfTwo<T(!new)>(xs: seq<T>, key: T -> string, k: string)
    ensures |Group(xs, key, k)| > 1 <==> exists i, j :: 0 <= i < j < |xs| && key(xs[i]) == k && key(xs[j]) == k
  {
    if xs != [] {
      var n := |xs| - 1;
      var rest := xs[..n];
      GroupOfTwo(rest, key, k);
      if |Group(xs, key, k)| > 1 {
        if key(xs[n]) == k && |Group(rest, key, k)| <= 1 {
          assert Group(rest, key, k)[0] in Group(rest, key, k);
          var i :| 0 <= i < n && rest[i] == Group(rest, key, k)[0];
          assert key(xs[i]) == k && key(xs[n]) == k;
        } else {
          var i, j :| 0 <= i < j < n && key(rest[i]) == k && key(rest[j]) == k;
          assert key(xs[i]) == k && key(xs[j]) == k;
        }
      }
      if i, j :| 0 <= i < j < |xs| && key(xs[i]) == k && key(xs[j]) == k {
        assert rest[i] in Group(rest, key, k);
        if j < n {
          assert key(rest[i]) == k && key(rest[j]) == k;
        }
      }
    }
  }

  lemma PolicyKind(d: Document, c: Current, id: string, kind: Kind)
    ensures Decision(d, c, PolicyEntity, id) == Some(kind) <==> PolicyNeeds(d, c, id, kind)
  {
    GroupOfTwo(d.policies, PolicyId, id);
    GroupOfTwo(c.policies, CurrentPolicyId, id);
    assert forall p: PolicyDoc :: PolicyId(p) == id <==> IsDeclared(p, id);
    assert forall x: CurrentPolicy :: CurrentPolicyId(x) == id <==> IsStored(x, id);
    PolicyKindOf(d, c, Group(d.policies, PolicyId, id), Group(c.policies, CurrentPolicyId, id), id, kind);
  }

  lemma PolicyKindOf(d: Document, c: Current, ds: seq<PolicyDoc>, cs: seq<CurrentPolicy>, id: string, kind: Kind)
    requires |ds| > 1 <==> DeclaredTwice(d.policies, id)
    requires |cs| > 1 <==> StoredTwice(c.policies, id)
    requires forall p :: p in ds <==> p in d.policies && IsDeclared(p, id)
    requires forall x :: x in cs <==> x in c.policies && IsStored(x, id)
    ensures PolicyDecision(ds, cs) == Some(kind) <==> PolicyNeeds(d, c, id, kind)
  {
    hide DeclaredTwice, StoredTwice, IsDeclared, IsStored;
    if |ds| > 0 {
      assert ds[0] in ds;
    }
    if |cs| > 0 {
      assert cs[0] in cs;
    }
  }

  // ---------------------------------------------------------------- the plan

  ghost predicate Needs(d: Document, c: Current, it: Item) {
    match it.entity
    case PermissionEntity => PermissionNeeds(d, c, it.id, it.kind)
    case RoleEntity => RoleNeeds(d, c, it.id, it.kind)
    case PolicyEntity => PolicyNeeds(d, c, it.id, it.kind)
  }

  /** A plan lists exactly what document and snapshot call for. */
  lemma PlanListsNeeds(d: Document, c: Current, items: seq<Item>)
    requires UniqueKeys(d, c) && IsPlan(d, c, items)
    ensures forall it :: it in items <==> Needs(d, c, it)
  {
    hide Decision, UniqueKeys;
    forall it
      ensures it in items <==> Needs(d, c, it)
    {
      match it.entity
      case PermissionEntity => PermissionKind(d, c, it.id, it.kind);
      case RoleEntity => RoleKind(d, c, it.id, it.kind);
      case PolicyEntity => PolicyKind(d, c, it.id, it.kind);
    }
  }
}
