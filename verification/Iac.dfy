/** Policy-as-code documents: validation, and the plan that turns the current state into the declared one. */
module Iac {

  import opened Sorting
  import opened Tables

  datatype PermissionDoc = PermissionDoc(
    code: string, resource: string, action: string, kind: string, name: string, description: string)

  /** Conditions are canonical JSON text. */
  datatype DataScope = DataScope(resource: string, effect: string, condition: string)

  datatype RoleDoc = RoleDoc(key: string, name: string, description: string, codes: seq<string>, scopes: seq<DataScope>)

  datatype PolicyDoc = PolicyDoc(
    subjectType: string, subjectId: string, resource: string, effect: string, condition: string)

  datatype Document = Document(
    apiVersion: string, permissions: seq<PermissionDoc>, roles: seq<RoleDoc>, policies: seq<PolicyDoc>)

  datatype CurrentPermission = CurrentPermission(code: string, row: Permission)

  datatype CurrentRole = CurrentRole(
    key: string, name: string, description: string, source: string,
    codes: seq<string>, scopes: seq<DataScope>, bound: bool)

  datatype CurrentPolicy = CurrentPolicy(
    subjectType: string, subjectId: string, resource: string, effect: string, condition: string, source: string)

  datatype Current = Current(
    permissions: seq<CurrentPermission>, roles: seq<CurrentRole>, policies: seq<CurrentPolicy>)

  datatype Kind = Create | Adopt | Update | Delete | Conflict
  datatype Entity = PermissionEntity | RoleEntity | PolicyEntity
  datatype Item = Item(kind: Kind, entity: Entity, id: string)

  datatype Option<+T> = None | Some(value: T)

  const API_VERSION := "sydom.policy/v1"

  function Identity(subjectType: string, subjectId: string, resource: string): string {
    subjectType + ":" + subjectId + ":" + resource
  }

  function PermissionCode(p: PermissionDoc): string { p.code }
  function CurrentCode(p: CurrentPermission): string { p.code }
  function RoleKey(r: RoleDoc): string { r.key }
  function CurrentKey(r: CurrentRole): string { r.key }
  function PolicyId(p: PolicyDoc): string { Identity(p.subjectType, p.subjectId, p.resource) }
  function CurrentPolicyId(p: CurrentPolicy): string { Identity(p.subjectType, p.subjectId, p.resource) }

  function Keys<T>(xs: seq<T>, key: T -> string): (ks: seq<string>)
    ensures |ks| == |xs| && forall i :: 0 <= i < |xs| ==> ks[i] == key(xs[i])
  {
    seq(|xs|, i requires 0 <= i < |xs| => key(xs[i]))
  }

  /** The map a loop over the list fills: a later entry replaces an earlier one with its key. */
  function Index<T>(xs: seq<T>, key: T -> string): (m: map<string, T>)
    ensures forall k :: k in m <==> k in Keys(xs, key)
    ensures forall k | k in m :: m[k] in xs && key(m[k]) == k
  {
    if xs == [] then map[]
    else
      var last := xs[|xs| - 1];
      assert xs == xs[..|xs| - 1] + [last];
      assert Keys(xs, key) == Keys(xs[..|xs| - 1], key) + [key(last)];
      Index(xs[..|xs| - 1], key)[key(last) := last]
  }

  method BuildIndex<T>(xs: seq<T>, key: T -> string) returns (m: map<string, T>)
    ensures m == Index(xs, key)
  {
    m := map[];
    for i := 0 to |xs|
      invariant m == Index(xs[..i], key)
    {
      assert xs[..i + 1][..i] == xs[..i];
      m := m[key(xs[i]) := xs[i]];
    }
    assert xs[..|xs|] == xs;
  }

  lemma IndexDistinct<T>(xs: seq<T>, key: T -> string, x: T)
    requires Distinct(Keys(xs, key)) && x in xs
    ensures key(x) in Index(xs, key) && Index(xs, key)[key(x)] == x
  {
    var m := Index(xs, key);
    var i :| 0 <= i < |xs| && xs[i] == x;
    assert Keys(xs, key)[i] == key(x);
    var j :| 0 <= j < |xs| && xs[j] == m[key(x)];
    assert Keys(xs, key)[j] == key(x);
  }

  /** The entries with one key, in list order. */
  function Group<T(!new)>(xs: seq<T>, key: T -> string, k: string): (g: seq<T>)
    ensures forall x :: x in g <==> x in xs && key(x) == k
  {
    if xs == [] then []
    else
      var last := xs[|xs| - 1];
      assert xs == xs[..|xs| - 1] + [last];
      Group(xs[..|xs| - 1], key, k) + if key(last) == k then [last] else []
  }

  lemma GroupOneMore<T(!new)>(xs: seq<T>, key: T -> string, i: nat, k: string)
    requires i < |xs|
    ensures Group(xs[..i + 1], key, k) == Group(xs[..i], key, k) + if key(xs[i]) == k then [xs[i]] else []
    ensures Keys(xs[..i + 1], key) == Keys(xs[..i], key) + [key(xs[i])]
  {
    assert xs[..i + 1][..i] == xs[..i];
  }

  lemma GroupOutside<T(!new)>(xs: seq<T>, key: T -> string, k: string)
    requires k !in Keys(xs, key)
    ensures Group(xs, key, k) == []
  {
    assert forall i :: 0 <= i < |xs| ==> Keys(xs, key)[i] == key(xs[i]);
  }

  method BuildGroups<T(!new)>(xs: seq<T>, key: T -> string) returns (m: map<string, seq<T>>)
    ensures m.Keys == set k | k in Keys(xs, key)
    ensures forall k | k in m :: m[k] == Group(xs, key, k)
  {
    m := map[];
    for i := 0 to |xs|
      invariant m.Keys == set k | k in Keys(xs[..i], key)
      invariant forall k | k in m :: m[k] == Group(xs[..i], key, k)
    {
      var k := key(xs[i]);
      forall j ensures Group(xs[..i + 1], key, j) == Group(xs[..i], key, j) + if k == j then [xs[i]] else [] {
        GroupOneMore(xs, key, i, j);
      }
      GroupOneMore(xs, key, i, k);
      if k !in m {
        GroupOutside(xs[..i], key, k);
      }
      m := m[k := (if k in m then m[k] else []) + [xs[i]]];
    }
    assert xs[..|xs|] == xs;
  }

  // ---------------------------------------------------------------- validation

  predicate IsSpace(c: char) {
    var n := c as int;
    0x09 <= n <= 0x0d || n == 0x20 || n == 0x85 || n == 0xa0 || n == 0x1680 || 0x2000 <= n <= 0x200a
    || n == 0x2028 || n == 0x2029 || n == 0x202f || n == 0x205f || n == 0x3000
  }

  /** Nothing is left of the string once its surrounding white space is trimmed. */
  predicate Blank(s: string) {
    forall i :: 0 <= i < |s| ==> IsSpace(s[i])
  }

  predicate ValidCondition(c: string) {
    !Blank(c) && c != "null"
  }

  predicate PermissionComplete(p: PermissionDoc) {
    !Blank(p.code) && !Blank(p.resource) && !Blank(p.action) && !Blank(p.kind) && !Blank(p.name)
  }

  predicate ScopeComplete(s: DataScope) {
    !Blank(s.resource) && ValidCondition(s.condition) && KnownEffect(s.effect)
  }

  predicate PolicyComplete(p: PolicyDoc) {
    !Blank(p.subjectType) && !Blank(p.subjectId) && !Blank(p.resource) && ValidCondition(p.condition) && KnownEffect(p.effect)
  }

  ghost predicate RoleComplete(r: RoleDoc, codes: set<string>) {
    && r.key != "" && ':' !in r.key && !Blank(r.name)
    && (forall c :: c in r.codes ==> c in codes)
    && (forall s :: s in r.scopes ==> ScopeComplete(s))
  }

  ghost function Declared(ps: seq<PermissionDoc>): set<string> {
    set p | p in ps :: p.code
  }

  /** Required fields are present, keys are unique, and roles refer to declared permissions only. */
  ghost predicate Valid(d: Document) {
    && (d.apiVersion == "" || d.apiVersion == API_VERSION)
    && (forall p :: p in d.permissions ==> PermissionComplete(p))
    && Distinct(Keys(d.permissions, PermissionCode))
    && (forall r :: r in d.roles ==> RoleComplete(r, Declared(d.permissions)))
    && Distinct(Keys(d.roles, RoleKey))
    && (forall p :: p in d.policies ==> PolicyComplete(p))
    && Distinct(Keys(d.policies, PolicyId))
  }

  method ValidatePermissions(ps: seq<PermissionDoc>) returns (ok: bool, seen: set<string>)
    ensures ok <==> (forall p :: p in ps ==> PermissionComplete(p)) && Distinct(Keys(ps, PermissionCode))
    ensures ok ==> seen == Declared(ps)
  {
    seen := {};
    for i := 0 to |ps|
      invariant seen == set j | 0 <= j < i :: ps[j].code
      invariant forall j :: 0 <= j < i ==> PermissionComplete(ps[j])
      invariant forall j, k :: 0 <= j < k < i ==> ps[j].code != ps[k].code
    {
      var p := ps[i];
      if !PermissionComplete(p) {
        return false, seen;
      }
      if p.code in seen {
        var j :| 0 <= j < i && ps[j].code == p.code;
        assert Keys(ps, PermissionCode)[j] == Keys(ps, PermissionCode)[i];
        return false, seen;
      }
      seen := seen + {p.code};
    }
    ok := true;
  }

  method ValidateRole(r: RoleDoc, codes: set<string>) returns (ok: bool)
    ensures ok <==> RoleComplete(r, codes)
  {
    if r.key == "" || ':' in r.key || Blank(r.name) {
      return false;
    }
    for i := 0 to |r.codes|
      invariant forall j :: 0 <= j < i ==> r.codes[j] in codes
    {
      if r.codes[i] !in codes {
        return false;
      }
    }
    for i := 0 to |r.scopes|
      invariant forall j :: 0 <= j < i ==> ScopeComplete(r.scopes[j])
    {
      if !ScopeComplete(r.scopes[i]) {
        return false;
      }
    }
    return true;
  }

  method ValidateRoles(rs: seq<RoleDoc>, codes: set<string>) returns (ok: bool)
    ensures ok <==> (forall r :: r in rs ==> RoleComplete(r, codes)) && Distinct(Keys(rs, RoleKey))
  {
    var seen := {};
    for i := 0 to |rs|
      invariant seen == set j | 0 <= j < i :: rs[j].key
      invariant forall j :: 0 <= j < i ==> RoleComplete(rs[j], codes)
      invariant forall j, k :: 0 <= j < k < i ==> rs[j].key != rs[k].key
    {
      var complete := ValidateRole(rs[i], codes);
      if !complete {
        return false;
      }
      if rs[i].key in seen {
        var j :| 0 <= j < i && rs[j].key == rs[i].key;
        assert Keys(rs, RoleKey)[j] == Keys(rs, RoleKey)[i];
        return false;
      }
      seen := seen + {rs[i].key};
    }
    ok := true;
  }

  method ValidatePolicies(ps: seq<PolicyDoc>) returns (ok: bool)
    ensures ok <==> (forall p :: p in ps ==> PolicyComplete(p)) && Distinct(Keys(ps, PolicyId))
  {
    var seen := {};
    for i := 0 to |ps|
      invariant seen == set j | 0 <= j < i :: PolicyId(ps[j])
      invariant forall j :: 0 <= j < i ==> PolicyComplete(ps[j])
      invariant forall j, k :: 0 <= j < k < i ==> PolicyId(ps[j]) != PolicyId(ps[k])
    {
      var id := PolicyId(ps[i]);
      if !PolicyComplete(ps[i]) {
        return false;
      }
      if id in seen {
        var j :| 0 <= j < i && PolicyId(ps[j]) == id;
        assert Keys(ps, PolicyId)[j] == Keys(ps, PolicyId)[i];
        return false;
      }
      seen := seen + {id};
    }
    ok := true;
  }

  /** Accepts exactly the valid documents. */
  method Validate(d: Document) returns (ok: bool)
    ensures ok <==> Valid(d)
  {
    if d.apiVersion != "" && d.apiVersion != API_VERSION {
      return false;
    }
    var codes;
    ok, codes := ValidatePermissions(d.permissions);
    if ok {
      ok := ValidateRoles(d.roles, codes);
    }
    if ok {
      ok := ValidatePolicies(d.policies);
    }
  }

  ghost predicate HasText(s: string) {
    exists i :: 0 <= i < |s| && !IsSpace(s[i])
  }

  ghost predicate IsCondition(c: string) {
    HasText(c) && c != "null"
  }

  lemma BlankMeans()
    ensures forall s :: Blank(s) <==> !HasText(s)
  {
  }

  lemma PermissionsMean(ps: seq<PermissionDoc>)
    ensures (forall p | p in ps :: PermissionComplete(p)) <==>
      forall p | p in ps :: HasText(p.code) && HasText(p.resource) && HasText(p.action) && HasText(p.kind) && HasText(p.name)
  {
    BlankMeans();
    hide Blank, HasText;
  }

  lemma PoliciesMean(ps: seq<PolicyDoc>)
    ensures (forall p | p in ps :: PolicyComplete(p)) <==>
      && (forall p | p in ps :: HasText(p.subjectType) && HasText(p.subjectId) && HasText(p.resource))
      && forall p | p in ps :: IsCondition(p.condition) && (p.effect == "allow" || p.effect == "deny")
  {
    BlankMeans();
    hide Blank, HasText;
  }

  lemma ScopesMean(ss: seq<DataScope>)
    ensures (forall s :: s in ss ==> ScopeComplete(s)) <==>
      forall s | s in ss :: HasText(s.resource) && IsCondition(s.condition) && (s.effect == "allow" || s.effect == "deny")
  {
    BlankMeans();
    hide Blank, HasText;
  }

  /** The role has a key without a colon and a name, lists declared permissions only, and its scopes are complete. */
  ghost predicate RoleReads(r: RoleDoc, ps: seq<PermissionDoc>) {
    && r.key != "" && ':' !in r.key && HasText(r.name)
    && (forall c | c in r.codes :: exists p :: p in ps && p.code == c)
    && (forall s | s in r.scopes :: HasText(s.resource) && IsCondition(s.condition) && (s.effect == "allow" || s.effect == "deny"))
  }

  lemma RoleMeans(r: RoleDoc, ps: seq<PermissionDoc>)
    ensures RoleComplete(r, Declared(ps)) <==> RoleReads(r, ps)
  {
    ScopesMean(r.scopes);
    BlankMeans();
    hide Blank, HasText, ScopeComplete, IsCondition;
  }

  lemma DistinctMeans<T>(xs: seq<T>, key: T -> string)
    ensures Distinct(Keys(xs, key)) <==> forall i, j :: 0 <= i < j < |xs| ==> key(xs[i]) != key(xs[j])
  {
    if Distinct(Keys(xs, key)) {
      forall i, j | 0 <= i < j < |xs|
        ensures key(xs[i]) != key(xs[j])
      {
        assert Keys(xs, key)[i] != Keys(xs, key)[j];
      }
    }
  }

  /** What a valid document looks like, field by field. */
  lemma ValidMeans(d: Document)
    ensures Valid(d) <==>
      && (d.apiVersion == "" || d.apiVersion == "sydom.policy/v1")
      && (forall p | p in d.permissions :: HasText(p.code) && HasText(p.resource) && HasText(p.action) && HasText(p.kind) && HasText(p.name))
      && (forall i, j :: 0 <= i < j < |d.permissions| ==> d.permissions[i].code != d.permissions[j].code)
      && (forall r | r in d.roles :: RoleReads(r, d.permissions))
      && (forall i, j :: 0 <= i < j < |d.roles| ==> d.roles[i].key != d.roles[j].key)
      && (forall p | p in d.policies :: HasText(p.subjectType) && HasText(p.subjectId) && HasText(p.resource))
      && (forall p | p in d.policies :: IsCondition(p.condition) && (p.effect == "allow" || p.effect == "deny"))
      && (forall i, j :: 0 <= i < j < |d.policies| ==> PolicyId(d.policies[i]) != PolicyId(d.policies[j]))
  {
    PermissionsMean(d.permissions);
    PoliciesMean(d.policies);
    DistinctMeans(d.permissions, PermissionCode);
    DistinctMeans(d.roles, RoleKey);
    DistinctMeans(d.policies, PolicyId);
    hide Distinct, PermissionComplete, PolicyComplete, RoleComplete, RoleReads, HasText, IsCondition;
    forall r
      ensures RoleComplete(r, Declared(d.permissions)) <==> RoleReads(r, d.permissions)
    {
      RoleMeans(r, d.permissions);
    }
  }

  // ---------------------------------------------------------------- what the plan decides

  predicate PermissionFieldsEqual(c: Permission, d: PermissionDoc) {
    c.resource == d.resource && c.action == d.action && c.kind == d.kind && c.name == d.name && c.description == d.description
  }

  function ScopeKey(s: DataScope): string {
    s.resource + "|" + s.effect + "|" + s.condition
  }

  function ScopeKeys(ss: seq<DataScope>): (ks: seq<string>)
    ensures |ks| == |ss| && forall i :: 0 <= i < |ss| ==> ks[i] == ScopeKey(ss[i])
  {
    seq(|ss|, i requires 0 <= i < |ss| => ScopeKey(ss[i]))
  }

  /** Names agree, and permission codes and data scopes agree up to order. */
  predicate RoleFieldsEqual(c: CurrentRole, d: RoleDoc) {
    && c.name == d.name && c.description == d.description
    && SortedCopy(c.codes) == SortedCopy(d.codes)
    && SortedCopy(ScopeKeys(c.scopes)) == SortedCopy(ScopeKeys(d.scopes))
  }

  predicate PolicyFieldsEqual(c: CurrentPolicy, d: PolicyDoc) {
    c.effect == d.effect && c.condition == d.condition
  }

  /** Only iac rows are governed; a declared manual row is adopted; any other row is never touched. */
  function PermissionDecision(d: map<string, PermissionDoc>, c: map<string, CurrentPermission>, code: string): Option<Kind> {
    if code in c then
      if c[code].row.source == IAC then
        if code !in d then Some(Delete)
        else if PermissionFieldsEqual(c[code].row, d[code]) then None
        else Some(Update)
      else if c[code].row.source == MANUAL && code in d then Some(Adopt)
      else None
    else if code in d then Some(Create)
    else None
  }

  /** As for permissions, but an undeclared iac role that still has users is a conflict. */
  function RoleDecision(d: map<string, RoleDoc>, c: map<string, CurrentRole>, key: string): Option<Kind> {
    if key in c then
      if c[key].source == IAC then
        if key in d then if RoleFieldsEqual(c[key], d[key]) then None else Some(Update)
        else if c[key].bound then Some(Conflict)
        else Some(Delete)
      else if c[key].source == MANUAL && key in d then Some(Adopt)
      else None
    else if key in d then Some(Create)
    else None
  }

  /** Rows are compared by identity; an identity with several rows is a conflict once it is governed. */
  function PolicyDecision(d: seq<PolicyDoc>, c: seq<CurrentPolicy>): Option<Kind> {
    if |d| > 1 then Some(Conflict)
    else if |c| > 1 then
      if |d| > 0 || exists r :: r in c && r.source == IAC then Some(Conflict) else None
    else if |c| == 1 then
      if c[0].source == IAC then
        if |d| == 0 then Some(Delete)
        else if PolicyFieldsEqual(c[0], d[0]) then None
        else Some(Update)
      else if c[0].source == MANUAL && |d| == 1 then Some(Adopt)
      else None
    else if |d| == 1 then Some(Create)
    else None
  }

  function Decision(d: Document, c: Current, entity: Entity, id: string): Option<Kind> {
    match entity
    case PermissionEntity =>
      PermissionDecision(Index(d.permissions, PermissionCode), Index(c.permissions, CurrentCode), id)
    case RoleEntity =>
      RoleDecision(Index(d.roles, RoleKey), Index(c.roles, CurrentKey), id)
    case PolicyEntity =>
      PolicyDecision(Group(d.policies, PolicyId, id), Group(c.policies, CurrentPolicyId, id))
  }

  /** The plan holds one item for every identity with a decision, and nothing else. */
  ghost predicate IsPlan(d: Document, c: Current, items: seq<Item>) {
    && (forall it :: it in items <==> Decision(d, c, it.entity, it.id) == Some(it.kind))
    && OncePerIdentity(items)
  }

  ghost predicate OncePerIdentity(items: seq<Item>) {
    forall i, j :: 0 <= i < j < |items| ==> items[i].entity != items[j].entity || items[i].id != items[j].id
  }

  /** Permissions, roles, data policies; and of permissions and roles, the new ones after the stored ones. */
  function Rank(it: Item): nat {
    match it.entity
    case PermissionEntity => if it.kind == Create then 1 else 0
    case RoleEntity => if it.kind == Create then 3 else 2
    case PolicyEntity => 4
  }

  predicate Before(a: Item, b: Item) {
    Rank(a) < Rank(b) || (Rank(a) == Rank(b) && a.id != b.id && Leq(a.id, b.id))
  }

  /** The items are listed by rank, and by identity within a rank. */
  ghost predicate InOrder(items: seq<Item>) {
    forall i, j :: 0 <= i < j < |items| ==> Before(items[i], items[j])
  }

  lemma NeverBothBefore(a: Item, b: Item)
    ensures !(Before(a, b) && Before(b, a)) && !Before(a, a)
  {
    if Leq(a.id, b.id) && Leq(b.id, a.id) {
      LeqAntisymmetric(a.id, b.id);
    }
  }

  lemma FirstsAgree(x: seq<Item>, y: seq<Item>)
    requires InOrder(x) && InOrder(y) && (forall it :: it in x <==> it in y) && x != []
    ensures y != [] && x[0] == y[0]
  {
    assert x[0] in y;
    assert y[0] in x;
    NeverBothBefore(x[0], y[0]);
  }

  lemma RestsAgree(x: seq<Item>, y: seq<Item>)
    requires InOrder(x) && InOrder(y) && (forall it :: it in x <==> it in y) && x != [] && y != [] && x[0] == y[0]
    ensures InOrder(x[1..]) && InOrder(y[1..]) && forall it :: it in x[1..] <==> it in y[1..]
  {
    NeverBothBefore(x[0], x[0]);
    assert forall it :: it in x[1..] ==> Before(x[0], it) && it in x;
    assert forall it :: it in y[1..] ==> Before(y[0], it) && it in y;
    assert forall it :: it in x && it != x[0] ==> it in x[1..];
    assert forall it :: it in y && it != y[0] ==> it in y[1..];
  }

  lemma EmptyHasNone<T>(s: seq<T>)
    ensures s == [] <==> forall x :: x !in s
  {
    if s != [] {
      assert s[0] in s;
    }
  }

  /** A list in order is determined by what it holds. */
  lemma {:induction false} OrderDetermines(x: seq<Item>, y: seq<Item>)
    requires InOrder(x) && InOrder(y) && forall it :: it in x <==> it in y
    ensures x == y
  {
    EmptyHasNone(x);
    EmptyHasNone(y);
    if x != [] {
      FirstsAgree(x, y);
      RestsAgree(x, y);
      OrderDetermines(x[1..], y[1..]);
      assert x == [x[0]] + x[1..] && y == [y[0]] + y[1..];
    }
  }

  /** The plan only depends on what is decided, not on the order in which document and snapshot list their entries. */
  lemma PlanIsDetermined(d: Document, c: Current, d': Document, c': Current, x: seq<Item>, y: seq<Item>)
    requires IsPlan(d, c, x) && IsPlan(d', c', y) && InOrder(x) && InOrder(y)
    requires forall entity, id :: Decision(d, c, entity, id) == Decision(d', c', entity, id)
    ensures x == y
  {
    hide Decision, InOrder;
    forall it
      ensures it in x <==> it in y
    {
      assert Decision(d, c, it.entity, it.id) == Decision(d', c', it.entity, it.id);
    }
    OrderDetermines(x, y);
  }

  /** Permission and role keys are unique on both sides; policies may share an identity. */
  ghost predicate UniqueKeys(d: Document, c: Current) {
    && Distinct(Keys(d.permissions, PermissionCode)) && Distinct(Keys(c.permissions, CurrentCode))
    && Distinct(Keys(d.roles, RoleKey)) && Distinct(Keys(c.roles, CurrentKey))
  }

  // ---------------------------------------------------------------- computing the plan

  /** The items of one pass over `ids`: one for every listed identity with a decision. */
  ghost predicate Lists(decide: string -> Option<Kind>, entity: Entity, ids: seq<string>, items: seq<Item>) {
    && (forall it :: it in items <==> it.entity == entity && it.id in ids && decide(it.id) == Some(it.kind))
    && (Distinct(ids) ==> OncePerIdentity(items))
  }

  lemma DistinctLast(ids: seq<string>, id: string)
    requires Distinct(ids + [id])
    ensures Distinct(ids) && id !in ids
  {
    var all := ids + [id];
    forall i | 0 <= i < |ids|
      ensures ids[i] != id
    {
      assert all[i] == ids[i] && all[|ids|] == id;
    }
    forall i, j | 0 <= i < j < |ids|
      ensures ids[i] != ids[j]
    {
      assert all[i] == ids[i] && all[j] == ids[j];
    }
  }

  lemma ListsOneMore(decide: string -> Option<Kind>, entity: Entity, ids: seq<string>, items: seq<Item>, id: string)
    requires Lists(decide, entity, ids, items)
    ensures decide(id) == None ==> Lists(decide, entity, ids + [id], items)
    ensures decide(id).Some? ==> Lists(decide, entity, ids + [id], items + [Item(decide(id).value, entity, id)])
  {
    if Distinct(ids + [id]) {
      DistinctLast(ids, id);
      if decide(id).Some? {
        var more := items + [Item(decide(id).value, entity, id)];
        forall i, j | 0 <= i < j < |more|
          ensures more[i].entity != more[j].entity || more[i].id != more[j].id
        {
          assert items[i] in items;
        }
      }
    }
  }

  /** The items come in the order of their identities. */
  ghost predicate ByIdentity(items: seq<Item>) {
    forall i, j :: 0 <= i < j < |items| ==> items[i].id != items[j].id && Leq(items[i].id, items[j].id)
  }

  lemma NextByIdentity(ids: seq<string>, i: nat, items: seq<Item>, it: Item)
    requires Distinct(ids) && Sorted(ids) && i < |ids| && it.id == ids[i] && ByIdentity(items)
    requires forall x :: x in items ==> x.id in ids[..i]
    ensures ByIdentity(items + [it])
  {
    forall k | 0 <= k < |items|
      ensures items[k].id != it.id && Leq(items[k].id, it.id)
    {
      assert items[k] in items;
      var j :| 0 <= j < i && ids[..i][j] == items[k].id;
      assert ids[j] == items[k].id;
    }
  }

  method Pass(entity: Entity, ids: seq<string>, decide: string -> Option<Kind>) returns (items: seq<Item>)
    ensures Lists(decide, entity, ids, items)
    ensures Distinct(ids) && Sorted(ids) ==> ByIdentity(items)
  {
    items := [];
    for i := 0 to |ids|
      invariant Lists(decide, entity, ids[..i], items)
      invariant Distinct(ids) && Sorted(ids) ==> ByIdentity(items)
    {
      ListsOneMore(decide, entity, ids[..i], items, ids[i]);
      assert ids[..i + 1] == ids[..i] + [ids[i]];
      if decide(ids[i]).Some? && Distinct(ids) && Sorted(ids) {
        NextByIdentity(ids, i, items, Item(decide(ids[i]).value, entity, ids[i]));
      }
      match decide(ids[i])
      case Some(kind) => items := items + [Item(kind, entity, ids[i])];
      case None =>
    }
    assert ids[..|ids|] == ids;
  }

  /** A pass over the stored identities, then one that creates declared identities that are not stored. */
  lemma JoinPasses(stored: seq<string>, declared: seq<string>, onStored: string -> Option<Kind>,
                   onDeclared: string -> Option<Kind>, entity: Entity, a: seq<Item>, b: seq<Item>)
    requires Lists(onStored, entity, stored, a) && Lists(onDeclared, entity, declared, b)
    requires forall id :: id in stored ==> onDeclared(id) == None
    requires forall id :: id !in stored && id in declared ==> onDeclared(id) == onStored(id)
    requires forall id :: id !in stored && id !in declared ==> onStored(id) == None
    ensures forall it :: it in a + b <==> it.entity == entity && onStored(it.id) == Some(it.kind)
    ensures Distinct(stored) && Distinct(declared) ==> OncePerIdentity(a + b)
  {
    if Distinct(stored) && Distinct(declared) {
      JoinOnce(a, b);
    }
  }

  lemma JoinOnce(a: seq<Item>, b: seq<Item>)
    requires OncePerIdentity(a) && OncePerIdentity(b)
    requires forall x, y :: x in a && y in b ==> x.entity != y.entity || x.id != y.id
    ensures OncePerIdentity(a + b)
  {
    var all := a + b;
    forall i, j | 0 <= i < j < |all|
      ensures all[i].entity != all[j].entity || all[i].id != all[j].id
    {
      if i < |a| <= j {
        assert all[i] in a && all[j] in b;
      }
    }
  }

  /** The stored ones, none of them new, then the new ones. */
  lemma StoredThenNew(entity: Entity, kept: seq<Item>, created: seq<Item>)
    requires ByIdentity(kept) && ByIdentity(created) && entity != PolicyEntity
    requires forall it :: it in kept ==> it.entity == entity && it.kind != Create
    requires forall it :: it in created ==> it.entity == entity && it.kind == Create
    ensures InOrder(kept + created)
  {
    var all := kept + created;
    forall i, j | 0 <= i < j < |all|
      ensures Before(all[i], all[j])
    {
      assert all[i] in if i < |kept| then kept else created;
      assert all[j] in if j < |kept| then kept else created;
    }
  }

  lemma JoinInOrder(a: seq<Item>, b: seq<Item>)
    requires InOrder(a) && InOrder(b) && forall x, y :: x in a && y in b ==> Rank(x) < Rank(y)
    ensures InOrder(a + b)
  {
    var all := a + b;
    forall i, j | 0 <= i < j < |all|
      ensures Before(all[i], all[j])
    {
      if i < |a| <= j {
        assert all[i] in a && all[j] in b;
      }
    }
  }

  /** A sorted pass over the stored identities, then a sorted pass that creates the declared ones that are not stored. */
  method StoredAndNew(entity: Entity, storedIds: seq<string>, declaredIds: seq<string>, decide: string -> Option<Kind>) returns (items: seq<Item>)
    requires entity != PolicyEntity
    requires forall id :: id in storedIds ==> decide(id) != Some(Create)
    requires forall id :: id !in storedIds ==> decide(id) == if id in declaredIds then Some(Create) else None
    ensures forall it :: it in items <==> it.entity == entity && decide(it.id) == Some(it.kind)
    ensures Distinct(storedIds) && Distinct(declaredIds) ==> OncePerIdentity(items) && InOrder(items)
  {
    hide SortedCopy, Distinct, OncePerIdentity, ByIdentity, InOrder;
    var stored, declared := SortedCopy(storedIds), SortedCopy(declaredIds);
    SortedCopyElements(storedIds);
    SortedCopyElements(declaredIds);
    var kept := Pass(entity, stored, decide);
    var create := id => if id in storedIds then None else Some(Create);
    var created := Pass(entity, declared, create);
    JoinPasses(stored, declared, decide, create, entity, kept, created);
    if Distinct(storedIds) && Distinct(declaredIds) {
      SortedCopyDistinct(storedIds);
      SortedCopyDistinct(declaredIds);
      StoredThenNew(entity, kept, created);
    }
    items := kept + created;
  }

  method PermissionItems(d: Document, c: Current) returns (items: seq<Item>)
    ensures forall it :: it in items <==> it.entity == PermissionEntity && Decision(d, c, it.entity, it.id) == Some(it.kind)
    ensures UniqueKeys(d, c) ==> OncePerIdentity(items) && InOrder(items)
  {
    hide Distinct, OncePerIdentity, InOrder;
    var desired := BuildIndex(d.permissions, PermissionCode);
    var current := BuildIndex(c.permissions, CurrentCode);
    items := StoredAndNew(PermissionEntity, Keys(c.permissions, CurrentCode), Keys(d.permissions, PermissionCode),
      id => PermissionDecision(desired, current, id));
  }

  method RoleItems(d: Document, c: Current) returns (items: seq<Item>)
    ensures forall it :: it in items <==> it.entity == RoleEntity && Decision(d, c, it.entity, it.id) == Some(it.kind)
    ensures UniqueKeys(d, c) ==> OncePerIdentity(items) && InOrder(items)
  {
    hide Distinct, OncePerIdentity, InOrder, RoleFieldsEqual;
    var desired := BuildIndex(d.roles, RoleKey);
    var current := BuildIndex(c.roles, CurrentKey);
    items := StoredAndNew(RoleEntity, Keys(c.roles, CurrentKey), Keys(d.roles, RoleKey), id => RoleDecision(desired, current, id));
  }

  /** The elements of a set in some order, each once. */
  method Enumerate(s: set<string>) returns (xs: seq<string>)
    ensures Distinct(xs) && forall x :: x in xs <==> x in s
  {
    xs := [];
    var todo := s;
    while todo != {}
      invariant todo <= s
      invariant forall i, j :: 0 <= i < j < |xs| ==> xs[i] != xs[j]
      invariant forall x :: x in xs <==> x in s - todo
      decreases todo
    {
      var x :| x in todo;
      todo := todo - {x};
      assert x !in xs;
      xs := xs + [x];
    }
  }

  function PolicyDecisionIn(desired: map<string, seq<PolicyDoc>>, current: map<string, seq<CurrentPolicy>>, id: string): Option<Kind> {
    PolicyDecision(if id in desired then desired[id] else [], if id in current then current[id] else [])
  }

  lemma GroupsDecide(d: Document, c: Current, desired: map<string, seq<PolicyDoc>>, current: map<string, seq<CurrentPolicy>>, id: string)
    requires desired.Keys == set k | k in Keys(d.policies, PolicyId)
    requires current.Keys == set k | k in Keys(c.policies, CurrentPolicyId)
    requires id in desired ==> desired[id] == Group(d.policies, PolicyId, id)
    requires id in current ==> current[id] == Group(c.policies, CurrentPolicyId, id)
    ensures PolicyDecisionIn(desired, current, id) == Decision(d, c, PolicyEntity, id)
    ensures PolicyDecisionIn(desired, current, id).Some? ==> id in desired.Keys + current.Keys
  {
    if id !in desired {
      GroupOutside(d.policies, PolicyId, id);
    }
    if id !in current {
      GroupOutside(c.policies, CurrentPolicyId, id);
    }
  }

  method PolicyItems(d: Document, c: Current) returns (items: seq<Item>)
    ensures forall it :: it in items <==> it.entity == PolicyEntity && Decision(d, c, it.entity, it.id) == Some(it.kind)
    ensures OncePerIdentity(items) && InOrder(items)
  {
    var desired := BuildGroups(d.policies, PolicyId);
    var current := BuildGroups(c.policies, CurrentPolicyId);
    var decide := id => PolicyDecisionIn(desired, current, id);
    forall id
      ensures decide(id) == Decision(d, c, PolicyEntity, id)
      ensures decide(id).Some? ==> id in desired.Keys + current.Keys
    {
      GroupsDecide(d, c, desired, current, id);
    }
    var unordered := Enumerate(desired.Keys + current.Keys);
    var ids := SortedCopy(unordered);
    SortedCopyElements(unordered);
    SortedCopyDistinct(unordered);
    items := Pass(PolicyEntity, ids, decide);
    assert forall i :: 0 <= i < |items| ==> items[i] in items;
  }

  /** The whole plan: permissions, then roles, then data policies, each sorted. */
  method Diff(d: Document, c: Current) returns (items: seq<Item>)
    ensures forall it :: it in items <==> Decision(d, c, it.entity, it.id) == Some(it.kind)
    ensures UniqueKeys(d, c) ==> IsPlan(d, c, items) && InOrder(items)
  {
    var permissions := PermissionItems(d, c);
    var roles := RoleItems(d, c);
    var policies := PolicyItems(d, c);
    items := permissions + roles + policies;
    if UniqueKeys(d, c) {
      JoinOnce(permissions, roles);
      JoinOnce(permissions + roles, policies);
      JoinInOrder(permissions, roles);
      JoinInOrder(permissions + roles, policies);
    }
  }
}
