/** The source-aware snapshot of an application that plans are computed against, and its export. */
module Snapshot {

  import opened Sorting
  import opened Tables
  import opened Iac
  import opened DataRows

  const IAC_PREFIX := "iac:"

  /** The document key of a role code: the code without one leading "iac:". */
  function IacRoleKey(code: string): string {
    if IAC_PREFIX <= code then code[|IAC_PREFIX|..] else code
  }

  /** Roles whose key is empty or holds a colon are outside policy-as-code. */
  predicate Expressible(key: string) {
    key != "" && ':' !in key
  }

  lemma KeyOfCreatedCode(key: string)
    ensures IacRoleKey(IAC_PREFIX + key) == key
  {
  }

  ghost predicate KeysUnique(t: Tables) {
    forall a, b | a in t.roles && b in t.roles && Expressible(IacRoleKey(a)) && IacRoleKey(a) == IacRoleKey(b) :: a == b
  }

  function ScopesOfRows(rows: seq<DataRow>): (ss: seq<DataScope>)
    ensures |ss| == |rows|
  {
    seq(|rows|, i requires 0 <= i < |rows| => DataScope(rows[i].resource, rows[i].effect, rows[i].condition))
  }

  function CurrentPolicyOf(row: DataRow): CurrentPolicy {
    CurrentPolicy(row.subjectType, row.subjectId, row.resource, row.effect, row.condition, row.source)
  }

  function CurrentPolicies(rows: seq<DataRow>): (ps: seq<CurrentPolicy>)
    ensures |ps| == |rows| && forall i :: 0 <= i < |rows| ==> ps[i] == CurrentPolicyOf(rows[i])
  {
    seq(|rows|, i requires 0 <= i < |rows| => CurrentPolicyOf(rows[i]))
  }

  ghost predicate Bound(t: Tables, code: string) {
    exists b :: b in t.bindings && b.role == code
  }

  ghost predicate HasCodes(t: Tables, code: string, codes: seq<string>) {
    Distinct(codes) && forall p :: p in codes <==> Grant(code, p) in t.grants
  }

  /** `x` is what the snapshot says of the stored role `code`. */
  ghost predicate RoleMatches(t: Tables, code: string, x: CurrentRole)
    requires code in t.roles
  {
    && x.key == IacRoleKey(code)
    && x.name == t.roles[code].name && x.description == t.roles[code].description && x.source == t.roles[code].source
    && HasCodes(t, code, x.codes)
    && x.scopes == ScopesOfRows(Select(t.data, t.nextId, RoleScope(code)))
    && (x.bound <==> Bound(t, code))
  }

  ghost predicate ReadsSomeRole(t: Tables, x: CurrentRole) {
    exists code :: code in t.roles && Expressible(IacRoleKey(code)) && RoleMatches(t, code, x)
  }

  ghost predicate ReadBySome(t: Tables, xs: seq<CurrentRole>, code: string)
    requires code in t.roles
  {
    exists x :: x in xs && RoleMatches(t, code, x)
  }

  ghost predicate IsSnapshot(t: Tables, c: Current) {
    && Distinct(Keys(c.permissions, CurrentCode))
    && (forall x :: x in c.permissions <==> x.code in t.permissions && x.row == t.permissions[x.code])
    && Distinct(Keys(c.roles, CurrentKey))
    && (forall x | x in c.roles :: ReadsSomeRole(t, x))
    && (forall code | code in t.roles && Expressible(IacRoleKey(code)) :: ReadBySome(t, c.roles, code))
    && c.policies == CurrentPolicies(Select(t.data, t.nextId, TopLevel))
  }

  /** Permissions, and the permissions of every role, come in the order of their codes. */
  ghost predicate Ordered(c: Current) {
    Sorted(Keys(c.permissions, CurrentCode)) && forall x | x in c.roles :: Sorted(x.codes)
  }

  lemma SamePermissions(t: Tables, xs: seq<CurrentPermission>, ys: seq<CurrentPermission>)
    requires Distinct(Keys(xs, CurrentCode)) && Distinct(Keys(ys, CurrentCode)) && Sorted(Keys(xs, CurrentCode)) && Sorted(Keys(ys, CurrentCode))
    requires forall x :: x in xs <==> x.code in t.permissions && x.row == t.permissions[x.code]
    requires forall y :: y in ys <==> y.code in t.permissions && y.row == t.permissions[y.code]
    ensures xs == ys
  {
    var a, b := Keys(xs, CurrentCode), Keys(ys, CurrentCode);
    forall i | 0 <= i < |xs|
      ensures a[i] in b
    {
      assert xs[i] in xs;
      var j :| 0 <= j < |ys| && ys[j] == xs[i];
      assert b[j] == a[i];
    }
    forall i | 0 <= i < |ys|
      ensures b[i] in a
    {
      assert ys[i] in ys;
      var j :| 0 <= j < |xs| && xs[j] == ys[i];
      assert a[j] == b[i];
    }
    hide Sorted, Distinct;
    SortedDistinctUnique(a, b);
    forall i | 0 <= i < |xs|
      ensures xs[i] == ys[i]
    {
      assert a[i] == b[i] && xs[i] in xs && ys[i] in ys;
    }
  }

  lemma SameRoles(t: Tables, c: Current, c': Current, x: CurrentRole)
    requires IsSnapshot(t, c) && IsSnapshot(t, c') && Ordered(c) && Ordered(c') && x in c.roles
    ensures x in c'.roles
  {
    assert ReadsSomeRole(t, x);
    var code :| code in t.roles && Expressible(IacRoleKey(code)) && RoleMatches(t, code, x);
    assert ReadBySome(t, c'.roles, code);
    var y :| y in c'.roles && RoleMatches(t, code, y);
    hide IsSnapshot, Sorted, Distinct, Select;
    SortedDistinctUnique(x.codes, y.codes);
  }

  /** Two snapshots of the same tables agree, up to the order of their roles. */
  lemma SnapshotIsDetermined(t: Tables, c: Current, c': Current)
    requires IsSnapshot(t, c) && IsSnapshot(t, c') && Ordered(c) && Ordered(c')
    ensures c.permissions == c'.permissions && c.policies == c'.policies
    ensures forall x :: x in c.roles <==> x in c'.roles
  {
    SamePermissions(t, c.permissions, c'.permissions);
    forall x
      ensures x in c.roles <==> x in c'.roles
    {
      if x in c.roles {
        SameRoles(t, c, c', x);
      }
      if x in c'.roles {
        SameRoles(t, c', c, x);
      }
    }
  }

  // ---------------------------------------------------------------- reading the snapshot

  /** The elements of a set, sorted. */
  method EnumerateSorted(s: set<string>) returns (xs: seq<string>)
    ensures Distinct(xs) && Sorted(xs) && forall x :: x in xs <==> x in s
  {
    var unsorted := Enumerate(s);
    xs := SortedCopy(unsorted);
    SortedCopyElements(unsorted);
    SortedCopyDistinct(unsorted);
  }

  method ListPermissions(t: Tables) returns (xs: seq<CurrentPermission>)
    ensures Distinct(Keys(xs, CurrentCode))
    ensures forall x :: x in xs <==> x.code in t.permissions && x.row == t.permissions[x.code]
    ensures Sorted(Keys(xs, CurrentCode))
  {
    var codes := EnumerateSorted(t.permissions.Keys);
    xs := [];
    for i := 0 to |codes|
      invariant |xs| == i && forall j :: 0 <= j < i ==> codes[j] in t.permissions && xs[j] == CurrentPermission(codes[j], t.permissions[codes[j]])
    {
      assert codes[i] in codes;
      xs := xs + [CurrentPermission(codes[i], t.permissions[codes[i]])];
    }
    assert Keys(xs, CurrentCode) == codes;
    forall x: CurrentPermission | x.code in t.permissions && x.row == t.permissions[x.code]
      ensures x in xs
    {
      assert x.code in codes;
      var i :| 0 <= i < |codes| && codes[i] == x.code;
      assert xs[i] == x;
    }
  }

  /** The codes of the permissions granted to a role. */
  method RolePermissionCodes(t: Tables, code: string) returns (codes: seq<string>)
    ensures HasCodes(t, code, codes) && Sorted(codes)
  {
    var granted := set g | g in t.grants && g.role == code :: g.permission;
    codes := EnumerateSorted(granted);
    forall p
      ensures p in codes <==> Grant(code, p) in t.grants
    {
      if Grant(code, p) in t.grants {
        assert Grant(code, p).permission in granted;
      }
    }
  }

  function IdsOf(scopes: map<string, seq<nat>>, code: string): seq<nat> {
    if code in scopes then scopes[code] else []
  }

  /** Splits the data policies into role scopes by role code and the rest, in id order. */
  method SplitDataPolicies(t: Tables) returns (scopes: map<string, seq<nat>>, top: seq<nat>)
    ensures forall code :: IdsOf(scopes, code) == SelectIds(t.data, t.nextId, RoleScope(code))
    ensures top == SelectIds(t.data, t.nextId, TopLevel)
  {
    scopes, top := map[], [];
    for id := 0 to t.nextId
      invariant forall code :: IdsOf(scopes, code) == SelectIds(t.data, id, RoleScope(code))
      invariant top == SelectIds(t.data, id, TopLevel)
    {
      if id in t.data {
        var row := t.data[id];
        if row.subjectType == ROLE {
          scopes := scopes[row.subjectId := IdsOf(scopes, row.subjectId) + [id]];
        } else {
          top := top + [id];
        }
      }
    }
  }

  function RowsAt(data: map<nat, DataRow>, ids: seq<nat>): (rows: seq<DataRow>)
    requires forall i :: i in ids ==> i in data
    ensures |rows| == |ids| && forall k :: 0 <= k < |ids| ==> rows[k] == data[ids[k]]
  {
    seq(|ids|, k requires 0 <= k < |ids| => data[ids[k]])
  }

  lemma {:induction false} SelectedRows(data: map<nat, DataRow>, n: nat, sel: Selector)
    ensures RowsAt(data, SelectIds(data, n, sel)) == Select(data, n, sel)
  {
    if n > 0 {
      SelectedRows(data, n - 1, sel);
      var ids := SelectIds(data, n - 1, sel);
      if HitAt(data, sel, n - 1) {
        assert RowsAt(data, ids + [n - 1]) == RowsAt(data, ids) + [data[n - 1]];
      } else {
        assert SelectIds(data, n, sel) == ids;
      }
    }
  }

  /** `m` sends the key of every expressible role to its code. */
  ghost predicate IsRoleIndex(t: Tables, m: map<string, string>) {
    && (forall code | code in t.roles && Expressible(IacRoleKey(code)) :: IacRoleKey(code) in m && m[IacRoleKey(code)] == code)
    && (forall key | key in m :: m[key] in t.roles && IacRoleKey(m[key]) == key && Expressible(key))
  }

  /** Finds the role of every key; two roles with one key make the search fail. */
  method IndexRoles(t: Tables) returns (ok: bool, m: map<string, string>)
    ensures ok <==> KeysUnique(t)
    ensures ok ==> IsRoleIndex(t, m)
  {
    m := map[];
    var todo := t.roles.Keys;
    while todo != {}
      invariant todo <= t.roles.Keys
      invariant forall code | code in t.roles && code !in todo && Expressible(IacRoleKey(code)) ::
          IacRoleKey(code) in m && m[IacRoleKey(code)] == code
      invariant forall key | key in m :: m[key] in t.roles && m[key] !in todo && IacRoleKey(m[key]) == key && Expressible(key)
      decreases todo
    {
      var code :| code in todo;
      todo := todo - {code};
      var key := IacRoleKey(code);
      if Expressible(key) {
        if key in m {
          return false, m;
        }
        m := m[key := code];
      }
    }
    return true, m;
  }

  /** Reads the indexed roles. */
  method ListRoles(t: Tables, m: map<string, string>, scopes: map<string, seq<nat>>) returns (keys: seq<string>, xs: seq<CurrentRole>)
    requires IsRoleIndex(t, m)
    requires forall code :: IdsOf(scopes, code) == SelectIds(t.data, t.nextId, RoleScope(code))
    ensures Distinct(keys) && (forall k :: k in keys <==> k in m) && |keys| == |xs|
    ensures forall i :: 0 <= i < |xs| ==> RoleMatches(t, m[keys[i]], xs[i]) && Sorted(xs[i].codes)
  {
    hide RoleMatches, SelectIds, IdsOf, Sorted;
    keys := Enumerate(m.Keys);
    xs := [];
    for i := 0 to |keys|
      invariant |xs| == i
      invariant forall j :: 0 <= j < i ==> RoleMatches(t, m[keys[j]], xs[j]) && Sorted(xs[j].codes)
    {
      assert keys[i] in keys;
      var x := ReadRole(t, m[keys[i]], scopes);
      ghost var before := xs;
      xs := xs + [x];
      assert forall j :: 0 <= j < i ==> xs[j] == before[j];
    }
  }

  method ReadRole(t: Tables, code: string, scopes: map<string, seq<nat>>) returns (x: CurrentRole)
    requires code in t.roles
    requires forall c :: IdsOf(scopes, c) == SelectIds(t.data, t.nextId, RoleScope(c))
    ensures RoleMatches(t, code, x) && Sorted(x.codes)
  {
    var codes := RolePermissionCodes(t, code);
    SelectedRows(t.data, t.nextId, RoleScope(code));
    var bound := exists b :: b in t.bindings && b.role == code;
    x := CurrentRole(IacRoleKey(code), t.roles[code].name, t.roles[code].description, t.roles[code].source,
      codes, ScopesOfRows(RowsAt(t.data, IdsOf(scopes, code))), bound);
  }

  /** Fails exactly when two roles derive the same key. */
  method SnapshotCurrent(t: Tables) returns (ok: bool, c: Current)
    ensures ok <==> KeysUnique(t)
    ensures ok ==> IsSnapshot(t, c) && Ordered(c)
  {
    var permissions := ListPermissions(t);
    var scopes, top := SplitDataPolicies(t);
    var index;
    ok, index := IndexRoles(t);
    if !ok {
      return false, Current([], [], []);
    }
    var keys, roles := ListRoles(t, index, scopes);
    RolesListed(t, index, keys, roles);
    SelectedRows(t.data, t.nextId, TopLevel);
    c := Current(permissions, roles, CurrentPolicies(RowsAt(t.data, top)));
  }

  lemma RolesListed(t: Tables, m: map<string, string>, keys: seq<string>, xs: seq<CurrentRole>)
    requires IsRoleIndex(t, m)
    requires Distinct(keys) && (forall k :: k in keys <==> k in m) && |keys| == |xs|
    requires forall i :: 0 <= i < |xs| ==> RoleMatches(t, m[keys[i]], xs[i])
    ensures Distinct(Keys(xs, CurrentKey))
    ensures forall x | x in xs :: ReadsSomeRole(t, x)
    ensures forall code | code in t.roles && Expressible(IacRoleKey(code)) :: ReadBySome(t, xs, code)
  {
    assert Keys(xs, CurrentKey) == keys;
    forall x | x in xs
      ensures ReadsSomeRole(t, x)
    {
      var i :| 0 <= i < |xs| && xs[i] == x;
      assert keys[i] in keys;
      assert RoleMatches(t, m[keys[i]], x);
    }
    forall code | code in t.roles && Expressible(IacRoleKey(code))
      ensures ReadBySome(t, xs, code)
    {
      assert IacRoleKey(code) in keys;
      var i :| 0 <= i < |keys| && keys[i] == IacRoleKey(code);
      assert xs[i] in xs && RoleMatches(t, code, xs[i]);
    }
  }
}
