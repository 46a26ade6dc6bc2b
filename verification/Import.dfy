/** Executes a plan phase by phase, in an order that respects the foreign keys. */
module Import {

  import opened Graph
  import opened Sorting
  import opened Tables
  import opened Iac
  import opened DataRows
  import opened Snapshot
  import opened ImportTarget

  datatype ImportError = StoreFailed(store: StoreError) | Gone(id: string) | DuplicateKey | Invalid | Conflicts

  ghost function PlannedIds(items: seq<Item>, entity: Entity, kinds: set<Kind>): set<string> {
    set it | it in items && it.entity == entity && it.kind in kinds :: it.id
  }

  const WRITES: set<Kind> := {Create, Adopt, Update}

  /** What the next item adds to the planned identities, each of which occurs once. */
  lemma PlannedNext(plan: seq<Item>, i: nat, entity: Entity, kinds: set<Kind>)
    requires OncePerIdentity(plan) && i < |plan|
    ensures plan[i].entity == entity && plan[i].kind in kinds ==>
      plan[i].id !in PlannedIds(plan[..i], entity, kinds)
      && PlannedIds(plan[..i + 1], entity, kinds) == PlannedIds(plan[..i], entity, kinds) + {plan[i].id}
    ensures !(plan[i].entity == entity && plan[i].kind in kinds) ==>
      PlannedIds(plan[..i + 1], entity, kinds) == PlannedIds(plan[..i], entity, kinds)
  {
    assert plan[..i + 1] == plan[..i] + [plan[i]];
    forall it | it in plan[..i] && it.entity == plan[i].entity
      ensures it.id != plan[i].id
    {
      var k :| 0 <= k < i && plan[k] == it;
    }
  }

  // ---------------------------------------------------------------- phase A: deletes

  /** Deletes rows one by one and records a removal for each. */
  method DeleteRows(tx: Tx, ids: seq<nat>, changes: seq<DataPolicyChange>, ghost before: map<nat, DataPolicy>)
      returns (r: Result<seq<DataPolicyChange>, ImportError>)
    requires Accounts(before, changes, tx.t)
    requires forall i, k :: 0 <= i < k < |ids| ==> ids[i] != ids[k]
    modifies tx
    ensures r.Success? <==> forall i :: i in ids ==> i in old(tx.t).data
    ensures r.Success? ==> tx.t == old(tx.t).(data := old(tx.t).data - IdSet(ids))
    ensures r.Success? ==> Accounts(before, r.value, tx.t)
  {
    var cs := changes;
    for i := 0 to |ids|
      invariant tx.t == old(tx.t).(data := old(tx.t).data - IdSet(ids[..i]))
      invariant forall k :: k in ids[..i] ==> k in old(tx.t).data
      invariant Accounts(before, cs, tx.t)
    {
      assert ids[..i + 1] == ids[..i] + [ids[i]];
      assert ids[i] !in ids[..i];
      var deleted := DeleteDataPolicy(tx.t, ids[i]);
      if deleted.Failure? {
        assert ids[i] in ids;
        return Failure(StoreFailed(deleted.error));
      }
      AccountsRemoval(before, cs, tx.t, ids[i]);
      tx.t := deleted.value;
      cs := cs + [Removal(ids[i])];
      assert old(tx.t).data - IdSet(ids[..i + 1]) == (old(tx.t).data - IdSet(ids[..i])) - {ids[i]};
    }
    assert ids[..|ids|] == ids;
    return Success(cs);
  }

  ghost function AfterRoleDeletes(j: Job, keys: set<string>): Tables {
    var codes := CodesOf(j, keys);
    j.t.(roles := j.t.roles - codes,
         grants := GrantsOutside(j.t.grants, codes),
         inherits := EdgesOutside(j.t.inherits, codes),
         bindings := (set b | b in j.t.bindings && b.role !in codes),
         data := j.t.data - ScopeIds(j.t.data, codes))
  }

  lemma CodesGrow(j: Job, keys: set<string>, key: string)
    ensures CodesOf(j, keys + {key}) == CodesOf(j, keys) + {TargetCode(j.m, key)}
  {
  }

  lemma ScopeIdsSelected(t: Tables, code: string)
    requires WellFormed(t)
    ensures IdSet(SelectIds(t.data, t.nextId, RoleScope(code))) == ScopeIds(t.data, {code})
  {
  }

  lemma ScopeIdsGrow(data: map<nat, DataRow>, codes: set<string>, code: string)
    requires code !in codes
    ensures ScopeIds(data, codes + {code}) == ScopeIds(data, codes) + ScopeIds(data, {code})
    ensures ScopeIds(data, codes) !! ScopeIds(data, {code})
    ensures data - ScopeIds(data, codes + {code}) == (data - ScopeIds(data, codes)) - ScopeIds(data, {code})
  {
  }

  lemma RoleDeleteStep(j: Job, keys: set<string>, key: string, t: Tables)
    requires IsRoleIndex(j.t, j.m) && key in j.m && key !in keys
    requires t == AfterRoleDeletes(j, keys).(data := AfterRoleDeletes(j, keys).data - ScopeIds(j.t.data, {j.m[key]}))
    ensures DeleteRole(t, j.m[key]) == AfterRoleDeletes(j, keys + {key})
  {
    CodesGrow(j, keys, key);
    var code := j.m[key];
    var codes := CodesOf(j, keys);
    if code in codes {
      var k :| k in keys && TargetCode(j.m, k) == code;
      CodesDiffer(j, k, key);
    }
    ScopeIdsGrow(j.t.data, codes, code);
    var a, b := DeleteRole(t, code), AfterRoleDeletes(j, keys + {key});
    assert a.roles == b.roles;
    assert a.grants == b.grants;
    assert a.inherits == b.inherits;
    assert a.bindings == b.bindings;
  }

  lemma AfterNoDeletes(j: Job)
    ensures AfterRoleDeletes(j, {}) == j.t
  {
    assert CodesOf(j, {}) == {};
    assert GrantsOutside(j.t.grants, {}) == j.t.grants;
    assert ScopeIds(j.t.data, {}) == {};
  }

  method DeletePlannedRole(tx: Tx, key: string, ids: seq<nat>, cs: seq<DataPolicyChange>, m: map<string, string>, ghost j: Job, ghost done: set<string>)
      returns (r: Result<seq<DataPolicyChange>, ImportError>)
    requires m == j.m && WellFormed(j.t) && IsRoleIndex(j.t, j.m) && key in m && key !in done
    requires ids == SelectIds(j.t.data, j.t.nextId, RoleScope(j.m[key]))
    requires tx.t == AfterRoleDeletes(j, done) && Accounts(View(j.t.data), cs, tx.t)
    modifies tx
    ensures r.Success? && tx.t == AfterRoleDeletes(j, done + {key}) && Accounts(View(j.t.data), r.value, tx.t)
  {
    ScopeIdsSelected(j.t, j.m[key]);
    NotYetDeleted(j, done, key);
    var deleted := DeleteRows(tx, ids, cs, View(j.t.data));
    if deleted.Failure? {
      return deleted;
    }
    RoleDeleteStep(j, done, key, tx.t);
    tx.t := DeleteRole(tx.t, m[key]);
    return deleted;
  }

  /** A1: deletes the planned roles together with their data scopes. */
  method DeletePlannedRoles(tx: Tx, plan: seq<Item>, m: map<string, string>, scopes: map<string, seq<nat>>, ghost j: Job)
      returns (r: Result<seq<DataPolicyChange>, ImportError>)
    requires WellFormed(j.t) && IsRoleIndex(j.t, j.m) && OncePerIdentity(plan) && tx.t == j.t && m == j.m
    requires PlannedIds(plan, RoleEntity, {Delete}) <= m.Keys
    requires forall code :: IdsOf(scopes, code) == SelectIds(j.t.data, j.t.nextId, RoleScope(code))
    modifies tx
    ensures r.Success? && tx.t == AfterRoleDeletes(j, PlannedIds(plan, RoleEntity, {Delete}))
    ensures Accounts(View(j.t.data), r.value, tx.t)
  {
    var cs := [];
    ghost var done: set<string> := {};
    AfterNoDeletes(j);
    for i := 0 to |plan|
      invariant done == PlannedIds(plan[..i], RoleEntity, {Delete})
      invariant tx.t == AfterRoleDeletes(j, done) && Accounts(View(j.t.data), cs, tx.t)
    {
      PlannedNext(plan, i, RoleEntity, {Delete});
      var it := plan[i];
      if it.entity == RoleEntity && it.kind == Delete {
        assert it in plan;
        if it.id !in m {
          return Failure(Gone(it.id));
        }
        var deleted := DeletePlannedRole(tx, it.id, IdsOf(scopes, m[it.id]), cs, m, j, done);
        if deleted.Failure? {
          return deleted;
        }
        cs := deleted.value;
        done := done + {it.id};
      }
    }
    assert plan[..|plan|] == plan;
    return Success(cs);
  }

  lemma NotYetDeleted(j: Job, keys: set<string>, key: string)
    requires IsRoleIndex(j.t, j.m) && key in j.m && key !in keys
    ensures forall id :: id in ScopeIds(j.t.data, {j.m[key]}) ==> id in j.t.data - ScopeIds(j.t.data, CodesOf(j, keys))
  {
    if j.m[key] in CodesOf(j, keys) {
      var k :| k in keys && TargetCode(j.m, k) == j.m[key];
      CodesDiffer(j, k, key);
    }
  }

  /** `tops` sends every top-level identity to a stored row that has it. */
  ghost predicate IsTopIndex(t: Tables, tops: map<string, nat>) {
    && (forall id | id in t.data && t.data[id].subjectType != ROLE :: RowIdentity(t.data[id]) in tops)
    && (forall ident | ident in tops :: HitAt(t.data, TopIdentity(ident), tops[ident]))
  }

  /** The first row of every top-level identity. */
  method IndexTop(t: Tables, top: seq<nat>) returns (tops: map<string, nat>)
    requires WellFormed(t) && top == SelectIds(t.data, t.nextId, TopLevel)
    ensures IsTopIndex(t, tops)
  {
    tops := map[];
    for i := 0 to |top|
      invariant forall k :: 0 <= k < i ==> top[k] in t.data && RowIdentity(t.data[top[k]]) in tops
      invariant forall ident | ident in tops :: HitAt(t.data, TopIdentity(ident), tops[ident])
    {
      assert top[i] in top;
      var ident := RowIdentity(t.data[top[i]]);
      if ident !in tops {
        tops := tops[ident := top[i]];
      }
    }
    forall id | id in t.data && t.data[id].subjectType != ROLE
      ensures RowIdentity(t.data[id]) in tops
    {
      assert HitAt(t.data, TopLevel, id);
      assert id in top;
    }
  }

  /** An identity with one stored row is that row's alone. */
  lemma OneTopRow(j: Job, tops: map<string, nat>, ident: string)
    requires WellFormed(j.t) && IsTopIndex(j.t, tops) && |StoredAt(j, ident)| == 1
    ensures ident in tops && TopIds(j.t.data, {ident}) == {tops[ident]}
    ensures StoredAt(j, ident) == [j.t.data[tops[ident]]]
  {
    var id := SelectSome(j.t.data, j.t.nextId, TopIdentity(ident));
    SelectHit(j.t.data, j.t.nextId, TopIdentity(ident), tops[ident]);
    forall i | i in TopIds(j.t.data, {ident})
      ensures i == tops[ident]
    {
      assert HitAt(j.t.data, TopIdentity(ident), i);
    }
  }

  lemma TopIdsGrow(data: map<nat, DataRow>, ids: set<string>, ident: string)
    requires ident !in ids
    ensures TopIds(data, ids + {ident}) == TopIds(data, ids) + TopIds(data, {ident})
    ensures TopIds(data, ids) !! TopIds(data, {ident})
  {
  }

  /** A2: deletes the planned top-level policies. */
  method DeletePlannedPolicies(tx: Tx, plan: seq<Item>, tops: map<string, nat>, changes: seq<DataPolicyChange>,
                               ghost j: Job, ghost base: Tables)
      returns (r: Result<seq<DataPolicyChange>, ImportError>)
    requires WellFormed(j.t) && IsTopIndex(j.t, tops) && OncePerIdentity(plan) && tx.t == base
    requires forall ident | ident in PlannedIds(plan, PolicyEntity, {Delete}) :: |StoredAt(j, ident)| == 1
    requires forall id | id in j.t.data && j.t.data[id].subjectType != ROLE :: id in base.data
    requires Accounts(View(j.t.data), changes, base)
    modifies tx
    ensures r.Success?
    ensures tx.t == base.(data := base.data - TopIds(j.t.data, PlannedIds(plan, PolicyEntity, {Delete})))
    ensures Accounts(View(j.t.data), r.value, tx.t)
  {
    hide Accounts, View, WellFormed;
    var cs := changes;
    ghost var done: set<string> := {};
    assert TopIds(j.t.data, {}) == {};
    for i := 0 to |plan|
      invariant done == PlannedIds(plan[..i], PolicyEntity, {Delete})
      invariant tx.t == base.(data := base.data - TopIds(j.t.data, done)) && Accounts(View(j.t.data), cs, tx.t)
    {
      PlannedNext(plan, i, PolicyEntity, {Delete});
      var it := plan[i];
      if it.entity == PolicyEntity && it.kind == Delete {
        assert it in plan;
        OneTopRow(j, tops, it.id);
        TopIdsGrow(j.t.data, done, it.id);
        if it.id !in tops {
          return Failure(Gone(it.id));
        }
        var id := tops[it.id];
        assert id in TopIds(j.t.data, {it.id});
        var deleted := DeleteDataPolicy(tx.t, id);
        if deleted.Failure? {
          return Failure(StoreFailed(NotFound));
        }
        AccountsRemoval(View(j.t.data), cs, tx.t, id);
        tx.t := deleted.value;
        cs := cs + [Removal(id)];
        assert base.data - TopIds(j.t.data, done + {it.id}) == (base.data - TopIds(j.t.data, done)) - {id};
        done := done + {it.id};
      }
    }
    assert plan[..|plan|] == plan;
    return Success(cs);
  }

  // ---------------------------------------------------------------- phase B1: permissions

  lemma PermissionRowsMore(j: Job, codes: set<string>, code: string)
    requires code in PermissionDocs(j)
    ensures PermissionRows(j, codes + {code}) == PermissionRows(j, codes)[code := PermissionRow(PermissionDocs(j)[code])]
  {
  }

  /** B1: every planned permission takes the declared fields and the iac source. */
  method WritePlannedPermissions(tx: Tx, plan: seq<Item>, docs: map<string, PermissionDoc>, ghost j: Job, ghost base: Tables)
    requires docs == PermissionDocs(j) && OncePerIdentity(plan) && tx.t == base
    requires PlannedIds(plan, PermissionEntity, WRITES) <= docs.Keys
    modifies tx
    ensures tx.t == base.(permissions := base.permissions + PermissionRows(j, PlannedIds(plan, PermissionEntity, WRITES)))
  {
    ghost var done: set<string> := {};
    assert base.permissions + PermissionRows(j, {}) == base.permissions;
    for i := 0 to |plan|
      invariant done == PlannedIds(plan[..i], PermissionEntity, WRITES)
      invariant tx.t == base.(permissions := base.permissions + PermissionRows(j, done))
    {
      PlannedNext(plan, i, PermissionEntity, WRITES);
      var it := plan[i];
      if it.entity == PermissionEntity && it.kind in WRITES {
        assert it in plan;
        var p := docs[it.id];
        tx.t := UpsertPermissionWithSource(tx.t, p.code, PermissionRow(p), IAC);
        PermissionRowsMore(j, done, it.id);
        UpdateLast(base.permissions, PermissionRows(j, done), it.id, PermissionRow(p));
        done := done + {it.id};
      }
    }
    assert plan[..|plan|] == plan;
  }

  // ---------------------------------------------------------------- phase B2: roles

  ghost function GrantsFor(role: string, codes: seq<string>): map<Grant, string> {
    map g | g in GrantSet(role, codes) :: ALLOW
  }

  ghost function GrantSet(role: string, codes: seq<string>): set<Grant> {
    set p | p in codes :: Grant(role, p)
  }

  ghost function GrantsWithout(grants: map<Grant, string>, role: string, codes: seq<string>): map<Grant, string> {
    map g | g in grants && !(g.role == role && g.permission in codes) :: grants[g]
  }

  lemma GrantsWithoutMore(grants: map<Grant, string>, role: string, codes: seq<string>, p: string)
    ensures GrantsWithout(grants, role, codes + [p]) == GrantsWithout(grants, role, codes) - {Grant(role, p)}
  {
  }

  lemma UpdateLast<K, V>(a: map<K, V>, b: map<K, V>, k: K, v: V)
    ensures (a + b)[k := v] == a + b[k := v]
  {
  }

  lemma GrantsForMore(role: string, codes: seq<string>, p: string)
    ensures GrantsFor(role, codes + [p]) == GrantsFor(role, codes)[Grant(role, p) := ALLOW]
  {
  }

  method ClearRolePermissions(tx: Tx, role: string)
    modifies tx
    ensures tx.t == old(tx.t).(grants := GrantsOutside(old(tx.t).grants, {role}))
  {
    var current := RolePermissionCodes(tx.t, role);
    ghost var start := tx.t;
    assert GrantsWithout(start.grants, role, []) == start.grants;
    for i := 0 to |current|
      invariant tx.t == start.(grants := GrantsWithout(start.grants, role, current[..i]))
    {
      assert current[..i + 1] == current[..i] + [current[i]];
      GrantsWithoutMore(start.grants, role, current[..i], current[i]);
      tx.t := DeleteRolePermission(tx.t, role, current[i]);
    }
    assert current[..|current|] == current;
    assert tx.t.grants == GrantsOutside(start.grants, {role});
  }

  /**
   Takes every grant of the role away and grants the listed permissions with the allow effect.
   Fails exactly when a listed permission does not exist.
   */
  method ResetRolePermissions(tx: Tx, role: string, codes: seq<string>) returns (r: Result<(), ImportError>)
    requires role in tx.t.roles
    modifies tx
    ensures r.Success? <==> forall p :: p in codes ==> p in old(tx.t).permissions
    ensures r.Success? ==> tx.t == old(tx.t).(grants := GrantsOutside(old(tx.t).grants, {role}) + GrantsFor(role, codes))
  {
    ClearRolePermissions(tx, role);
    ghost var start := tx.t;
    assert start.grants + GrantsFor(role, []) == start.grants;
    for i := 0 to |codes|
      invariant tx.t == start.(grants := start.grants + GrantsFor(role, codes[..i]))
      invariant forall p :: p in codes[..i] ==> p in start.permissions
    {
      assert codes[..i + 1] == codes[..i] + [codes[i]];
      GrantsForMore(role, codes[..i], codes[i]);
      UpdateLast(start.grants, GrantsFor(role, codes[..i]), Grant(role, codes[i]), ALLOW);
      if codes[i] !in tx.t.permissions {
        assert codes[i] in codes;
        return Failure(Gone(codes[i]));
      }
      var granted := InsertRolePermission(tx.t, role, codes[i], ALLOW);
      if Grant(role, codes[i]) in tx.t.grants {
        AlreadyGranted(start.grants, role, codes[..i], codes[i]);
      }
      tx.t := granted.value;
    }
    assert codes[..|codes|] == codes;
    return Success(());
  }

  /** Granting again what the same list granted before changes nothing. */
  lemma AlreadyGranted(grants: map<Grant, string>, role: string, codes: seq<string>, p: string)
    requires Grant(role, p) in grants + GrantsFor(role, codes) && Grant(role, p) !in grants
    ensures (grants + GrantsFor(role, codes))[Grant(role, p) := ALLOW] == grants + GrantsFor(role, codes)
  {
  }

  /** Inserts a row whose effect is already normalised, and records the addition. */
  method InsertRow(tx: Tx, row: DataRow, changes: seq<DataPolicyChange>, ghost before: map<nat, DataPolicy>)
      returns (r: Result<seq<DataPolicyChange>, ImportError>)
    requires Accounts(before, changes, tx.t) && row.effect == NormEffect(row.effect)
    modifies tx
    ensures r.Success? <==> KnownEffect(row.effect)
    ensures r.Success? ==> tx.t == old(tx.t).(data := old(tx.t).data[old(tx.t).nextId := row], nextId := old(tx.t).nextId + 1)
    ensures r.Success? ==> Accounts(before, r.value, tx.t)
  {
    var inserted := UpsertDataPolicyWithSource(tx.t, 0, row);
    if inserted.Failure? {
      return Failure(StoreFailed(inserted.error));
    }
    var id := inserted.value.1;
    AccountsInsert(before, changes, tx.t, row);
    tx.t := inserted.value.0;
    return Success(changes + [DataPolicyChange(ChangeAdd, PolicyOf(id, row))]);
  }

  lemma ScopeRowsMore(code: string, scopes: seq<DataScope>, i: nat, version: nat, data: map<nat, DataRow>, n: nat)
    requires i < |scopes|
    ensures (data + Appended(n, ScopeRowsOf(code, scopes[..i], version)))[n + i := ScopeRow(code, scopes[i], version)]
         == data + Appended(n, ScopeRowsOf(code, scopes[..i + 1], version))
  {
    hide Appended, ScopeRow;
    var rows := ScopeRowsOf(code, scopes[..i], version);
    var row := ScopeRow(code, scopes[i], version);
    var old' := Appended(n, rows);
    calc {
      (data + old')[n + i := row];
      { UpdateLast(data, old', n + i, row); }
      data + old'[n + i := row];
      { AppendedMore(n, rows, row); }
      data + Appended(n, rows + [row]);
      { assert ScopeRowsOf(code, scopes[..i + 1], version) == rows + [row]; }
      data + Appended(n, ScopeRowsOf(code, scopes[..i + 1], version));
    }
  }

  /** The first `i` scopes of a role have been appended. */
  ghost predicate ScopesInserted(start: Tables, now: Tables, code: string, scopes: seq<DataScope>, i: nat, version: nat)
    requires i <= |scopes|
  {
    && now.data == start.data + Appended(start.nextId, ScopeRowsOf(code, scopes[..i], version))
    && now == start.(data := now.data, nextId := start.nextId + i)
  }

  lemma ScopesInsertedNext(start: Tables, now: Tables, code: string, scopes: seq<DataScope>, i: nat, version: nat)
    requires i < |scopes| && ScopesInserted(start, now, code, scopes, i, version)
    ensures ScopesInserted(start, now.(data := now.data[now.nextId := ScopeRow(code, scopes[i], version)], nextId := now.nextId + 1),
                           code, scopes, i + 1, version)
  {
    ScopeRowsMore(code, scopes, i, version, start.data, start.nextId);
    hide Appended, ScopeRowsOf, ScopeRow;
  }

  lemma NoScopesInserted(start: Tables, code: string, scopes: seq<DataScope>, version: nat)
    ensures ScopesInserted(start, start, code, scopes, 0, version)
  {
    assert start.data + Appended(start.nextId, []) == start.data;
  }

  /** Inserts the scopes of a role; fails exactly when a scope's effect is unknown. */
  method InsertScopes(tx: Tx, code: string, scopes: seq<DataScope>, version: nat, changes: seq<DataPolicyChange>,
                      ghost before: map<nat, DataPolicy>)
      returns (r: Result<seq<DataPolicyChange>, ImportError>)
    requires Accounts(before, changes, tx.t)
    modifies tx
    ensures r.Success? <==> forall s :: s in scopes ==> KnownEffect(NormEffect(s.effect))
    ensures r.Success? ==> tx.t == old(tx.t).(
      data := old(tx.t).data + Appended(old(tx.t).nextId, ScopeRowsOf(code, scopes, version)),
      nextId := old(tx.t).nextId + |scopes|)
    ensures r.Success? ==> Accounts(before, r.value, tx.t)
  {
    ghost var start := tx.t;
    var cs := changes;
    NoScopesInserted(start, code, scopes, version);
    hide Accounts, Appended, KnownEffect;
    for i := 0 to |scopes|
      invariant ScopesInserted(start, tx.t, code, scopes, i, version)
      invariant forall j :: 0 <= j < i ==> KnownEffect(NormEffect(scopes[j].effect))
      invariant Accounts(before, cs, tx.t)
    {
      ScopesInsertedNext(start, tx.t, code, scopes, i, version);
      hide ScopesInserted;
      var inserted := InsertRow(tx, ScopeRow(code, scopes[i], version), cs, before);
      if inserted.Failure? {
        assert scopes[i] in scopes;
        return inserted;
      }
      cs := inserted.value;
    }
    assert scopes[..|scopes|] == scopes;
    return Success(cs);
  }

  lemma AppendedMoreAt(n: nat, rows: seq<DataRow>, m: nat, row: DataRow)
    requires m == n + |rows|
    ensures Appended(n, rows + [row]) == Appended(n, rows)[m := row]
  {
    AppendedMore(n, rows, row);
  }

  lemma AppendedMore(n: nat, rows: seq<DataRow>, row: DataRow)
    ensures Appended(n, rows + [row]) == Appended(n, rows)[n + |rows| := row]
  {
    assert (rows + [row])[..|rows|] == rows;
  }

  /** Creates, adopts or keeps the role, then aligns its name and description. */
  method WriteRoleRow(tx: Tx, it: Item, doc: RoleDoc, m: map<string, string>) returns (r: Result<string, ImportError>)
    requires it.kind in WRITES
    requires it.kind == Create ==> it.id !in m && IAC_PREFIX + it.id !in tx.t.roles
    requires it.kind == Adopt ==> it.id in m && m[it.id] in tx.t.roles && tx.t.roles[m[it.id]].source == MANUAL
    requires it.kind == Update ==> it.id in m && m[it.id] in tx.t.roles && tx.t.roles[m[it.id]].source == IAC
    modifies tx
    ensures r == Success(TargetCode(m, it.id))
    ensures tx.t == old(tx.t).(roles := old(tx.t).roles[TargetCode(m, it.id) := RoleRow(doc)])
  {
    var code;
    if it.kind == Create {
      code := IAC_PREFIX + it.id;
      var inserted := InsertRole(tx.t, code, doc.name, IAC);
      if inserted.Failure? {
        return Failure(StoreFailed(UniqueViolation));
      }
      tx.t := inserted.value;
    } else {
      if it.id !in m {
        return Failure(Gone(it.id));
      }
      code := m[it.id];
      if it.kind == Adopt {
        tx.t := AdoptRoleSource(tx.t, code);
      }
    }
    tx.t := UpdateRoleMeta(tx.t, code, doc.name, doc.description);
    assert tx.t.roles == old(tx.t).roles[code := RoleRow(doc)];
    return Success(code);
  }

  ghost function DataAfterRoles(j: Job, base: Tables, keys: set<string>, rows: seq<DataRow>): map<nat, DataRow> {
    (base.data - ScopeIds(j.t.data, CodesOf(j, keys))) + Appended(base.nextId, rows)
  }

  ghost function GrantsAfterRoles(j: Job, base: Tables, keys: set<string>): map<Grant, string> {
    GrantsOutside(base.grants, CodesOf(j, keys)) + NewGrants(j, keys)
  }

  /** The tables once the roles with these keys are written, given the rows appended for their scopes. */
  ghost predicate RolesWritten(j: Job, base: Tables, keys: set<string>, rows: seq<DataRow>, t: Tables) {
    && t.permissions == base.permissions && t.inherits == base.inherits && t.bindings == base.bindings
    && t.roles == base.roles + RoleRows(j, keys)
    && t.grants == GrantsAfterRoles(j, base, keys)
    && t.data == DataAfterRoles(j, base, keys, rows)
    && t.nextId == base.nextId + |rows|
  }

  /** Everything the write of one planned role relies on. */
  ghost predicate RoleReady(j: Job, base: Tables, it: Item) {
    && it.id in RoleDocs(j) && IacRoleKey(TargetCode(j.m, it.id)) == it.id
    && (forall p :: p in RoleDocs(j)[it.id].codes ==> p in base.permissions)
    && (forall s :: s in RoleDocs(j)[it.id].scopes ==> KnownEffect(NormEffect(s.effect)))
    && (it.kind == Create ==> it.id !in j.m && TargetCode(j.m, it.id) !in base.roles)
    && (it.kind == Adopt ==> it.id in j.m && j.m[it.id] in base.roles && base.roles[j.m[it.id]].source == MANUAL)
    && (it.kind == Update ==> it.id in j.m && j.m[it.id] in base.roles && base.roles[j.m[it.id]].source == IAC)
    && (forall id :: id in ScopeIds(j.t.data, {TargetCode(j.m, it.id)}) ==> id in base.data)
  }

  lemma CodeIsNew(j: Job, keys: set<string>, key: string)
    requires IsRoleIndex(j.t, j.m) && key !in keys
    ensures TargetCode(j.m, key) !in CodesOf(j, keys)
  {
    if TargetCode(j.m, key) in CodesOf(j, keys) {
      var k :| k in keys && TargetCode(j.m, k) == TargetCode(j.m, key);
      CodesDiffer(j, k, key);
    }
  }

  lemma RoleRowsMore(j: Job, roles: map<string, Role>, keys: set<string>, key: string)
    requires key in RoleDocs(j) && IacRoleKey(TargetCode(j.m, key)) == key
    ensures (roles + RoleRows(j, keys))[TargetCode(j.m, key) := RoleRow(RoleDocs(j)[key])] == roles + RoleRows(j, keys + {key})
  {
    CodesGrow(j, keys, key);
    var code := TargetCode(j.m, key);
    assert RoleRows(j, keys + {key}) == RoleRows(j, keys)[code := RoleRow(RoleDocs(j)[key])];
    UpdateLast(roles, RoleRows(j, keys), code, RoleRow(RoleDocs(j)[key]));
  }

  lemma DeclaredGrantsMore(j: Job, keys: set<string>, key: string)
    requires key in RoleDocs(j)
    ensures DeclaredGrants(j, keys + {key}) == DeclaredGrants(j, keys) + GrantSet(TargetCode(j.m, key), RoleDocs(j)[key].codes)
    ensures forall g :: g in DeclaredGrants(j, keys) ==> g.role in CodesOf(j, keys)
  {
    var more := DeclaredGrants(j, keys + {key});
    forall g | g in DeclaredGrants(j, keys) + GrantSet(TargetCode(j.m, key), RoleDocs(j)[key].codes)
      ensures g in more
    {
      if g in DeclaredGrants(j, keys) {
        var k, p :| k in keys && k in RoleDocs(j) && p in RoleDocs(j)[k].codes && g == Grant(TargetCode(j.m, k), p);
        assert k in keys + {key};
      } else {
        var p :| p in RoleDocs(j)[key].codes && g == Grant(TargetCode(j.m, key), p);
        assert key in keys + {key};
      }
    }
  }

  lemma GrantsAlgebra(grants: map<Grant, string>, codes: set<string>, code: string, x: map<Grant, string>, y: map<Grant, string>)
    requires code !in codes
    requires forall g :: g in x ==> g.role in codes
    requires forall g :: g in y ==> g.role == code
    ensures GrantsOutside(GrantsOutside(grants, codes) + x, {code}) + y == GrantsOutside(grants, codes + {code}) + (x + y)
  {
    assert GrantsOutside(GrantsOutside(grants, codes) + x, {code}) == GrantsOutside(grants, codes + {code}) + x;
  }

  lemma NewGrantsMore(j: Job, keys: set<string>, key: string)
    requires key in RoleDocs(j)
    ensures NewGrants(j, keys + {key}) == NewGrants(j, keys) + GrantsFor(TargetCode(j.m, key), RoleDocs(j)[key].codes)
    ensures forall g :: g in NewGrants(j, keys) ==> g.role in CodesOf(j, keys)
  {
    hide RoleDocs, TargetCode, CodesOf, DeclaredGrants;
    DeclaredGrantsMore(j, keys, key);
    AllowsJoin(DeclaredGrants(j, keys), GrantSet(TargetCode(j.m, key), RoleDocs(j)[key].codes), DeclaredGrants(j, keys + {key}));
  }

  lemma AllowsJoin(a: set<Grant>, b: set<Grant>, c: set<Grant>)
    requires c == a + b
    ensures (map g | g in c :: ALLOW) == (map g | g in a :: ALLOW) + (map g | g in b :: ALLOW)
  {
  }

  lemma GrantsMore(j: Job, base: Tables, keys: set<string>, key: string)
    requires key in RoleDocs(j) && TargetCode(j.m, key) !in CodesOf(j, keys)
    ensures GrantsOutside(GrantsAfterRoles(j, base, keys), {TargetCode(j.m, key)}) + GrantsFor(TargetCode(j.m, key), RoleDocs(j)[key].codes)
         == GrantsAfterRoles(j, base, keys + {key})
  {
    var code := TargetCode(j.m, key);
    var x, y := NewGrants(j, keys), GrantsFor(code, RoleDocs(j)[key].codes);
    calc {
      GrantsOutside(GrantsAfterRoles(j, base, keys), {code}) + y;
      { NewGrantsMore(j, keys, key); GrantsAlgebra(base.grants, CodesOf(j, keys), code, x, y); }
      GrantsOutside(base.grants, CodesOf(j, keys) + {code}) + (x + y);
      { CodesGrow(j, keys, key); NewGrantsMore(j, keys, key); }
      GrantsAfterRoles(j, base, keys + {key});
    }
  }

  lemma AppendedJoin(n: nat, a: seq<DataRow>, m: nat, b: seq<DataRow>)
    requires m == n + |a|
    ensures Appended(n, a + b) == Appended(n, a) + Appended(m, b)
  {
    var all, parts := Appended(n, a + b), Appended(n, a) + Appended(m, b);
    assert all.Keys == parts.Keys;
    forall id | id in all
      ensures all[id] == parts[id]
    {
      if id < m {
        assert all[id] == a[id - n];
      } else {
        assert all[id] == b[id - m];
      }
    }
  }

  lemma MapAlgebra<K, V>(a: map<K, V>, gone: set<K>, x: map<K, V>, y: map<K, V>)
    requires x.Keys !! gone
    ensures ((a + x) - gone) + y == (a - gone) + (x + y)
  {
  }

  lemma DataMore(j: Job, base: Tables, keys: set<string>, key: string, rows: seq<DataRow>, n: nat, more: seq<DataRow>)
    requires forall id :: id in j.t.data ==> id < base.nextId
    requires n == base.nextId + |rows|
    ensures (DataAfterRoles(j, base, keys, rows) - ScopeIds(j.t.data, {TargetCode(j.m, key)})) + Appended(n, more)
         == DataAfterRoles(j, base, keys + {key}, rows + more)
  {
    var gone := ScopeIds(j.t.data, {TargetCode(j.m, key)});
    GoneIsOld(j.t.data, base.nextId, {TargetCode(j.m, key)}, rows);
    AppendedJoin(base.nextId, rows, n, more);
    KeptAfter(j, base.data, keys, key);
    MapAlgebra(base.data - ScopeIds(j.t.data, CodesOf(j, keys)), gone, Appended(base.nextId, rows), Appended(n, more));
  }

  lemma GoneIsOld(data: map<nat, DataRow>, n: nat, codes: set<string>, rows: seq<DataRow>)
    requires forall id :: id in data ==> id < n
    ensures Appended(n, rows).Keys !! ScopeIds(data, codes)
  {
  }

  lemma KeptAfter(j: Job, data: map<nat, DataRow>, keys: set<string>, key: string)
    ensures (data - ScopeIds(j.t.data, CodesOf(j, keys))) - ScopeIds(j.t.data, {TargetCode(j.m, key)})
         == data - ScopeIds(j.t.data, CodesOf(j, keys + {key}))
  {
    CodesGrow(j, keys, key);
    assert ScopeIds(j.t.data, CodesOf(j, keys + {key})) == ScopeIds(j.t.data, CodesOf(j, keys)) + ScopeIds(j.t.data, {TargetCode(j.m, key)});
  }

  lemma ScopeRowsForMore(j: Job, keys: set<string>, key: string, rows: seq<DataRow>)
    requires ScopeRowsFor(j, keys, rows) && key in RoleDocs(j) && TargetCode(j.m, key) !in CodesOf(j, keys)
    ensures ScopeRowsFor(j, keys + {key}, rows + ScopeRowsOf(TargetCode(j.m, key), RoleDocs(j)[key].scopes, j.version))
  {
    CodesGrow(j, keys, key);
    var code := TargetCode(j.m, key);
    var more := ScopeRowsOf(code, RoleDocs(j)[key].scopes, j.version);
    forall k | k in keys + {key} && k in RoleDocs(j)
      ensures Filter(rows + more, RoleScope(TargetCode(j.m, k))) == ScopeRowsOf(TargetCode(j.m, k), RoleDocs(j)[k].scopes, j.version)
    {
      FilterJoin(rows, more, RoleScope(TargetCode(j.m, k)));
      hide RoleDocs, ScopeRowsOf;
      if k in keys {
        assert TargetCode(j.m, k) in CodesOf(j, keys);
        FilterAll(more, RoleScope(TargetCode(j.m, k)));
      } else {
        FilterAll(rows, RoleScope(code));
        FilterAll(more, RoleScope(code));
      }
    }
  }

  /** Replaces the rows with these ids by rows for the scopes. */
  method ReplaceScopes(tx: Tx, code: string, ids: seq<nat>, scopes: seq<DataScope>, version: nat,
                       changes: seq<DataPolicyChange>, ghost before: map<nat, DataPolicy>)
      returns (r: Result<seq<DataPolicyChange>, ImportError>)
    requires Accounts(before, changes, tx.t)
    requires forall i, k :: 0 <= i < k < |ids| ==> ids[i] < ids[k]
    modifies tx
    ensures r.Success? <==> (forall i :: i in ids ==> i in old(tx.t).data) && forall s :: s in scopes ==> KnownEffect(NormEffect(s.effect))
    ensures r.Success? ==> tx.t == old(tx.t).(
      data := (old(tx.t).data - IdSet(ids)) + Appended(old(tx.t).nextId, ScopeRowsOf(code, scopes, version)),
      nextId := old(tx.t).nextId + |scopes|)
    ensures r.Success? ==> Accounts(before, r.value, tx.t)
  {
    var deleted := DeleteRows(tx, ids, changes, before);
    if deleted.Failure? {
      return deleted;
    }
    r := InsertScopes(tx, code, scopes, version, deleted.value, before);
  }

  /** Writes one planned role: row, grants, and data scopes. */
  method WritePlannedRole(tx: Tx, it: Item, doc: RoleDoc, m: map<string, string>, ids: seq<nat>,
                          version: nat, changes: seq<DataPolicyChange>, ghost j: Job, ghost base: Tables,
                          ghost done: set<string>, ghost rows: seq<DataRow>)
      returns (r: Result<seq<DataPolicyChange>, ImportError>)
    requires it.kind in WRITES && m == j.m && version == j.version && RoleReady(j, base, it) && doc == RoleDocs(j)[it.id]
    requires TargetCode(m, it.id) !in CodesOf(j, done)
    requires forall i, k :: 0 <= i < k < |ids| ==> ids[i] < ids[k]
    requires IdSet(ids) == ScopeIds(j.t.data, {TargetCode(m, it.id)}) && forall id :: id in j.t.data ==> id < base.nextId
    requires RolesWritten(j, base, done, rows, tx.t) && Accounts(View(j.t.data), changes, tx.t)
    modifies tx
    ensures r.Success?
    ensures RolesWritten(j, base, done + {it.id}, rows + ScopeRowsOf(TargetCode(m, it.id), doc.scopes, version), tx.t)
    ensures Accounts(View(j.t.data), r.value, tx.t)
  {
    ghost var start := tx.t;
    RowUntouched(j, base, done, TargetCode(m, it.id));
    var written := WriteRoleRow(tx, it, doc, m);
    if written.Failure? {
      return Failure(Gone(it.id));
    }
    var code := written.value;
    var reset := ResetRolePermissions(tx, code, doc.codes);
    if reset.Failure? {
      return Failure(Gone(it.id));
    }
    StillThere(j, base, done, it, rows);
    assert forall id :: id in ids ==> id in IdSet(ids);
    r := ReplaceScopes(tx, code, ids, doc.scopes, version, changes, View(j.t.data));
    RoleWriteStep(j, base, done, rows, it.id, start, tx.t);
  }

  /** One role's statements take the tables from `a`, with the roles `done` written, to `b`, with one more. */
  lemma RoleWriteStep(j: Job, base: Tables, done: set<string>, rows: seq<DataRow>, key: string, a: Tables, b: Tables)
    requires key in RoleDocs(j) && IacRoleKey(TargetCode(j.m, key)) == key && TargetCode(j.m, key) !in CodesOf(j, done)
    requires forall id :: id in j.t.data ==> id < base.nextId
    requires RolesWritten(j, base, done, rows, a)
    requires b.roles == a.roles[TargetCode(j.m, key) := RoleRow(RoleDocs(j)[key])]
    requires b.grants == GrantsOutside(a.grants, {TargetCode(j.m, key)}) + GrantsFor(TargetCode(j.m, key), RoleDocs(j)[key].codes)
    requires b.data == (a.data - ScopeIds(j.t.data, {TargetCode(j.m, key)}))
      + Appended(a.nextId, ScopeRowsOf(TargetCode(j.m, key), RoleDocs(j)[key].scopes, j.version))
    requires b.nextId == a.nextId + |RoleDocs(j)[key].scopes|
    requires b.permissions == a.permissions && b.inherits == a.inherits && b.bindings == a.bindings
    ensures RolesWritten(j, base, done + {key}, rows + ScopeRowsOf(TargetCode(j.m, key), RoleDocs(j)[key].scopes, j.version), b)
  {
    RoleRowsMore(j, base.roles, done, key);
    GrantsMore(j, base, done, key);
    DataMore(j, base, done, key, rows, a.nextId, ScopeRowsOf(TargetCode(j.m, key), RoleDocs(j)[key].scopes, j.version));
  }

  lemma RowUntouched(j: Job, base: Tables, done: set<string>, code: string)
    requires code !in CodesOf(j, done)
    ensures code in base.roles + RoleRows(j, done) <==> code in base.roles
    ensures code in base.roles ==> (base.roles + RoleRows(j, done))[code] == base.roles[code]
  {
  }

  lemma StillThere(j: Job, base: Tables, done: set<string>, it: Item, rows: seq<DataRow>)
    requires RoleReady(j, base, it) && TargetCode(j.m, it.id) !in CodesOf(j, done)
    ensures forall id :: id in ScopeIds(j.t.data, {TargetCode(j.m, it.id)}) ==> id in DataAfterRoles(j, base, done, rows)
  {
  }

  /** B2: writes every planned role in plan order. */
  method WritePlannedRoles(tx: Tx, plan: seq<Item>, docs: map<string, RoleDoc>, m: map<string, string>, scopes: map<string, seq<nat>>,
                           version: nat, changes: seq<DataPolicyChange>, ghost j: Job, ghost base: Tables)
      returns (r: Result<seq<DataPolicyChange>, ImportError>, ghost rows: seq<DataRow>)
    requires docs == RoleDocs(j) && m == j.m && version == j.version && OncePerIdentity(plan) && tx.t == base
    requires WellFormed(j.t) && IsRoleIndex(j.t, j.m) && base.nextId == j.t.nextId
    requires forall it | it in plan && it.entity == RoleEntity && it.kind in WRITES :: RoleReady(j, base, it)
    requires forall code :: IdsOf(scopes, code) == SelectIds(j.t.data, j.t.nextId, RoleScope(code))
    requires Accounts(View(j.t.data), changes, base)
    modifies tx
    ensures r.Success? && Accounts(View(j.t.data), r.value, tx.t)
    ensures RolesWritten(j, base, PlannedIds(plan, RoleEntity, WRITES), rows, tx.t)
    ensures ScopeRowsFor(j, PlannedIds(plan, RoleEntity, WRITES), rows)
  {
    var cs := changes;
    rows := [];
    ghost var done: set<string> := {};
    NoRolesWritten(j, base);
    for i := 0 to |plan|
      invariant done == PlannedIds(plan[..i], RoleEntity, WRITES)
      invariant RolesWritten(j, base, done, rows, tx.t) && ScopeRowsFor(j, done, rows)
      invariant Accounts(View(j.t.data), cs, tx.t)
    {
      PlannedNext(plan, i, RoleEntity, WRITES);
      var it := plan[i];
      if it.entity == RoleEntity && it.kind in WRITES {
        assert it in plan;
        CodeIsNew(j, done, it.id);
        var code := TargetCode(m, it.id);
        ScopeIdsSelected(j.t, code);
        var written := WritePlannedRole(tx, it, docs[it.id], m, IdsOf(scopes, code), version, cs, j, base, done, rows);
        if written.Failure? {
          return written, rows;
        }
        ScopeRowsForMore(j, done, it.id, rows);
        cs := written.value;
        rows := rows + ScopeRowsOf(code, docs[it.id].scopes, version);
        done := done + {it.id};
      }
    }
    assert plan[..|plan|] == plan;
    return Success(cs), rows;
  }

  lemma NoRolesWritten(j: Job, base: Tables)
    ensures RolesWritten(j, base, {}, [], base) && ScopeRowsFor(j, {}, [])
  {
    assert CodesOf(j, {}) == {};
    assert base.roles + RoleRows(j, {}) == base.roles;
    NoGrants(j, base);
    NoData(j, base);
  }

  lemma NoGrants(j: Job, base: Tables)
    requires CodesOf(j, {}) == {}
    ensures GrantsAfterRoles(j, base, {}) == base.grants
  {
    assert DeclaredGrants(j, {}) == {};
  }

  lemma NoData(j: Job, base: Tables)
    requires CodesOf(j, {}) == {}
    ensures DataAfterRoles(j, base, {}, []) == base.data
  {
    assert ScopeIds(j.t.data, {}) == {};
  }

  // ---------------------------------------------------------------- phase B3: top-level policies

  /** The tables once these identities are replaced and `rows` appended for created ones. */
  ghost predicate PoliciesWritten(j: Job, base: Tables, replaced: set<string>, rows: seq<DataRow>, t: Tables) {
    && t.permissions == base.permissions && t.roles == base.roles && t.grants == base.grants
    && t.inherits == base.inherits && t.bindings == base.bindings
    && t.data == (base.data + ReplacedRows(j, replaced)) + Appended(base.nextId, rows)
    && t.nextId == base.nextId + |rows|
  }

  /** Everything the write of one planned policy relies on. */
  ghost predicate PolicyReady(j: Job, base: Tables, tops: map<string, nat>, it: Item) {
    && it.id in PolicyDocs(j) && KnownEffect(NormEffect(PolicyDocs(j)[it.id].effect))
    && (it.kind != Create ==> it.id in tops && TopIds(j.t.data, {it.id}) == {tops[it.id]}
                              && 0 < tops[it.id] < base.nextId && tops[it.id] in base.data
                              && RowIdentity(base.data[tops[it.id]]) == it.id)
  }

  lemma ReplacedRowsMore(j: Job, ids: set<string>, id: string, top: nat)
    requires id in PolicyDocs(j) && TopIds(j.t.data, {id}) == {top}
    ensures ReplacedRows(j, ids + {id}) == ReplacedRows(j, ids)[top := PolicyRow(PolicyDocs(j)[id], j.version)]
  {
    assert top in TopIds(j.t.data, {id});
    assert TopIds(j.t.data, ids + {id}) == TopIds(j.t.data, ids) + {top};
  }

  lemma ReplaceUnderAppended(a: map<nat, DataRow>, x: map<nat, DataRow>, y: map<nat, DataRow>, id: nat, row: DataRow)
    requires id !in y
    ensures ((a + x) + y)[id := row] == (a + x[id := row]) + y
  {
  }

  /** Only data-policy rows differ. */
  ghost predicate OnlyDataDiffers(a: Tables, b: Tables) {
    && b.permissions == a.permissions && b.roles == a.roles && b.grants == a.grants
    && b.inherits == a.inherits && b.bindings == a.bindings
  }

  lemma PolicyCreateStep(j: Job, base: Tables, replaced: set<string>, rows: seq<DataRow>, a: Tables, b: Tables, row: DataRow)
    requires PoliciesWritten(j, base, replaced, rows, a) && OnlyDataDiffers(a, b)
    requires b.data == a.data[a.nextId := row] && b.nextId == a.nextId + 1
    ensures PoliciesWritten(j, base, replaced, rows + [row], b)
  {
    var n := a.nextId;
    AppendedMoreAt(base.nextId, rows, n, row);
    UpdateLast(base.data + ReplacedRows(j, replaced), Appended(base.nextId, rows), n, row);
  }

  lemma PolicyReplaceStep(j: Job, base: Tables, replaced: set<string>, rows: seq<DataRow>, a: Tables, b: Tables, id: string, top: nat)
    requires PoliciesWritten(j, base, replaced, rows, a) && OnlyDataDiffers(a, b)
    requires id in PolicyDocs(j) && TopIds(j.t.data, {id}) == {top} && top < base.nextId
    requires b.data == a.data[top := PolicyRow(PolicyDocs(j)[id], j.version)] && b.nextId == a.nextId
    ensures PoliciesWritten(j, base, replaced + {id}, rows, b)
  {
    ReplacedRowsMore(j, replaced, id, top);
    ReplaceUnderAppended(base.data, ReplacedRows(j, replaced), Appended(base.nextId, rows), top, PolicyRow(PolicyDocs(j)[id], j.version));
  }

  lemma PolicyRowsForMore(j: Job, ids: set<string>, id: string, rows: seq<DataRow>)
    requires PolicyRowsFor(j, ids, rows) && id in PolicyDocs(j) && id !in ids
    ensures PolicyRowsFor(j, ids + {id}, rows + [PolicyRow(PolicyDocs(j)[id], j.version)])
  {
    var row := PolicyRow(PolicyDocs(j)[id], j.version);
    var more := rows + [row];
    forall r | r in more
      ensures exists k :: k in ids + {id} && k in PolicyDocs(j) && r == PolicyRow(PolicyDocs(j)[k], j.version)
    {
      if r in rows {
        var k :| k in ids && k in PolicyDocs(j) && r == PolicyRow(PolicyDocs(j)[k], j.version);
        assert k in ids + {id};
      } else {
        assert id in ids + {id};
      }
    }
    forall k | k in ids + {id} && k in PolicyDocs(j) && PolicyDocs(j)[k].subjectType != ROLE
      ensures Filter(more, TopIdentity(k)) == [PolicyRow(PolicyDocs(j)[k], j.version)]
    {
      assert more[..|rows|] == rows;
      PolicyRowIdentity(j, id);
      if k == id {
        forall r | r in rows
          ensures !Hits(TopIdentity(k), r)
        {
          var k' :| k' in ids && k' in PolicyDocs(j) && r == PolicyRow(PolicyDocs(j)[k'], j.version);
          PolicyRowIdentity(j, k');
        }
        FilterAll(rows, TopIdentity(k));
      }
    }
  }

  lemma PolicyRowIdentity(j: Job, id: string)
    requires id in PolicyDocs(j)
    ensures RowIdentity(PolicyRow(PolicyDocs(j)[id], j.version)) == id
  {
  }

  /** Takes over a stored policy: a manual row becomes an iac row, then every column is replaced. */
  method ReplaceRow(tx: Tx, adopt: bool, id: nat, row: DataRow, changes: seq<DataPolicyChange>, ghost before: map<nat, DataPolicy>)
      returns (r: Result<seq<DataPolicyChange>, ImportError>)
    requires 0 < id && id in tx.t.data && RowIdentity(tx.t.data[id]) == RowIdentity(row) && row.effect == NormEffect(row.effect) && KnownEffect(row.effect)
    requires Accounts(before, changes, tx.t)
    modifies tx
    ensures r.Success? && OnlyDataDiffers(old(tx.t), tx.t) && tx.t.nextId == old(tx.t).nextId
    ensures tx.t.data == old(tx.t).data[id := row] && Accounts(before, r.value, tx.t)
  {
    hide Accounts;
    ghost var start := tx.t;
    if adopt {
      tx.t := AdoptDataPolicySource(tx.t, id);
    }
    var updated := UpsertDataPolicyWithSource(tx.t, id, row);
    if updated.Failure? {
      return Failure(StoreFailed(NotFound));
    }
    tx.t := updated.value.0;
    assert tx.t.data == start.data[id := row];
    AccountsReplace(before, changes, start, id, row);
    r := Success(changes + [DataPolicyChange(ChangeUpdate, PolicyOf(id, row))]);
  }

  /** The first `i` plan items have been carried out as far as top-level policies go. */
  ghost predicate PoliciesDone(j: Job, base: Tables, plan: seq<Item>, i: nat, rows: seq<DataRow>, t: Tables)
    requires i <= |plan|
  {
    && PoliciesWritten(j, base, PlannedIds(plan[..i], PolicyEntity, {Adopt, Update}), rows, t)
    && PolicyRowsFor(j, PlannedIds(plan[..i], PolicyEntity, {Create}), rows)
  }

  lemma CreateDone(j: Job, base: Tables, plan: seq<Item>, i: nat, rows: seq<DataRow>, t: Tables)
    requires OncePerIdentity(plan) && i < |plan| && plan[i].entity == PolicyEntity && plan[i].kind == Create
    requires PoliciesWritten(j, base, PlannedIds(plan[..i], PolicyEntity, {Adopt, Update}), rows, t)
    requires PolicyRowsFor(j, PlannedIds(plan[..i], PolicyEntity, {Create}) + {plan[i].id}, rows)
    ensures PoliciesDone(j, base, plan, i + 1, rows, t)
  {
    hide PoliciesWritten, PolicyRowsFor, OncePerIdentity, PlannedIds;
    PlannedNext(plan, i, PolicyEntity, {Adopt, Update});
    PlannedNext(plan, i, PolicyEntity, {Create});
  }

  lemma ReplaceDone(j: Job, base: Tables, plan: seq<Item>, i: nat, rows: seq<DataRow>, t: Tables)
    requires OncePerIdentity(plan) && i < |plan| && plan[i].entity == PolicyEntity && plan[i].kind in {Adopt, Update}
    requires PoliciesWritten(j, base, PlannedIds(plan[..i], PolicyEntity, {Adopt, Update}) + {plan[i].id}, rows, t)
    requires PolicyRowsFor(j, PlannedIds(plan[..i], PolicyEntity, {Create}), rows)
    ensures PoliciesDone(j, base, plan, i + 1, rows, t)
  {
    hide PoliciesWritten, PolicyRowsFor, OncePerIdentity, PlannedIds;
    PlannedNext(plan, i, PolicyEntity, {Adopt, Update});
    PlannedNext(plan, i, PolicyEntity, {Create});
  }

  lemma OtherDone(j: Job, base: Tables, plan: seq<Item>, i: nat, rows: seq<DataRow>, t: Tables)
    requires OncePerIdentity(plan) && i < |plan| && !(plan[i].entity == PolicyEntity && plan[i].kind in WRITES)
    requires PoliciesDone(j, base, plan, i, rows, t)
    ensures PoliciesDone(j, base, plan, i + 1, rows, t)
  {
    hide PoliciesWritten, PolicyRowsFor, OncePerIdentity, PlannedIds;
    PlannedNext(plan, i, PolicyEntity, {Adopt, Update});
    PlannedNext(plan, i, PolicyEntity, {Create});
  }

  /** Carries out a create item. */
  method CreatePolicy(tx: Tx, plan: seq<Item>, i: nat, row: DataRow, changes: seq<DataPolicyChange>,
                      ghost j: Job, ghost base: Tables, ghost rows: seq<DataRow>)
      returns (r: Result<seq<DataPolicyChange>, ImportError>)
    requires OncePerIdentity(plan) && i < |plan| && plan[i].entity == PolicyEntity && plan[i].kind == Create
    requires plan[i].id in PolicyDocs(j) && row == PolicyRow(PolicyDocs(j)[plan[i].id], j.version) && KnownEffect(row.effect)
    requires PoliciesDone(j, base, plan, i, rows, tx.t) && Accounts(View(j.t.data), changes, tx.t)
    modifies tx
    ensures r.Success? && PoliciesDone(j, base, plan, i + 1, rows + [row], tx.t) && Accounts(View(j.t.data), r.value, tx.t)
  {
    PlannedNext(plan, i, PolicyEntity, {Create});
    ghost var start := tx.t;
    r := InsertRow(tx, row, changes, View(j.t.data));
    PolicyCreateStep(j, base, PlannedIds(plan[..i], PolicyEntity, {Adopt, Update}), rows, start, tx.t, row);
    PolicyRowsForMore(j, PlannedIds(plan[..i], PolicyEntity, {Create}), plan[i].id, rows);
    CreateDone(j, base, plan, i, rows + [row], tx.t);
  }

  /** Carries out an adopt or update item. */
  method ReplacePolicy(tx: Tx, plan: seq<Item>, i: nat, row: DataRow, tops: map<string, nat>, changes: seq<DataPolicyChange>,
                       ghost j: Job, ghost base: Tables, ghost rows: seq<DataRow>)
      returns (r: Result<seq<DataPolicyChange>, ImportError>)
    requires OncePerIdentity(plan) && i < |plan| && plan[i].entity == PolicyEntity && plan[i].kind in {Adopt, Update}
    requires PolicyReady(j, base, tops, plan[i]) && row == PolicyRow(PolicyDocs(j)[plan[i].id], j.version)
    requires PoliciesDone(j, base, plan, i, rows, tx.t) && Accounts(View(j.t.data), changes, tx.t)
    modifies tx
    ensures r.Success? && PoliciesDone(j, base, plan, i + 1, rows, tx.t) && Accounts(View(j.t.data), r.value, tx.t)
  {
    ghost var start := tx.t;
    ghost var replaced := PlannedIds(plan[..i], PolicyEntity, {Adopt, Update});
    var it := plan[i];
    ReplacedTop(j, base, tops, it);
    PolicyRowIdentity(j, it.id);
    assert PoliciesWritten(j, base, replaced, rows, tx.t) && PolicyRowsFor(j, PlannedIds(plan[..i], PolicyEntity, {Create}), rows);
    hide Accounts, PoliciesDone, PoliciesWritten, PolicyRowsFor, PlannedIds, View, RowIdentity, TopIds, PolicyRow;
    if it.id !in tops {
      return Failure(Gone(it.id));
    }
    StillStored(j, base, replaced, rows, start, tops[it.id]);
    r := ReplaceRow(tx, it.kind == Adopt, tops[it.id], row, changes, View(j.t.data));
    PolicyReplaceStep(j, base, replaced, rows, start, tx.t, it.id, tops[it.id]);
    ReplaceDone(j, base, plan, i, rows, tx.t);
  }

  lemma StillStored(j: Job, base: Tables, replaced: set<string>, rows: seq<DataRow>, t: Tables, id: nat)
    requires PoliciesWritten(j, base, replaced, rows, t) && id in base.data && id < base.nextId
    requires id in j.t.data && RowIdentity(base.data[id]) == RowIdentity(j.t.data[id])
    ensures id in t.data && RowIdentity(t.data[id]) == RowIdentity(base.data[id])
  {
    var replacements := ReplacedRows(j, replaced);
    if id in replacements {
      PolicyRowIdentity(j, RowIdentity(j.t.data[id]));
    }
    hide ReplacedRows, PolicyDocs, RowIdentity;
  }

  /** The stored policy that an adopt or update item replaces. */
  lemma ReplacedTop(j: Job, base: Tables, tops: map<string, nat>, it: Item)
    requires PolicyReady(j, base, tops, it) && it.kind != Create
    ensures tops[it.id] in j.t.data && RowIdentity(j.t.data[tops[it.id]]) == it.id
  {
    assert tops[it.id] in TopIds(j.t.data, {it.id});
  }

  /** B3: writes every planned top-level policy in plan order. */
  method WritePlannedPolicies(tx: Tx, plan: seq<Item>, docs: map<string, PolicyDoc>, tops: map<string, nat>, version: nat,
                              changes: seq<DataPolicyChange>, ghost j: Job, ghost base: Tables)
      returns (r: Result<seq<DataPolicyChange>, ImportError>, ghost rows: seq<DataRow>)
    requires docs == PolicyDocs(j) && version == j.version && OncePerIdentity(plan) && tx.t == base
    requires forall it | it in plan && it.entity == PolicyEntity && it.kind in WRITES :: PolicyReady(j, base, tops, it)
    requires Accounts(View(j.t.data), changes, base)
    modifies tx
    ensures r.Success? && Accounts(View(j.t.data), r.value, tx.t)
    ensures PoliciesDone(j, base, plan, |plan|, rows, tx.t)
  {
    hide Accounts, View, PoliciesWritten, PolicyRowsFor, TopIds, RowIdentity;
    var cs := changes;
    rows := [];
    NoPoliciesWritten(j, base);
    assert PlannedIds(plan[..0], PolicyEntity, {Adopt, Update}) == {} == PlannedIds(plan[..0], PolicyEntity, {Create});
    for i := 0 to |plan|
      invariant PoliciesDone(j, base, plan, i, rows, tx.t) && Accounts(View(j.t.data), cs, tx.t)
    {
      var it := plan[i];
      if it.entity == PolicyEntity && it.kind in WRITES {
        assert it in plan;
        var row := PolicyRow(docs[it.id], version);
        var written;
        if it.kind == Create {
          written := CreatePolicy(tx, plan, i, row, cs, j, base, rows);
          rows := rows + [row];
        } else {
          written := ReplacePolicy(tx, plan, i, row, tops, cs, j, base, rows);
        }
        if written.Failure? {
          return written, rows;
        }
        cs := written.value;
      } else {
        OtherDone(j, base, plan, i, rows, tx.t);
      }
    }
    return Success(cs), rows;
  }

  lemma NoPoliciesWritten(j: Job, base: Tables)
    ensures PoliciesWritten(j, base, {}, [], base) && PolicyRowsFor(j, {}, [])
  {
    assert ReplacedRows(j, {}) == map[];
  }

  // ---------------------------------------------------------------- phase C: permission deletes

  ghost predicate Referenced(t: Tables, code: string) {
    exists g :: g in t.grants && g.permission == code
  }

  /** C: deletes the planned permissions; fails exactly when one of them is missing or still granted to a role. */
  method DeletePlannedPermissions(tx: Tx, plan: seq<Item>) returns (r: Result<(), ImportError>)
    requires OncePerIdentity(plan)
    modifies tx
    ensures r.Success? <==> forall code :: code in PlannedIds(plan, PermissionEntity, {Delete}) ==>
                              code in old(tx.t).permissions && !Referenced(old(tx.t), code)
    ensures r.Success? ==> tx.t == old(tx.t).(permissions := old(tx.t).permissions - PlannedIds(plan, PermissionEntity, {Delete}))
  {
    ghost var start := tx.t;
    ghost var done: set<string> := {};
    for i := 0 to |plan|
      invariant done == PlannedIds(plan[..i], PermissionEntity, {Delete})
      invariant tx.t == start.(permissions := start.permissions - done)
      invariant forall code :: code in done ==> code in start.permissions && !Referenced(start, code)
    {
      PlannedNext(plan, i, PermissionEntity, {Delete});
      var it := plan[i];
      if it.entity == PermissionEntity && it.kind == Delete {
        assert it in plan;
        assert it.id in PlannedIds(plan, PermissionEntity, {Delete});
        var deleted := DeletePermission(tx.t, it.id);
        if deleted.Failure? {
          return Failure(StoreFailed(deleted.error));
        }
        assert start.permissions - (done + {it.id}) == (start.permissions - done) - {it.id};
        tx.t := deleted.value;
        done := done + {it.id};
      }
    }
    assert plan[..|plan|] == plan;
    return Success(());
  }
}
