/** The write engine of one application: every write is one transaction that keeps rules, versions, audit and outbox in step. */
module PolicyManager {

  import opened Graph
  import opened Rules
  import opened Tables
  import Sql = Tables
  import opened Projection
  import opened Iac
  import opened DataRows
  import opened Snapshot
  import opened ImportTarget
  import opened Import
  import opened ImportPlan
  import opened ImportFrame
  import opened ImportOutcome
  import opened VersionedWrite
  import opened Enforcement
  import DataTable

  type Effect = Result<(Tables, seq<DataPolicyChange>), WriteError>

  /** A statement that leaves data policies alone. */
  function Plain(r: Result<Tables, StoreError>): Effect {
    match r
    case Success(t) => Success((t, []))
    case Failure(e) => Failure(Store(e))
  }

  // ---------------------------------------------------------------- what the statements keep

  lemma GrantKeepsSound(t: Tables, role: string, permission: string, effect: string)
    requires SoundTables(t)
    ensures var r := InsertRolePermission(t, role, permission, effect); r.Success? ==> SoundTables(r.value) && r.value.data == t.data
  {
  }

  lemma EdgesRemovedKeepSound(t: Tables, t': Tables)
    requires SoundTables(t) && WellFormed(t') && t'.inherits <= t.inherits
    ensures SoundTables(t')
  {
    AcyclicSubset(t.inherits, t'.inherits);
  }

  lemma DeleteRoleKeepsSound(t: Tables, code: string)
    requires SoundTables(t)
    ensures SoundTables(DeleteRole(t, code))
  {
    EdgesRemovedKeepSound(t, DeleteRole(t, code));
  }

  lemma DeleteEdgeKeepsSound(t: Tables, child: string, parent: string)
    requires SoundTables(t)
    ensures SoundTables(DeleteRoleInheritance(t, child, parent))
  {
    EdgesRemovedKeepSound(t, DeleteRoleInheritance(t, child, parent));
  }

  /** Walking up the inheritance of a reachable state ends after at most as many roles as there are. */
  lemma AncestorsBounded(t: Tables, path: seq<string>)
    requires SoundTables(t) && IsPath(t.inherits, path) && path[0] in t.roles
    ensures |path| <= |t.roles.Keys|
  {
    AcyclicPathBounded(t.inherits, t.roles.Keys, path);
  }

  // ---------------------------------------------------------------- effects of the composite writes

  function GrantMap(role: string, permissions: set<string>): map<Grant, string> {
    map g | g in AsGrants(role, permissions) :: ALLOW
  }

  function AsGrants(role: string, permissions: set<string>): set<Grant> {
    set p | p in permissions :: Grant(role, p)
  }

  ghost function Codes(permissions: seq<string>): set<string> {
    set p | p in permissions
  }

  /** A business role and all its grants, or nothing. */
  ghost function BusinessRole(t: Tables, code: string, name: string, permissions: seq<string>): Effect {
    if code in t.roles then Failure(Store(UniqueViolation))
    else if exists p :: p in permissions && p !in t.permissions then Failure(Store(ForeignKeyViolation))
    else Success((t.(roles := t.roles[code := Role(name, "", MANUAL)],
                     grants := t.grants + GrantMap(code, Codes(permissions))), []))
  }

  datatype Point = Point(code: string, row: Permission)

  function CodeOf(p: Point): string { p.code }

  /** A reported permission lands unless a manual or iac row holds its code; the last report of a code counts. */
  predicate Reportable(t: Tables, code: string) {
    code in t.permissions ==> t.permissions[code].source == AUTO
  }

  ghost function Reported(t: Tables, points: seq<Point>): Tables {
    t.(permissions := t.permissions + ReportedRows(t, points))
  }

  ghost function ReportedRows(t: Tables, points: seq<Point>): map<string, Permission> {
    LandedRows(t, Index(points, CodeOf))
  }

  ghost function LandedRows(t: Tables, last: map<string, Point>): map<string, Permission> {
    map code | code in last && Reportable(t, code) :: last[code].row.(source := AUTO)
  }

  /** How many points land. */
  function Landing(t: Tables, points: seq<Point>): nat {
    if points == [] then 0
    else Landing(t, points[..|points| - 1]) + if Reportable(t, points[|points| - 1].code) then 1 else 0
  }

  /** No manual or iac row holds the point's code, and no later point has it. */
  predicate LandsLast(t: Tables, points: seq<Point>, i: nat)
    requires i < |points|
  {
    && (points[i].code in t.permissions ==> t.permissions[points[i].code].source == "auto")
    && (forall j :: i < j < |points| ==> points[j].code != points[i].code)
  }

  lemma {:induction false} LastIsIndexed(points: seq<Point>, i: nat)
    requires i < |points| && forall j :: i < j < |points| ==> points[j].code != points[i].code
    ensures points[i].code in Index(points, CodeOf) && Index(points, CodeOf)[points[i].code] == points[i]
  {
    var n := |points| - 1;
    if i < n {
      assert forall j :: i < j < n ==> points[..n][j].code != points[..n][i].code;
      LastIsIndexed(points[..n], i);
      assert Index(points, CodeOf) == Index(points[..n], CodeOf)[points[n].code := points[n]];
    }
  }

  /** What the permission table holds after a report. */
  lemma ReportedIs(t: Tables, points: seq<Point>)
    ensures Reported(t, points) == t.(permissions := Reported(t, points).permissions)
    ensures forall code :: code in Reported(t, points).permissions <==> code in t.permissions || exists p :: p in points && p.code == code
    ensures forall code | code in t.permissions && t.permissions[code].source != "auto" ::
      Reported(t, points).permissions[code] == t.permissions[code]
    ensures forall i | 0 <= i < |points| && LandsLast(t, points, i) ::
      points[i].code in Reported(t, points).permissions && Reported(t, points).permissions[points[i].code] == points[i].row.(source := "auto")
  {
    var keys := Keys(points, CodeOf);
    forall code
      ensures code in keys <==> exists p :: p in points && p.code == code
    {
      if p :| p in points && p.code == code {
        var i :| 0 <= i < |points| && points[i] == p;
        assert keys[i] == code;
      }
    }
    forall i | 0 <= i < |points| && LandsLast(t, points, i)
      ensures points[i].code in Index(points, CodeOf) && Index(points, CodeOf)[points[i].code] == points[i]
    {
      LastIsIndexed(points, i);
    }
    hide Index, Keys;
  }

  lemma ReportKeepsSound(t: Tables, points: seq<Point>)
    requires SoundTables(t)
    ensures SoundTables(Reported(t, points))
  {
  }

  /** Reporting the same permissions again changes nothing. */
  lemma ReportingTwiceIsOnce(t: Tables, points: seq<Point>)
    ensures Reported(Reported(t, points), points) == Reported(t, points)
    ensures Landing(Reported(t, points), points) == Landing(t, points)
  {
    var t' := Reported(t, points);
    forall code
      ensures Reportable(t', code) <==> Reportable(t, code)
    {
    }
    assert ReportedRows(t', points) == ReportedRows(t, points);
    assert t'.permissions + ReportedRows(t, points) == t'.permissions;
    LandingAgrees(t, t', points);
  }

  lemma {:induction false} LandingAgrees(t: Tables, t': Tables, points: seq<Point>)
    requires forall code :: Reportable(t', code) <==> Reportable(t, code)
    ensures Landing(t', points) == Landing(t, points)
  {
    if points != [] {
      LandingAgrees(t, t', points[..|points| - 1]);
    }
  }

  lemma LandedMore(t: Tables, last: map<string, Point>, p: Point)
    ensures LandedRows(t, last[p.code := p]) ==
      if Reportable(t, p.code) then LandedRows(t, last)[p.code := p.row.(source := AUTO)] else LandedRows(t, last)
  {
  }

  lemma LandMore(t: Tables, last: map<string, Point>, p: Point)
    ensures t.(permissions := t.permissions + LandedRows(t, last[p.code := p]))
         == UpsertAutoPermission(t.(permissions := t.permissions + LandedRows(t, last)), p.code, p.row).0
    ensures UpsertAutoPermission(t.(permissions := t.permissions + LandedRows(t, last)), p.code, p.row).1 <==> Reportable(t, p.code)
  {
    var before := LandedRows(t, last);
    assert forall code | code in before :: Reportable(t, code) && before[code].source == AUTO;
    LandedMore(t, last, p);
    hide LandedRows;
    assert t.permissions + before[p.code := p.row.(source := AUTO)] == (t.permissions + before)[p.code := p.row.(source := AUTO)];
  }

  lemma ReportedMore(t: Tables, points: seq<Point>, p: Point)
    ensures Reported(t, points + [p]) == UpsertAutoPermission(Reported(t, points), p.code, p.row).0
    ensures UpsertAutoPermission(Reported(t, points), p.code, p.row).1 <==> Reportable(t, p.code)
  {
    assert (points + [p])[..|points|] == points;
    assert Index(points + [p], CodeOf) == Index(points, CodeOf)[p.code := p];
    hide Index, LandedRows, UpsertAutoPermission;
    LandMore(t, Index(points, CodeOf), p);
  }

  lemma ReportedNone(t: Tables)
    ensures Reported(t, []) == t && Landing(t, []) == 0
  {
    assert t.permissions + ReportedRows(t, []) == t.permissions;
  }

  lemma LandingMore(t: Tables, points: seq<Point>, p: Point)
    ensures Landing(t, points + [p]) == Landing(t, points) + if Reportable(t, p.code) then 1 else 0
  {
    assert (points + [p])[..|points|] == points;
  }

  /** A data-policy row as a caller hands it in; an empty effect means allow. */
  function WrittenRow(p: DataPolicy, version: nat): DataRow {
    DataRow(p.subjectType, p.subjectId, p.resource, p.condition, NormEffect(p.effect), MANUAL, version)
  }

  function UpsertPolicyEffect(t: Tables, p: DataPolicy, version: nat): Effect {
    match UpsertDataPolicy(t, p.id, WrittenRow(p, version))
    case Failure(e) => Failure(Store(e))
    case Success(w) =>
      Success((w.0, [DataPolicyChange(if w.2 then ChangeAdd else ChangeUpdate, PolicyOf(w.1, WrittenRow(p, version)))]))
  }

  function DeletePolicyEffect(t: Tables, id: nat): Effect {
    match DeleteDataPolicy(t, id)
    case Failure(e) => Failure(Store(e))
    case Success(w) => Success((w, [Removal(id)]))
  }

  lemma UpsertPolicyIsExplained(t: Tables, p: DataPolicy, version: nat)
    requires SoundTables(t) && UpsertPolicyEffect(t, p, version).Success?
    ensures var w := UpsertPolicyEffect(t, p, version).value; SoundTables(w.0) && Explains(View(t.data), w.1, w.0.data)
  {
    var w := UpsertPolicyEffect(t, p, version).value;
    var id := if p.id == 0 then t.nextId else p.id;
    var stored := WrittenRow(p, version).(source := if p.id in t.data then t.data[p.id].source else MANUAL);
    assert w.0.data == t.data[id := stored];
    assert PolicyOf(id, WrittenRow(p, version)) == PolicyOf(id, stored);
    ExplainsNothing(t.data);
    ExplainsWrite(View(t.data), [], t.data, id, stored, w.1[0].op);
  }

  lemma ExplainsNothing(data: map<nat, DataRow>)
    ensures Explains(View(data), [], data)
  {
  }

  lemma DeletePolicyIsExplained(t: Tables, id: nat)
    requires SoundTables(t) && DeletePolicyEffect(t, id).Success?
    ensures var w := DeletePolicyEffect(t, id).value; SoundTables(w.0) && Explains(View(t.data), w.1, w.0.data)
  {
    ExplainsNothing(t.data);
    ExplainsRemoval(View(t.data), [], t.data, id);
  }

  /** The rules read back in some order. */
  method ReadAppRules(rules: set<Rule>) returns (out: seq<Rule>)
    ensures Elements(out) == rules
  {
    out := [];
    var todo := rules;
    while todo != {}
      invariant todo <= rules && Elements(out) == rules - todo
      decreases todo
    {
      var r :| r in todo;
      ElementsAppend(out, r);
      assert rules - (todo - {r}) == (rules - todo) + {r};
      todo := todo - {r};
      out := out + [r];
    }
  }

  /** Deletes the removes, then inserts the adds; an insert of a present rule breaks the unique constraint. */
  method ApplyDiff(rules: set<Rule>, adds: seq<Rule>, removes: seq<Rule>) returns (ok: bool, out: set<Rule>)
    requires forall i, j :: 0 <= i < j < |adds| ==> adds[i] != adds[j]
    ensures ok <==> Elements(adds) !! rules - Elements(removes)
    ensures ok ==> out == (rules - Elements(removes)) + Elements(adds)
  {
    out := rules;
    for i := 0 to |removes|
      invariant out == rules - Elements(removes[..i])
    {
      assert removes[..i + 1] == removes[..i] + [removes[i]];
      out := out - {removes[i]};
    }
    assert removes[..|removes|] == removes;
    ghost var kept := out;
    for i := 0 to |adds|
      invariant out == kept + Elements(adds[..i])
      invariant Elements(adds[..i]) !! kept
    {
      assert adds[..i + 1] == adds[..i] + [adds[i]];
      if adds[i] in out {
        assert adds[i] !in adds[..i];
        assert adds[i] in Elements(adds) && adds[i] in kept;
        return false, out;
      }
      out := out + {adds[i]};
    }
    assert adds[..|adds|] == adds;
    ok := true;
  }

  lemma AddsAreNew(desired: set<Rule>, current: set<Rule>, adds: seq<Rule>, removes: seq<Rule>)
    requires IsKeyDifference(desired, current, adds)
    ensures forall i, j :: 0 <= i < j < |adds| ==> adds[i] != adds[j]
    ensures Elements(adds) !! current - Elements(removes)
  {
  }

  class AppStore {
    const domain: string
    var t: Tables
    var rules: set<Rule>
    var version: nat
    var outbox: seq<Delta>
    var audit: seq<AuditRow>
    /** The rules, policies and tables of every version. */
    ghost var past: Past
    /** No write so far met two different rules with one comparison key. */
    ghost var clean: bool

    ghost function State(): App
      reads this
    {
      App(t, rules, version, outbox, audit)
    }

    ghost predicate Valid()
      reads this
    {
      Recorded(State(), past) && SoundTables(t) && (clean ==> rules == Project(t, domain) && Mirrored(past, domain))
    }

    constructor (domain: string)
      ensures Valid() && this.domain == domain && clean && version == 0
    {
      this.domain := domain;
      t := Tables(map[], map[], map[], {}, {}, map[], 1);
      rules, version, outbox, audit := {}, 0, [], [];
      past, clean := Past([{}], [map[]], [Tables(map[], map[], map[], {}, {}, map[], 1)]), true;
    }

    /**
     A write whose statements have `effect` on the tables: it fails and changes nothing, or commits.
     History is only extended, and the rules stay the projection unless this write meets a clash.
     */
    twostate predicate Wrote(new effect: Effect, what: Action, fault: bool, new r: Result<Option<Delta>, WriteError>)
      reads this
    {
      && Valid()
      && old(past).rules <= past.rules && old(past).policies <= past.policies && old(past).tables <= past.tables
      && (r.Failure? <==> fault || effect.Failure?)
      && (r.Failure? ==> State() == old(State()) && past == old(past) && clean == old(clean))
      && (r.Failure? && !fault ==> r.error == effect.error)
      && (r.Success? ==> Committed(old(State()), State(), domain, effect.value.0, effect.value.1, what, r.value))
      && (r.Success? ==> (clean <==> old(clean) && NoClash(old(rules), Project(t, domain))))
    }

    /** The same for a data-policy write, which always makes a new version. */
    twostate predicate WroteData(new effect: Effect, what: Action, fault: bool, new r: Result<Delta, WriteError>)
      reads this
    {
      && Valid() && clean == old(clean)
      && old(past).rules <= past.rules && old(past).policies <= past.policies && old(past).tables <= past.tables
      && (r.Failure? <==> fault || effect.Failure?)
      && (r.Failure? ==> State() == old(State()) && past == old(past))
      && (r.Failure? && !fault ==> r.error == effect.error)
      && (r.Success? ==> CommittedData(old(State()), State(), effect.value.0, effect.value.1, what, r.value))
    }

    /** The write transaction: reproject, compare, and commit either the tables alone or a new version. */
    method RunVersionedWrite(effect: Effect, what: Action, fault: bool) returns (r: Result<Option<Delta>, WriteError>)
      requires Valid()
      requires effect.Success? ==> SoundTables(effect.value.0) && Explains(View(t.data), effect.value.1, effect.value.0.data)
      modifies this
      ensures Wrote(effect, what, fault, r)
    {
      hide Recorded, SoundTables, Project, Explains, View, Committed, NoClash, Mirrored;
      if effect.Failure? || fault {
        return Failure(if effect.Failure? then effect.error else Faulted);
      }
      var after, changes := effect.value.0, effect.value.1;
      ghost var before, start := State(), past;
      var delta, applied := Compare(before, after, changes, what);
      if delta.None? {
        t := after;
      } else {
        t, rules, version := after, applied, version + 1;
        outbox, audit := outbox + [delta.value], audit + [AuditRow(what, delta.value)];
        past := Extended(past, State());
      }
      CommitKeepsRecord(before, State(), start, domain, after, changes, what, delta);
      CommitProjects(before, State(), domain, after, changes, what, delta);
      clean := clean && NoClash(before.rules, Project(after, domain));
      if clean && delta.Some? {
        MirroredMore(start, State(), domain);
      }
      r := Success(delta);
    }

    /** Reprojects, compares, and applies the difference to the rule rows; without any difference there is no delta. */
    method Compare(ghost before: App, after: Tables, changes: seq<DataPolicyChange>, what: Action)
        returns (d: Option<Delta>, applied: set<Rule>)
      requires before == State()
      ensures d.None? ==> Committed(before, before.(t := after), domain, after, changes, what, d)
      ensures d.Some? ==> Committed(before, App(after, applied, version + 1, outbox + [d.value], audit + [AuditRow(what, d.value)]),
                                    domain, after, changes, what, d)
    {
      hide Project, IsKeyDifference;
      var desired := ProjectApp(after, domain);
      var current := ReadAppRules(rules);
      var adds, removes := Rules.Diff(current, desired);
      if adds == [] && removes == [] && changes == [] {
        return None, rules;
      }
      AddsAreNew(Project(after, domain), rules, adds, removes);
      var ok;
      ok, applied := ApplyDiff(rules, adds, removes);
      d := Some(Delta(version + 1, adds, removes, changes));
    }

    /** The data-policy variant: rules are not touched, and the version always moves. */
    method RunVersionedWriteData(effect: Effect, what: Action, fault: bool) returns (r: Result<Delta, WriteError>)
      requires Valid()
      requires effect.Success? ==> effect.value.0.(data := t.data, nextId := t.nextId) == t
      requires effect.Success? ==> SoundTables(effect.value.0) && Explains(View(t.data), effect.value.1, effect.value.0.data)
      modifies this
      ensures WroteData(effect, what, fault, r)
    {
      hide Recorded, SoundTables, Project, Explains, View, Mirrored;
      if effect.Failure? || fault {
        return Failure(if effect.Failure? then effect.error else Faulted);
      }
      ghost var before, start := State(), past;
      var delta := Delta(version + 1, [], [], effect.value.1);
      t, version, outbox, audit := effect.value.0, version + 1, outbox + [delta], audit + [AuditRow(what, delta)];
      past := Extended(past, State());
      CommitDataKeepsRecord(before, State(), start, t, effect.value.1, what, delta);
      SameProjection(before.t, t, domain);
      if clean {
        MirroredMore(start, State(), domain);
      }
      r := Success(delta);
    }

    method GrantPermission(role: string, permission: string, effect: string, fault: bool) returns (r: Result<Option<Delta>, WriteError>)
      requires Valid()
      modifies this
      ensures Wrote(Plain(InsertRolePermission(old(t), role, permission, effect)), Action("grant", "role_permission", role + ":" + permission), fault, r)
      ensures !fault ==> (r.Success? <==> Grant(role, permission) in old(t).grants || (role in old(t).roles && permission in old(t).permissions))
      ensures r.Success? ==> t == old(t).(grants :=
        if Grant(role, permission) in old(t).grants then old(t).grants else old(t).grants[Grant(role, permission) := effect])
      ensures r.Success? && Grant(role, permission) !in old(t).grants && effect == "deny" ==>
        && permission in t.permissions
        && forall user | Holds(t, user, role) :: !TablesAllow(t, user, t.permissions[permission].resource, t.permissions[permission].action)
    {
      GrantKeepsSound(t, role, permission, effect);
      r := RunVersionedWrite(Plain(InsertRolePermission(t, role, permission, effect)),
        Action("grant", "role_permission", role + ":" + permission), fault);
      if r.Success? && Grant(role, permission) !in old(t).grants && effect == "deny" {
        forall user | Holds(t, user, role)
          ensures !TablesAllow(t, user, t.permissions[permission].resource, t.permissions[permission].action)
        {
          NewDenyGrantDenies(old(t), t, role, permission, user);
        }
      }
    }

    method RevokePermission(role: string, permission: string, fault: bool) returns (r: Result<Option<Delta>, WriteError>)
      requires Valid()
      modifies this
      ensures Wrote(Success((DeleteRolePermission(old(t), role, permission), [])), Action("revoke", "role_permission", role + ":" + permission), fault, r)
      ensures r.Success? <==> !fault
      ensures r.Success? ==>
        && t == old(t).(grants := t.grants) && Grant(role, permission) !in t.grants
        && forall g | g != Grant(role, permission) :: (g in t.grants <==> g in old(t).grants) && (g in t.grants ==> t.grants[g] == old(t).grants[g])
    {
      r := RunVersionedWrite(Success((DeleteRolePermission(t, role, permission), [])),
        Action("revoke", "role_permission", role + ":" + permission), fault);
    }

    method CreateRole(code: string, name: string, fault: bool) returns (r: Result<Option<Delta>, WriteError>)
      requires Valid()
      modifies this
      ensures Wrote(Plain(InsertRole(old(t), code, name, MANUAL)), Action("create_role", "role", code), fault, r)
      ensures !fault ==> (r.Success? <==> code !in old(t).roles)
      ensures r.Success? ==> t == old(t).(roles := old(t).roles[code := Role(name, "", "manual")])
    {
      r := RunVersionedWrite(Plain(InsertRole(t, code, name, MANUAL)), Action("create_role", "role", code), fault);
    }

    /** Creates a role and grants every listed permission in the same transaction. */
    method CreateBusinessRole(code: string, name: string, permissions: seq<string>, fault: bool) returns (r: Result<Option<Delta>, WriteError>)
      requires Valid()
      modifies this
      ensures Wrote(BusinessRole(old(t), code, name, permissions), Action("create_business_role", "role", code), fault, r)
      ensures !fault ==> (r.Success? <==> code !in old(t).roles && forall p | p in permissions :: p in old(t).permissions)
      ensures r.Success? ==> t == old(t).(roles := old(t).roles[code := Role(name, "", "manual")], grants := t.grants)
      ensures r.Success? ==> forall g ::
        && (g in t.grants <==> g in old(t).grants || (g.role == code && g.permission in permissions))
        && (g in t.grants ==> t.grants[g] == if g.role == code && g.permission in permissions then "allow" else old(t).grants[g])
    {
      var effect := BuildBusinessRole(t, code, name, permissions);
      if effect.Success? {
        BusinessRoleKeepsSound(t, code, name, permissions);
      }
      r := RunVersionedWrite(effect, Action("create_business_role", "role", code), fault);
    }

    method DeleteRole(code: string, fault: bool) returns (r: Result<Option<Delta>, WriteError>)
      requires Valid()
      modifies this
      ensures Wrote(Success((Sql.DeleteRole(old(t), code), [])), Action("delete_role", "role", code), fault, r)
      ensures r.Success? <==> !fault
      ensures r.Success? ==>
        && t == old(t).(roles := t.roles, grants := t.grants, inherits := t.inherits, bindings := t.bindings)
        && (forall c :: (c in t.roles <==> c in old(t).roles && c != code) && (c in t.roles ==> t.roles[c] == old(t).roles[c]))
        && (forall g :: (g in t.grants <==> g in old(t).grants && g.role != code) && (g in t.grants ==> t.grants[g] == old(t).grants[g]))
        && (forall e :: e in t.inherits <==> e in old(t).inherits && e.src != code && e.dst != code)
        && (forall b :: b in t.bindings <==> b in old(t).bindings && b.role != code)
    {
      DeleteRoleKeepsSound(t, code);
      r := RunVersionedWrite(Success((Sql.DeleteRole(t, code), [])), Action("delete_role", "role", code), fault);
    }

    method UpsertPermission(code: string, p: Permission, fault: bool) returns (r: Result<Option<Delta>, WriteError>)
      requires Valid()
      modifies this
      ensures Wrote(Success((Sql.UpsertPermission(old(t), code, p), [])), Action("upsert_permission", "permission", code), fault, r)
      ensures r.Success? <==> !fault
      ensures r.Success? && code in old(t).permissions ==> t == old(t).(permissions := old(t).permissions[code :=
        Permission(p.resource, p.action, p.kind, p.name, old(t).permissions[code].description, old(t).permissions[code].source)])
      ensures r.Success? && code !in old(t).permissions ==> t == old(t).(permissions := old(t).permissions[code :=
        Permission(p.resource, p.action, p.kind, p.name, "", "manual")])
    {
      r := RunVersionedWrite(Success((Sql.UpsertPermission(t, code, p), [])), Action("upsert_permission", "permission", code), fault);
    }

    /** Reports permissions; rows that are not auto are skipped and counted. */
    method ReportPermissions(points: seq<Point>, fault: bool) returns (r: Result<Option<Delta>, WriteError>, upserted: nat, skipped: nat)
      requires Valid()
      modifies this
      ensures Wrote(Success((Reported(old(t), points), [])), Action("report_permissions", "permission", ""), fault, r)
      ensures r.Success? ==> upserted == Landing(old(t), points) && upserted + skipped == |points|
      ensures r.Failure? ==> upserted == skipped == 0
      ensures r.Success? <==> !fault
      ensures r.Success? ==>
        && t == old(t).(permissions := t.permissions)
        && (forall code :: code in t.permissions <==> code in old(t).permissions || exists p :: p in points && p.code == code)
        && (forall code | code in old(t).permissions && old(t).permissions[code].source != "auto" :: t.permissions[code] == old(t).permissions[code])
        && (forall i | 0 <= i < |points| && LandsLast(old(t), points, i) :: t.permissions[points[i].code] == points[i].row.(source := "auto"))
    {
      var after;
      after, upserted, skipped := Report(t, points);
      ReportKeepsSound(t, points);
      ReportedIs(t, points);
      hide Reported, Landing, LandsLast, SoundTables, Recorded, Project, Mirrored, IsKeyDifference, NoClash, SameKeys, View, Replay;
      r := RunVersionedWrite(Success((after, [])), Action("report_permissions", "permission", ""), fault);
      if r.Failure? {
        upserted, skipped := 0, 0;
      }
    }

    /** Adds an inheritance edge unless it would close a cycle. */
    method AddRoleInheritance(child: string, parent: string, fault: bool) returns (r: Result<Option<Delta>, WriteError>)
      requires Valid()
      modifies this
      ensures Wrote(
        if Acyclic(old(t).inherits + {Edge(child, parent)}) then Plain(InsertRoleInheritance(old(t), child, parent)) else Failure(Cycle),
        Action("add_inheritance", "role_inheritance", child + "->" + parent), fault, r)
      ensures !fault ==> (r.Success? <==> Acyclic(old(t).inherits + {Edge(child, parent)}) && child in old(t).roles && parent in old(t).roles)
      ensures r.Success? ==> t == old(t).(inherits := old(t).inherits + {Edge(child, parent)})
    {
      var ok := CheckNoCycle(t.inherits, child, parent);
      r := RunVersionedWrite(if ok then Plain(InsertRoleInheritance(t, child, parent)) else Failure(Cycle),
        Action("add_inheritance", "role_inheritance", child + "->" + parent), fault);
    }

    method RemoveRoleInheritance(child: string, parent: string, fault: bool) returns (r: Result<Option<Delta>, WriteError>)
      requires Valid()
      modifies this
      ensures Wrote(Success((DeleteRoleInheritance(old(t), child, parent), [])),
        Action("remove_inheritance", "role_inheritance", child + "->" + parent), fault, r)
      ensures r.Success? <==> !fault
      ensures r.Success? ==> t == old(t).(inherits := old(t).inherits - {Edge(child, parent)})
    {
      DeleteEdgeKeepsSound(t, child, parent);
      r := RunVersionedWrite(Success((DeleteRoleInheritance(t, child, parent), [])),
        Action("remove_inheritance", "role_inheritance", child + "->" + parent), fault);
    }

    method BindUserRole(user: string, role: string, fault: bool) returns (r: Result<Option<Delta>, WriteError>)
      requires Valid()
      modifies this
      ensures Wrote(Plain(InsertUserRoleBinding(old(t), user, role)), Action("bind_user", "user_role_binding", user + ":" + role), fault, r)
      ensures !fault ==> (r.Success? <==> role in old(t).roles)
      ensures r.Success? ==> t == old(t).(bindings := old(t).bindings + {Binding(user, role)})
      ensures r.Success? ==> forall parent | Reach(t.inherits, role, parent) :: Holds(t, user, parent)
    {
      r := RunVersionedWrite(Plain(InsertUserRoleBinding(t, user, role)), Action("bind_user", "user_role_binding", user + ":" + role), fault);
      if r.Success? {
        BoundHolds(t, user, role);
      }
    }

    method UnbindUserRole(user: string, role: string, fault: bool) returns (r: Result<Option<Delta>, WriteError>)
      requires Valid()
      modifies this
      ensures Wrote(Success((DeleteUserRoleBinding(old(t), user, role), [])), Action("unbind_user", "user_role_binding", user + ":" + role), fault, r)
      ensures r.Success? <==> !fault
      ensures r.Success? ==> t == old(t).(bindings := old(t).bindings - {Binding(user, role)})
    {
      r := RunVersionedWrite(Success((DeleteUserRoleBinding(t, user, role), [])), Action("unbind_user", "user_role_binding", user + ":" + role), fault);
    }

    /**
     Plans a document against an unlocked snapshot of `seen`, then plans it again under the lock and carries that plan out.
     Like every write it commits or changes nothing, and it keeps the rules the projection unless it meets a clash.
     It succeeds exactly when the document is valid, no two roles share a key, neither plan has a conflict,
     and no role outside the plan holds a permission to be deleted; then the tables are reconciled with the document.
     */
    method ImportAppPolicy(d: Document, seen: Tables, dryRun: bool, fault: bool)
        returns (plan: seq<Item>, at: nat, r: Result<Option<Delta>, WriteError>,
                 ghost preview: Job, ghost job: Job, ghost scopeRows: seq<DataRow>, ghost policyRows: seq<DataRow>,
                 ghost changes: seq<DataPolicyChange>)
      requires Valid()
      modifies this
      ensures Valid() && old(past).rules <= past.rules && old(past).policies <= past.policies && old(past).tables <= past.tables
      ensures dryRun || r.Failure? ==> State() == old(State()) && past == old(past) && clean == old(clean)
      ensures r.Success? && !dryRun ==>
        && Committed(old(State()), State(), domain, t, changes, Action("import_policy", "app", ""), r.value)
        && Explains(View(old(t).data), changes, t.data) && InPlace(View(old(t).data), changes)
        && (clean <==> old(clean) && NoClash(old(rules), Project(t, domain)))
      ensures dryRun ==> (r.Success? <==> Iac.Valid(d) && KeysUnique(seen))
      ensures r.Success? ==> Iac.Valid(d) && IsSnapshot(seen, preview.c) && preview.d == d && at == version
      ensures r.Success? && dryRun ==> IsPlan(d, preview.c, plan)
      ensures r.Success? && !dryRun ==> Sound(job) && IsPlan(d, job.c, plan) && Reconciled(job, t, scopeRows, policyRows)
      ensures t.bindings == old(t).bindings
      ensures job.t == old(t) && job.d == d && job.version == old(version) + 1
      ensures !dryRun ==>
        (r.Success? <==> (Iac.Valid(d) && KeysUnique(seen) && NoConflict(preview)
                          && !fault && KeysUnique(old(t)) && NoConflict(job) && !Blocked(job)))
    {
      hide Sound, Reconciled, NoConflict, Blocked, SoundTables, KeysUnique, IsSnapshot, Iac.Valid, IsPlan, UniqueKeys;
      hide Explains, View, Recorded, Project, Committed, NoClash, Mirrored;
      scopeRows, policyRows, changes := [], [], [];
      plan, at := [], version;
      preview, job := Job(seen, d, Current([], [], []), map[], version + 1), Job(t, d, Current([], [], []), map[], version + 1);
      var valid := Validate(d);
      if !valid {
        r := Failure(InvalidDocument);
        return;
      }
      var ok, current := SnapshotCurrent(seen);
      if !ok {
        r := Failure(DuplicateKeys);
        return;
      }
      SnapshotKeysUnique(seen, d, current);
      plan := Iac.Diff(d, current);
      preview := Job(seen, d, current, map[], version + 1);
      if dryRun {
        r := Success(None);
        return;
      }
      PlanShowsConflicts(preview, plan);
      var conflicts := CountKind(plan, Conflict);
      if conflicts > 0 {
        r := Failure(Conflicting);
        return;
      }
      var effect;
      effect, plan, job, scopeRows, policyRows := PlanAndApply(t, d, version + 1);
      if effect.Success? {
        changes := effect.value.1;
      }
      r := RunVersionedWrite(effect, Action("import_policy", "app", ""), fault);
      CommittedTables(old(State()), State(), domain, effect, r);
      at := version;
      if r.Success? {
        ReconciledParts(job, t, scopeRows, policyRows);
      }
    }

    method UpsertDataPolicy(p: DataPolicy, fault: bool) returns (r: Result<Delta, WriteError>)
      requires Valid()
      modifies this
      ensures WroteData(UpsertPolicyEffect(old(t), p, old(version) + 1), Action("upsert_data_policy", "data_policy", p.subjectId), fault, r)
      ensures !fault ==> (r.Success? <==>
        (p.id == 0 || p.id in old(t).data) && (p.effect == "" || p.effect == "allow" || p.effect == "deny"))
      ensures r.Success? ==>
        var id := if p.id == 0 then old(t).nextId else p.id;
        var effect := if p.effect == "" then "allow" else p.effect;
        && r.value.changes == [DataPolicyChange(if p.id == 0 then ChangeAdd else ChangeUpdate, p.(id := id, effect := effect))]
        && (p.id == 0 ==> id !in old(t).data)
        && var source := if p.id == 0 then "manual" else old(t).data[id].source;
        t == old(t).(nextId := if p.id == 0 then id + 1 else old(t).nextId,
                     data := old(t).data[id := DataRow(p.subjectType, p.subjectId, p.resource, p.condition, effect, source, old(version) + 1)])
      ensures r.Success? ==>
        && |r.value.changes| == 1
        && (DataTable.NamesBucket(View(old(t).data), r.value.changes[0]) <==> p.id == 0 || p.resource == old(t).data[p.id].resource)
        && forall parse, m | DataTable.StandsFor(parse, m, View(old(t).data)) ::
             DataTable.StandsFor(parse, DataTable.Change(parse, m, r.value.changes[0]), View(t.data))
             <==> p.id == 0 || p.resource == old(t).data[p.id].resource
    {
      var effect := UpsertPolicyEffect(t, p, version + 1);
      if effect.Success? {
        UpsertPolicyIsExplained(t, p, version + 1);
      }
      r := RunVersionedWriteData(effect, Action("upsert_data_policy", "data_policy", p.subjectId), fault);
      if r.Success? {
        OneChangeReachesTables(old(t).data, r.value.changes, t.data);
      }
    }

    method DeleteDataPolicy(id: nat, entity: string, fault: bool) returns (r: Result<Delta, WriteError>)
      requires Valid()
      modifies this
      ensures WroteData(DeletePolicyEffect(old(t), id), Action("delete_data_policy", "data_policy", entity), fault, r)
      ensures !fault ==> (r.Success? <==> id in old(t).data)
      ensures r.Success? ==>
        && r.value.changes == [DataPolicyChange(ChangeRemove, DataPolicy(id, "", "", "", "", ""))]
        && t == old(t).(data := old(t).data - {id})
    {
      var effect := DeletePolicyEffect(t, id);
      if effect.Success? {
        DeletePolicyIsExplained(t, id);
      }
      r := RunVersionedWriteData(effect, Action("delete_data_policy", "data_policy", entity), fault);
    }
  }

  /** A single change keeps every table of the old policies a table of the new ones exactly when it names its bucket. */
  lemma OneChangeReachesTables(data: map<nat, DataRow>, cs: seq<DataPolicyChange>, data': map<nat, DataRow>)
    requires |cs| == 1 && Explains(View(data), cs, data')
    ensures forall parse, m | DataTable.StandsFor(parse, m, View(data)) ::
      DataTable.StandsFor(parse, DataTable.Change(parse, m, cs[0]), View(data')) <==> DataTable.NamesBucket(View(data), cs[0])
  {
    assert cs[..0] == [] && Replay(View(data), []) == View(data);
    hide View;
    forall parse, m | DataTable.StandsFor(parse, m, View(data))
      ensures DataTable.StandsFor(parse, DataTable.Change(parse, m, cs[0]), View(data')) <==> DataTable.NamesBucket(View(data), cs[0])
    {
      DataTable.ChangeKeepsMatchIff(parse, m, View(data), cs[0]);
    }
  }

  lemma CommittedTables(a: App, a': App, domain: string, effect: Effect, r: Result<Option<Delta>, WriteError>)
    ensures r.Success? && effect.Success? && Committed(a, a', domain, effect.value.0, effect.value.1, Action("import_policy", "app", ""), r.value)
      ==> a'.t == effect.value.0
  {
    hide IsDelta, SameKeys;
  }

  /** The statements of an import: a fresh snapshot, a fresh plan, and the plan carried out. */
  method PlanAndApply(t: Tables, d: Document, version: nat)
      returns (effect: Effect, plan: seq<Item>, ghost job: Job, ghost scopeRows: seq<DataRow>, ghost policyRows: seq<DataRow>)
    requires SoundTables(t) && Iac.Valid(d)
    ensures job.t == t && job.d == d && job.version == version
    ensures effect.Success? <==> KeysUnique(t) && NoConflict(job) && !Blocked(job)
    ensures effect.Success? ==> Sound(job) && IsPlan(d, job.c, plan) && Reconciled(job, effect.value.0, scopeRows, policyRows)
    ensures effect.Success? ==> SoundTables(effect.value.0) && Accounts(View(t.data), effect.value.1, effect.value.0)
  {
    hide Sound, Reconciled, NoConflict, Blocked, SoundTables, KeysUnique, IsSnapshot, Iac.Valid, IsPlan, UniqueKeys, Accounts;
    scopeRows, policyRows, plan := [], [], [];
    job := Job(t, d, Current([], [], []), map[], version);
    var ok, current := SnapshotCurrent(t);
    if !ok {
      return Failure(DuplicateKeys), plan, job, scopeRows, policyRows;
    }
    job := ImportJob(t, d, current, version);
    SoundTablesAreWellFormed(t);
    JobIsSound(t, d, current, version);
    SnapshotKeysUnique(t, d, current);
    plan := Iac.Diff(d, current);
    PlanShowsConflicts(job, plan);
    var conflicts := CountKind(plan, Conflict);
    if conflicts > 0 {
      return Failure(Conflicting), plan, job, scopeRows, policyRows;
    }
    var tx := new Tx(t);
    var applied;
    applied, scopeRows, policyRows := ApplyImportPlan(tx, d, plan, version, job);
    if applied.Failure? {
      return Failure(NotApplied), plan, job, scopeRows, policyRows;
    }
    ImportKeepsSound(job, tx.t, scopeRows, policyRows);
    effect := Success((tx.t, applied.value));
  }

  lemma SoundTablesAreWellFormed(t: Tables)
    requires SoundTables(t)
    ensures WellFormed(t)
  {
    hide WellFormed;
  }

  lemma SameProjection(t: Tables, t': Tables, domain: string)
    requires t'.(data := t.data, nextId := t.nextId) == t
    ensures Project(t', domain) == Project(t, domain)
  {
    assert PermissionRules(t', domain) == PermissionRules(t, domain);
    assert BindingRules(t', domain) == BindingRules(t, domain);
    assert InheritanceRules(t', domain) == InheritanceRules(t, domain);
  }

  lemma GrantMapMore(grants: map<Grant, string>, role: string, permissions: set<string>, p: string)
    requires forall q :: Grant(role, q) !in grants
    ensures Grant(role, p) in grants + GrantMap(role, permissions) <==> p in permissions
    ensures grants + GrantMap(role, permissions + {p}) == (grants + GrantMap(role, permissions))[Grant(role, p) := ALLOW]
    ensures p in permissions ==> (grants + GrantMap(role, permissions))[Grant(role, p) := ALLOW] == grants + GrantMap(role, permissions)
  {
  }

  lemma BusinessRoleKeepsSound(t: Tables, code: string, name: string, permissions: seq<string>)
    requires SoundTables(t) && BusinessRole(t, code, name, permissions).Success?
    ensures var w := BusinessRole(t, code, name, permissions).value; SoundTables(w.0) && w.0.data == t.data && w.1 == []
  {
  }

  method BuildBusinessRole(t: Tables, code: string, name: string, permissions: seq<string>) returns (effect: Effect)
    requires forall p :: Grant(code, p) in t.grants ==> code in t.roles
    ensures effect == BusinessRole(t, code, name, permissions)
  {
    hide GrantMap;
    var inserted := InsertRole(t, code, name, MANUAL);
    if inserted.Failure? {
      return Failure(Store(inserted.error));
    }
    var now := inserted.value;
    assert Codes(permissions[..0]) == {};
    GrantMapEmpty(code);
    for i := 0 to |permissions|
      invariant forall p :: p in permissions[..i] ==> p in t.permissions
      invariant now == inserted.value.(grants := now.grants)
      invariant now.grants == t.grants + GrantMap(code, Codes(permissions[..i]))
    {
      var p := permissions[i];
      assert permissions[..i + 1] == permissions[..i] + [p];
      assert Codes(permissions[..i + 1]) == Codes(permissions[..i]) + {p};
      GrantMapMore(t.grants, code, Codes(permissions[..i]), p);
      var granted := InsertRolePermission(now, code, p, ALLOW);
      if granted.Failure? {
        assert p in permissions;
        return Failure(Store(granted.error));
      }
      now := granted.value;
    }
    assert permissions[..|permissions|] == permissions;
    return Success((now, []));
  }

  lemma GrantMapEmpty(role: string)
    ensures GrantMap(role, {}) == map[]
  {
  }

  lemma ReportStep(t: Tables, points: seq<Point>, i: nat)
    requires i < |points|
    ensures Reported(t, points[..i + 1]) == UpsertAutoPermission(Reported(t, points[..i]), points[i].code, points[i].row).0
    ensures Landing(t, points[..i + 1])
         == Landing(t, points[..i]) + if UpsertAutoPermission(Reported(t, points[..i]), points[i].code, points[i].row).1 then 1 else 0
  {
    hide *;
    assert points[..i + 1] == points[..i] + [points[i]];
    ReportedMore(t, points[..i], points[i]);
    LandingMore(t, points[..i], points[i]);
  }

  method Report(t: Tables, points: seq<Point>) returns (after: Tables, upserted: nat, skipped: nat)
    ensures after == Reported(t, points) && upserted == Landing(t, points) && upserted + skipped == |points|
  {
    ReportedNone(t);
    assert points[..0] == [];
    hide Landing, Reported, Reportable, UpsertAutoPermission;
    after, upserted, skipped := t, 0, 0;
    for i := 0 to |points|
      invariant after == Reported(t, points[..i]) && upserted == Landing(t, points[..i]) && upserted + skipped == i
    {
      ReportStep(t, points, i);
      var written := UpsertAutoPermission(after, points[i].code, points[i].row);
      after := written.0;
      if written.1 {
        upserted := upserted + 1;
      } else {
        skipped := skipped + 1;
      }
    }
    assert points[..|points|] == points;
  }
}
