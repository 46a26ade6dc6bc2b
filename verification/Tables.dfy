/**
 The business tables of one application and the SQL statements that change them.
 Roles and permissions are identified by their code, which the schema makes unique within
 an application; data policies have no natural key and keep their generated id.
 */
module Tables {

  import opened Graph

  datatype Result<+T, +E> = Success(value: T) | Failure(error: E) {
    predicate IsFailure() {
      Failure?
    }

    function PropagateFailure<U>(): Result<U, E>
      requires Failure?
    {
      Failure(error)
    }

    function Extract(): T
      requires Success?
    {
      value
    }
  }

  datatype StoreError = UniqueViolation | ForeignKeyViolation | CheckViolation | NotFound | StillReferenced

  datatype Permission = Permission(
    resource: string, action: string, kind: string, name: string, description: string, source: string)

  datatype Role = Role(name: string, description: string, source: string)

  datatype Grant = Grant(role: string, permission: string)

  datatype Binding = Binding(user: string, role: string)

  datatype DataRow = DataRow(
    subjectType: string, subjectId: string, resource: string, condition: string, effect: string,
    source: string, version: nat)

  datatype Tables = Tables(
    permissions: map<string, Permission>,
    roles: map<string, Role>,
    grants: map<Grant, string>,
    inherits: set<Edge<string>>,
    bindings: set<Binding>,
    data: map<nat, DataRow>,
    nextId: nat)

  const ALLOW := "allow"
  const DENY := "deny"
  const MANUAL := "manual"
  const AUTO := "auto"
  const IAC := "iac"
  /** The subject type of a data policy that is a role's scope. */
  const ROLE := "role"

  predicate KnownEffect(effect: string) {
    effect == ALLOW || effect == DENY
  }

  /** The foreign keys hold and generated ids lie below the next one. */
  ghost predicate WellFormed(t: Tables) {
    && (forall g | g in t.grants :: g.role in t.roles && g.permission in t.permissions)
    && (forall e | e in t.inherits :: e.src in t.roles && e.dst in t.roles)
    && (forall b | b in t.bindings :: b.role in t.roles)
    && (forall id | id in t.data :: 0 < id < t.nextId && KnownEffect(t.data[id].effect))
    && t.nextId > 0
  }

  /** INSERT INTO role. */
  function InsertRole(t: Tables, code: string, name: string, source: string): Result<Tables, StoreError> {
    if code in t.roles then Failure(UniqueViolation)
    else Success(t.(roles := t.roles[code := Role(name, "", source)]))
  }

  /** Deletes a role after everything that refers to it. */
  function DeleteRole(t: Tables, code: string): Tables {
    t.(grants := (map g | g in t.grants && g.role != code :: t.grants[g]),
       inherits := (set e | e in t.inherits && e.src != code && e.dst != code),
       bindings := (set b | b in t.bindings && b.role != code),
       roles := t.roles - {code})
  }

  /** Names and describes an existing role; its source and code stay. */
  function UpdateRoleMeta(t: Tables, code: string, name: string, description: string): Tables {
    if code in t.roles then t.(roles := t.roles[code := Role(name, description, t.roles[code].source)]) else t
  }

  /** Hands a manual role over to policy-as-code; any other role is left alone. */
  function AdoptRoleSource(t: Tables, code: string): (r: Tables)
    ensures r == t || (code in t.roles && t.roles[code].source == "manual")
    ensures r.roles.Keys == t.roles.Keys && forall c | c in t.roles :: r.roles[c].name == t.roles[c].name && r.roles[c].description == t.roles[c].description
  {
    if code in t.roles && t.roles[code].source == MANUAL then
      t.(roles := t.roles[code := t.roles[code].(source := IAC)])
    else t
  }

  function UpsertPermission(t: Tables, code: string, p: Permission): Tables {
    if code in t.permissions then
      var row := t.permissions[code];
      t.(permissions := t.permissions[code := Permission(p.resource, p.action, p.kind, p.name, row.description, row.source)])
    else
      t.(permissions := t.permissions[code := Permission(p.resource, p.action, p.kind, p.name, "", MANUAL)])
  }

  /** Reports a permission: a new or auto row takes the report, a manual or iac row is kept. */
  function UpsertAutoPermission(t: Tables, code: string, p: Permission): (Tables, bool) {
    if code in t.permissions && t.permissions[code].source != AUTO then (t, false)
    else (t.(permissions := t.permissions[code := p.(source := AUTO)]), true)
  }

  function UpsertPermissionWithSource(t: Tables, code: string, p: Permission, source: string): (r: Tables)
    ensures code in r.permissions && r.permissions[code].source == source
  {
    t.(permissions := t.permissions[code := p.(source := source)])
  }

  /** Deletes a permission that no grant refers to. */
  function DeletePermission(t: Tables, code: string): Result<Tables, StoreError> {
    if code !in t.permissions then Failure(NotFound)
    else if exists g | g in t.grants :: g.permission == code then Failure(StillReferenced)
    else Success(t.(permissions := t.permissions - {code}))
  }

  /** Grants a permission; a grant that exists keeps its effect. */
  function InsertRolePermission(t: Tables, role: string, permission: string, effect: string): Result<Tables, StoreError> {
    if Grant(role, permission) in t.grants then Success(t)
    else if role !in t.roles || permission !in t.permissions then Failure(ForeignKeyViolation)
    else Success(t.(grants := t.grants[Grant(role, permission) := effect]))
  }

  function DeleteRolePermission(t: Tables, role: string, permission: string): Tables {
    t.(grants := t.grants - {Grant(role, permission)})
  }

  function InsertRoleInheritance(t: Tables, child: string, parent: string): Result<Tables, StoreError> {
    if child !in t.roles || parent !in t.roles then Failure(ForeignKeyViolation)
    else Success(t.(inherits := t.inherits + {Edge(child, parent)}))
  }

  function DeleteRoleInheritance(t: Tables, child: string, parent: string): Tables {
    t.(inherits := t.inherits - {Edge(child, parent)})
  }

  function InsertUserRoleBinding(t: Tables, user: string, role: string): Result<Tables, StoreError> {
    if role !in t.roles then Failure(ForeignKeyViolation)
    else Success(t.(bindings := t.bindings + {Binding(user, role)}))
  }

  function DeleteUserRoleBinding(t: Tables, user: string, role: string): Tables {
    t.(bindings := t.bindings - {Binding(user, role)})
  }

  function NormEffect(effect: string): string {
    if effect == "" then ALLOW else effect
  }

  /**
   Inserts a data policy when the id is zero, otherwise replaces the row with that id.
   An empty effect means allow; any effect but allow and deny breaks the column's check.
   The result carries the row's id and whether it was created.
   */
  function UpsertDataPolicyWithSource(t: Tables, id: nat, row: DataRow): Result<(Tables, nat, bool), StoreError> {
    var stored := row.(effect := NormEffect(row.effect));
    if id != 0 && id !in t.data then Failure(NotFound)
    else if !KnownEffect(stored.effect) then Failure(CheckViolation)
    else if id == 0 then Success((t.(data := t.data[t.nextId := stored], nextId := t.nextId + 1), t.nextId, true))
    else Success((t.(data := t.data[id := stored]), id, false))
  }

  /** The same statement without a source column: a new row is manual, an old one keeps its source. */
  function UpsertDataPolicy(t: Tables, id: nat, row: DataRow): Result<(Tables, nat, bool), StoreError> {
    UpsertDataPolicyWithSource(t, id, row.(source := if id in t.data then t.data[id].source else MANUAL))
  }

  /** Hands a manual data policy over to policy-as-code; any other row is left alone. */
  function AdoptDataPolicySource(t: Tables, id: nat): (r: Tables)
    ensures r == t || (id in t.data && t.data[id].source == "manual")
    ensures r.data.Keys == t.data.Keys && forall i | i in t.data :: PolicyOf(i, r.data[i]) == PolicyOf(i, t.data[i])
  {
    if id in t.data && t.data[id].source == MANUAL then t.(data := t.data[id := t.data[id].(source := IAC)]) else t
  }

  function DeleteDataPolicy(t: Tables, id: nat): Result<Tables, StoreError> {
    if id !in t.data then Failure(NotFound) else Success(t.(data := t.data - {id}))
  }

  /** A data policy as it travels in a delta. */
  datatype DataPolicy = DataPolicy(
    id: nat, subjectType: string, subjectId: string, resource: string, condition: string, effect: string)

  datatype ChangeOp = ChangeAdd | ChangeUpdate | ChangeRemove

  datatype DataPolicyChange = DataPolicyChange(op: ChangeOp, policy: DataPolicy)

  /** A removal names the id and leaves every other field empty. */
  function Removal(id: nat): DataPolicyChange {
    DataPolicyChange(ChangeRemove, DataPolicy(id, "", "", "", "", ""))
  }

  function PolicyOf(id: nat, row: DataRow): DataPolicy {
    DataPolicy(id, row.subjectType, row.subjectId, row.resource, row.condition, row.effect)
  }

  /** An open transaction: the statements run on its own copy of the tables. */
  class Tx {
    var t: Tables

    constructor (t: Tables)
      ensures this.t == t
    {
      this.t := t;
    }
  }
}
