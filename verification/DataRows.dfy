/** Data-policy rows in id order, selected by role scope or by identity, and the changes that explain an update. */
module DataRows {

  import opened Iac
  import opened Tables

  datatype Selector = RoleScope(code: string) | TopLevel | TopIdentity(id: string)

  function RowIdentity(row: DataRow): string {
    Identity(row.subjectType, row.subjectId, row.resource)
  }

  predicate Hits(sel: Selector, row: DataRow) {
    match sel
    case RoleScope(code) => row.subjectType == ROLE && row.subjectId == code
    case TopLevel => row.subjectType != ROLE
    case TopIdentity(id) => row.subjectType != ROLE && RowIdentity(row) == id
  }

  predicate HitAt(data: map<nat, DataRow>, sel: Selector, id: nat) {
    id in data && Hits(sel, data[id])
  }

  /** The selected ids below `n`, ascending. */
  function SelectIds(data: map<nat, DataRow>, n: nat, sel: Selector): (ids: seq<nat>)
    ensures forall i: nat :: i in ids <==> i < n && HitAt(data, sel, i)
    ensures forall k :: 0 <= k < |ids| ==> ids[k] < n
    ensures forall i, j :: 0 <= i < j < |ids| ==> ids[i] < ids[j]
  {
    if n == 0 then []
    else SelectIds(data, n - 1, sel) + if HitAt(data, sel, n - 1) then [n - 1] else []
  }

  /** The selected rows with ids below `n`, in id order. */
  function Select(data: map<nat, DataRow>, n: nat, sel: Selector): seq<DataRow> {
    if n == 0 then []
    else Select(data, n - 1, sel) + if HitAt(data, sel, n - 1) then [data[n - 1]] else []
  }

  function Filter(rows: seq<DataRow>, sel: Selector): seq<DataRow> {
    if rows == [] then []
    else Filter(rows[..|rows| - 1], sel) + if Hits(sel, rows[|rows| - 1]) then [rows[|rows| - 1]] else []
  }

  lemma {:induction false} FilterJoin(a: seq<DataRow>, b: seq<DataRow>, sel: Selector)
    ensures Filter(a + b, sel) == Filter(a, sel) + Filter(b, sel)
  {
    if b == [] {
      assert a + b == a;
    } else {
      var c := b[..|b| - 1];
      assert (a + b)[..|a + b| - 1] == a + c;
      FilterJoin(a, c, sel);
    }
  }

  lemma {:induction false} FilterAll(rows: seq<DataRow>, sel: Selector)
    ensures (forall r :: r in rows ==> Hits(sel, r)) ==> Filter(rows, sel) == rows
    ensures (forall r :: r in rows ==> !Hits(sel, r)) ==> Filter(rows, sel) == []
  {
    if rows != [] {
      var rest := rows[..|rows| - 1];
      assert rows == rest + [rows[|rows| - 1]];
      FilterAll(rest, sel);
    }
  }

  lemma {:induction false} SelectAgree(a: map<nat, DataRow>, b: map<nat, DataRow>, n: nat, sel: Selector)
    requires forall i: nat | i < n :: HitAt(a, sel, i) == HitAt(b, sel, i)
    requires forall i: nat | i < n && HitAt(a, sel, i) && i in b :: a[i] == b[i]
    ensures Select(a, n, sel) == Select(b, n, sel)
  {
    if n > 0 {
      SelectAgree(a, b, n - 1, sel);
    }
  }

  lemma {:induction false} SelectNone(data: map<nat, DataRow>, n: nat, sel: Selector)
    requires forall i: nat | i < n :: !HitAt(data, sel, i)
    ensures Select(data, n, sel) == []
  {
    if n > 0 {
      SelectNone(data, n - 1, sel);
    }
  }

  lemma {:induction false} SelectOne(data: map<nat, DataRow>, n: nat, sel: Selector, id: nat)
    requires id < n && HitAt(data, sel, id)
    requires forall i: nat | i < n && HitAt(data, sel, i) :: i == id
    ensures Select(data, n, sel) == [data[id]]
  {
    if id == n - 1 {
      SelectNone(data, n - 1, sel);
    } else {
      SelectOne(data, n - 1, sel, id);
    }
  }

  lemma {:induction false} SelectHit(data: map<nat, DataRow>, n: nat, sel: Selector, id: nat)
    requires id < n && HitAt(data, sel, id)
    ensures |Select(data, n, sel)| >= 1
    ensures |Select(data, n, sel)| == 1 ==> Select(data, n, sel) == [data[id]]
    ensures |Select(data, n, sel)| == 1 ==> forall i: nat | i < n && HitAt(data, sel, i) :: i == id
  {
    if id < n - 1 {
      SelectHit(data, n - 1, sel, id);
    } else if j: nat :| j < n - 1 && HitAt(data, sel, j) {
      SelectHit(data, n - 1, sel, j);
    } else {
      SelectNone(data, n - 1, sel);
    }
  }

  lemma {:induction false} SelectSome(data: map<nat, DataRow>, n: nat, sel: Selector) returns (id: nat)
    requires Select(data, n, sel) != []
    ensures id < n && HitAt(data, sel, id)
  {
    if HitAt(data, sel, n - 1) {
      id := n - 1;
    } else {
      id := SelectSome(data, n - 1, sel);
    }
  }

  /** Rows appended from `n` up to `end` follow the selected old rows. */
  lemma {:induction false} SelectAppended(data: map<nat, DataRow>, n: nat, end: nat, rows: seq<DataRow>, sel: Selector)
    requires end == n + |rows|
    requires forall i: nat | n <= i < end :: i in data && data[i] == rows[i - n]
    ensures Select(data, end, sel) == Select(data, n, sel) + Filter(rows, sel)
  {
    if rows != [] {
      SelectAppended(data, n, end - 1, rows[..|rows| - 1], sel);
    }
  }

  ghost function IdSet(ids: seq<nat>): set<nat> {
    set i | i in ids
  }

  // ---------------------------------------------------------------- changes

  ghost function View(data: map<nat, DataRow>): map<nat, DataPolicy> {
    map id | id in data :: PolicyOf(id, data[id])
  }

  function ApplyChange(m: map<nat, DataPolicy>, c: DataPolicyChange): map<nat, DataPolicy> {
    if c.op == ChangeRemove then m - {c.policy.id} else m[c.policy.id := c.policy]
  }

  /** The data policies after a list of changes, addressed by id. */
  function Replay(m: map<nat, DataPolicy>, cs: seq<DataPolicyChange>): map<nat, DataPolicy> {
    if cs == [] then m else ApplyChange(Replay(m, cs[..|cs| - 1]), cs[|cs| - 1])
  }

  /** An addition is of a new id, an update of a known one, and a removal names a known id and nothing else. */
  predicate Fits(ps: map<nat, DataPolicy>, c: DataPolicyChange) {
    match c.op
    case ChangeAdd => c.policy.id !in ps
    case ChangeUpdate => c.policy.id in ps
    case ChangeRemove => c.policy.id in ps && c == Removal(c.policy.id)
  }

  ghost predicate AllFit(before: map<nat, DataPolicy>, cs: seq<DataPolicyChange>) {
    forall i :: 0 <= i < |cs| ==> Fits(Replay(before, cs[..i]), cs[i])
  }

  /** The changes turn the policies `before` into those of the rows `after`, each of them saying what it does. */
  ghost predicate Explains(before: map<nat, DataPolicy>, cs: seq<DataPolicyChange>, after: map<nat, DataRow>) {
    Replay(before, cs) == View(after) && AllFit(before, cs)
  }

  lemma FitsMore(before: map<nat, DataPolicy>, cs: seq<DataPolicyChange>, c: DataPolicyChange)
    requires AllFit(before, cs) && Fits(Replay(before, cs), c)
    ensures AllFit(before, cs + [c]) && Replay(before, cs + [c]) == ApplyChange(Replay(before, cs), c)
  {
    assert (cs + [c])[..|cs|] == cs;
    hide Fits, Replay, ApplyChange;
    forall i | 0 <= i < |cs + [c]|
      ensures Fits(Replay(before, (cs + [c])[..i]), (cs + [c])[i])
    {
      if i < |cs| {
        assert (cs + [c])[..i] == cs[..i];
      }
    }
  }

  lemma ViewWithout(data: map<nat, DataRow>, id: nat)
    ensures View(data - {id}) == View(data) - {id}
  {
  }

  lemma ViewWith(data: map<nat, DataRow>, id: nat, row: DataRow)
    ensures View(data[id := row]) == View(data)[id := PolicyOf(id, row)]
  {
  }

  lemma ExplainsRemoval(before: map<nat, DataPolicy>, cs: seq<DataPolicyChange>, data: map<nat, DataRow>, id: nat)
    requires Explains(before, cs, data) && id in data
    ensures Explains(before, cs + [Removal(id)], data - {id})
  {
    ViewWithout(data, id);
    assert Fits(View(data), Removal(id)) && ApplyChange(View(data), Removal(id)) == View(data) - {id};
    hide View, Fits, ApplyChange, Replay, AllFit;
    FitsMore(before, cs, Removal(id));
  }

  lemma ExplainsWrite(before: map<nat, DataPolicy>, cs: seq<DataPolicyChange>, data: map<nat, DataRow>,
                      id: nat, row: DataRow, op: ChangeOp)
    requires Explains(before, cs, data) && op == if id in data then ChangeUpdate else ChangeAdd
    ensures Explains(before, cs + [DataPolicyChange(op, PolicyOf(id, row))], data[id := row])
  {
    var c := DataPolicyChange(op, PolicyOf(id, row));
    ViewWith(data, id, row);
    assert Fits(View(data), c) && ApplyChange(View(data), c) == View(data)[id := PolicyOf(id, row)];
    hide View, Fits, ApplyChange, Replay, AllFit;
    FitsMore(before, cs, c);
  }

  // ---------------------------------------------------------------- changes that keep identities

  /** An update keeps the identity of the policy it replaces. */
  predicate KeepsIdentity(ps: map<nat, DataPolicy>, c: DataPolicyChange) {
    c.op == ChangeUpdate ==>
      c.policy.id in ps
      && Identity(c.policy.subjectType, c.policy.subjectId, c.policy.resource)
         == Identity(ps[c.policy.id].subjectType, ps[c.policy.id].subjectId, ps[c.policy.id].resource)
  }

  ghost predicate InPlace(before: map<nat, DataPolicy>, cs: seq<DataPolicyChange>) {
    forall i :: 0 <= i < |cs| ==> KeepsIdentity(Replay(before, cs[..i]), cs[i])
  }

  /** The changes explain the rows of the tables, every update keeps its identity, and the next id is new. */
  ghost predicate Accounts(before: map<nat, DataPolicy>, cs: seq<DataPolicyChange>, t: Tables) {
    Explains(before, cs, t.data) && InPlace(before, cs) && forall id | id in t.data :: id < t.nextId
  }

  lemma InPlaceMore(before: map<nat, DataPolicy>, cs: seq<DataPolicyChange>, c: DataPolicyChange)
    requires InPlace(before, cs) && KeepsIdentity(Replay(before, cs), c)
    ensures InPlace(before, cs + [c])
  {
    assert (cs + [c])[..|cs|] == cs;
    hide KeepsIdentity, Replay;
    forall i | 0 <= i < |cs + [c]|
      ensures KeepsIdentity(Replay(before, (cs + [c])[..i]), (cs + [c])[i])
    {
      if i < |cs| {
        assert (cs + [c])[..i] == cs[..i];
      }
    }
  }

  lemma AccountsRemoval(before: map<nat, DataPolicy>, cs: seq<DataPolicyChange>, t: Tables, id: nat)
    requires Accounts(before, cs, t) && id in t.data
    ensures Accounts(before, cs + [Removal(id)], t.(data := t.data - {id}))
  {
    ExplainsRemoval(before, cs, t.data, id);
    InPlaceMore(before, cs, Removal(id));
    hide Explains, InPlace;
  }

  lemma AccountsInsert(before: map<nat, DataPolicy>, cs: seq<DataPolicyChange>, t: Tables, row: DataRow)
    requires Accounts(before, cs, t)
    ensures Accounts(before, cs + [DataPolicyChange(ChangeAdd, PolicyOf(t.nextId, row))], t.(data := t.data[t.nextId := row], nextId := t.nextId + 1))
  {
    ExplainsWrite(before, cs, t.data, t.nextId, row, ChangeAdd);
    InPlaceMore(before, cs, DataPolicyChange(ChangeAdd, PolicyOf(t.nextId, row)));
    hide Explains, InPlace;
  }

  lemma AccountsReplace(before: map<nat, DataPolicy>, cs: seq<DataPolicyChange>, t: Tables, id: nat, row: DataRow)
    requires Accounts(before, cs, t) && id in t.data && RowIdentity(t.data[id]) == RowIdentity(row)
    ensures Accounts(before, cs + [DataPolicyChange(ChangeUpdate, PolicyOf(id, row))], t.(data := t.data[id := row]))
  {
    ExplainsWrite(before, cs, t.data, id, row, ChangeUpdate);
    assert Replay(before, cs)[id] == PolicyOf(id, t.data[id]);
    InPlaceMore(before, cs, DataPolicyChange(ChangeUpdate, PolicyOf(id, row)));
    hide Explains, InPlace;
  }
}
