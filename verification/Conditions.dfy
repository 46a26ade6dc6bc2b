/** Condition trees of data policies, and which of them are valid. */
module Conditions {

  /** A JSON value; an object is opaque here. */
  datatype Value = Null | Str(s: string) | Num(n: real) | Bool(b: bool) | Arr(items: seq<Value>) | Obj(json: string)

  /** A logical node holds children, a leaf a field and a value; nothing else is enforced by the type. */
  datatype Condition = Condition(op: string, children: seq<Condition>, field: string, value: Value)

  datatype PolicyError = InvalidPolicy | MissingVar(name: string) | RolesUnavailable

  const AND := "AND"
  const OR := "OR"
  const NOT := "NOT"
  const EQ := "EQ"
  const NE := "NE"
  const GT := "GT"
  const GE := "GE"
  const LT := "LT"
  const LE := "LE"
  const IN := "IN"
  const NOT_IN := "NOT_IN"
  const LIKE := "LIKE"
  const NOT_LIKE := "NOT_LIKE"
  const IS_NULL := "IS_NULL"
  const IS_NOT_NULL := "IS_NOT_NULL"
  const BETWEEN := "BETWEEN"

  predicate Logical(op: string) {
    op == AND || op == OR || op == NOT
  }

  predicate Comparison(op: string) {
    op == EQ || op == NE || op == GT || op == GE || op == LT || op == LE || op == LIKE || op == NOT_LIKE
  }

  predicate LeafOp(op: string) {
    Comparison(op) || op == IN || op == NOT_IN || op == IS_NULL || op == IS_NOT_NULL || op == BETWEEN
  }

  predicate IdentStart(c: char) {
    'A' <= c <= 'Z' || 'a' <= c <= 'z' || c == '_'
  }

  predicate IdentChar(c: char) {
    IdentStart(c) || '0' <= c <= '9'
  }

  /** Field names go into the SQL text, so they must be identifiers. */
  predicate FieldName(s: string) {
    s != "" && IdentStart(s[0]) && forall i :: 0 <= i < |s| ==> IdentChar(s[i])
  }

  predicate ValueFits(op: string, v: Value) {
    if op == IS_NULL || op == IS_NOT_NULL then v.Null?
    else if op == IN || op == NOT_IN then v.Arr? && v.items != []
    else if op == BETWEEN then v.Arr? && |v.items| == 2
    else !v.Null? && !v.Arr?
  }

  predicate ValidLeaf(c: Condition) {
    LeafOp(c.op) && FieldName(c.field) && ValueFits(c.op, c.value)
  }

  /** Accepts a tree: known operators, the right number of children, and leaves with a field and a fitting value. */
  predicate Valid(c: Condition) {
    if Logical(c.op) then
      && c.field == "" && c.value.Null?
      && (if c.op == NOT then |c.children| == 1 else c.children != [])
      && forall i :: 0 <= i < |c.children| ==> Valid(c.children[i])
    else ValidLeaf(c)
  }

  /** A node of its own: what its operator demands of its field, its value and the number of its children. */
  predicate NodeFits(c: Condition) {
    match c.op
    case "AND" => c.field == "" && c.value == Null && |c.children| >= 1
    case "OR" => c.field == "" && c.value == Null && |c.children| >= 1
    case "NOT" => c.field == "" && c.value == Null && |c.children| == 1
    case "IS_NULL" => FieldName(c.field) && c.value == Null
    case "IS_NOT_NULL" => FieldName(c.field) && c.value == Null
    case "IN" => FieldName(c.field) && c.value.Arr? && |c.value.items| >= 1
    case "NOT_IN" => FieldName(c.field) && c.value.Arr? && |c.value.items| >= 1
    case "BETWEEN" => FieldName(c.field) && c.value.Arr? && |c.value.items| == 2
    case op => op in {"EQ", "NE", "GT", "GE", "LT", "LE", "LIKE", "NOT_LIKE"} && FieldName(c.field) && !c.value.Null? && !c.value.Arr?
  }

  /** The nodes that a walk from the root visits; the children of a leaf are not among them. */
  function NodesOf(c: Condition): seq<Condition>
    decreases c, 0
  {
    [c] + if c.op == "AND" || c.op == "OR" || c.op == "NOT" then NodesOfAll(c.children) else []
  }

  function NodesOfAll(cs: seq<Condition>): seq<Condition>
    decreases cs, 1
  {
    if cs == [] then [] else NodesOf(cs[0]) + NodesOfAll(cs[1..])
  }

  lemma LogicalFits(c: Condition)
    requires Logical(c.op)
    ensures NodeFits(c) <==> c.field == "" && c.value.Null? && if c.op == NOT then |c.children| == 1 else c.children != []
  {
  }

  lemma LeafFits(c: Condition)
    requires !Logical(c.op)
    ensures ValidLeaf(c) <==> NodeFits(c)
  {
    hide FieldName;
  }

  /** The recursive check accepts a tree exactly when every node it visits fits. */
  lemma {:induction false} ValidIffNodesFit(c: Condition)
    ensures Valid(c) <==> forall n | n in NodesOf(c) :: NodeFits(n)
    decreases c, 0
  {
    var below := if Logical(c.op) then NodesOfAll(c.children) else [];
    assert NodesOf(c) == [c] + below;
    assert forall n :: n in NodesOf(c) <==> n == c || n in below;
    if Logical(c.op) {
      LogicalFits(c);
      AllValidIffNodesFit(c.children);
      hide NodeFits;
      if forall n | n in NodesOf(c) :: NodeFits(n) {
        assert NodeFits(c) && forall n | n in below :: NodeFits(n);
      }
    } else {
      LeafFits(c);
      hide NodeFits, ValidLeaf;
      assert NodesOf(c) == [c];
    }
  }

  lemma {:induction false} AllValidIffNodesFit(cs: seq<Condition>)
    ensures (forall i :: 0 <= i < |cs| ==> Valid(cs[i])) <==> forall n | n in NodesOfAll(cs) :: NodeFits(n)
    decreases cs, 1
  {
    if cs != [] {
      ValidIffNodesFit(cs[0]);
      AllValidIffNodesFit(cs[1..]);
      hide Valid, NodeFits, NodesOf;
      assert (forall i :: 0 <= i < |cs| ==> Valid(cs[i])) <==> Valid(cs[0]) && forall i :: 0 <= i < |cs[1..]| ==> Valid(cs[1..][i]) by {
        assert cs == [cs[0]] + cs[1..];
      }
    }
  }

  // ---------------------------------------------------------------- three-valued meaning

  datatype Truth = True | False | Unknown

  function Negate(a: Truth): Truth {
    match a
    case True => False
    case False => True
    case Unknown => Unknown
  }

  lemma ThreeTruths(t: Truth)
    ensures t == True || t == False || t == Unknown
  {
  }

  /** True when all are, false as soon as one is. */
  function All(ts: seq<Truth>): (r: Truth)
    ensures r == True <==> forall t :: t in ts ==> t == True
    ensures r == False <==> exists t :: t in ts && t == False
  {
    assert forall t :: t in ts ==> t == True || t == False || t == Unknown by {
      forall t | t in ts ensures t == True || t == False || t == Unknown {
        ThreeTruths(t);
      }
    }
    if False in ts then False else if Unknown in ts then Unknown else True
  }

  function Any(ts: seq<Truth>): (r: Truth)
    ensures r == True <==> exists t :: t in ts && t == True
    ensures r == False <==> forall t :: t in ts ==> t == False
  {
    assert forall t :: t in ts ==> t == True || t == False || t == Unknown by {
      forall t | t in ts ensures t == True || t == False || t == Unknown {
        ThreeTruths(t);
      }
    }
    if True in ts then True else if Unknown in ts then Unknown else False
  }

  /** The truth of a leaf on some row, by field, operator and value. */
  type Row = (string, string, Value) -> Truth

  function Meaning(c: Condition, row: Row): Truth
    decreases c, 0
  {
    if c.op == AND then All(Meanings(c.children, row))
    else if c.op == OR then Any(Meanings(c.children, row))
    else if c.op == NOT && |c.children| == 1 then Negate(Meaning(c.children[0], row))
    else row(c.field, c.op, c.value)
  }

  function Meanings(cs: seq<Condition>, row: Row): (ts: seq<Truth>)
    ensures |ts| == |cs| && forall i :: 0 <= i < |cs| ==> ts[i] == Meaning(cs[i], row)
    decreases cs, 1
  {
    if cs == [] then [] else [Meaning(cs[0], row)] + Meanings(cs[1..], row)
  }

  function Node(op: string, children: seq<Condition>): Condition {
    Condition(op, children, "", Null)
  }
}
