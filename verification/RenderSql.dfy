/** Printing a resolved condition tree as parameterised SQL. */
module RenderSql {

  import opened Tables
  import opened Text
  import opened Conditions
  import opened DataTable
  import opened Filter

  /** A tree as it comes out of resolving a valid one: any value may stand where a variable stood. */
  predicate Shaped(c: Condition) {
    if Logical(c.op) then
      && c.field == "" && c.value == Null
      && (if c.op == NOT then |c.children| == 1 else c.children != [])
      && forall i :: 0 <= i < |c.children| ==> Shaped(c.children[i])
    else LeafOp(c.op) && FieldName(c.field) && c.children == [] && Prints(c) && (c.op == IS_NULL || c.op == IS_NOT_NULL ==> c.value == Null)
  }

  /** The renderer accepts the value of the leaf. */
  predicate Prints(c: Condition) {
    && (c.op == IN || c.op == NOT_IN ==> c.value.Arr? && c.value.items != [])
    && (c.op == BETWEEN ==> c.value.Arr? && |c.value.items| == 2)
  }

  function Comparator(op: string): string {
    if op == NE then "<>" else if op == GT then ">" else if op == GE then ">=" else if op == LT then "<"
    else if op == LE then "<=" else if op == LIKE then "LIKE" else if op == NOT_LIKE then "NOT LIKE" else "="
  }

  function Marks(n: nat): string {
    if n == 0 then "" else if n == 1 then "?" else Marks(n - 1) + ", ?"
  }

  function LeafText(c: Condition): string
    requires Prints(c)
  {
    if c.op == IS_NULL then c.field + " IS NULL"
    else if c.op == IS_NOT_NULL then c.field + " IS NOT NULL"
    else if c.op == IN then c.field + " IN (" + Marks(|c.value.items|) + ")"
    else if c.op == NOT_IN then c.field + " NOT IN (" + Marks(|c.value.items|) + ")"
    else if c.op == BETWEEN then c.field + " BETWEEN ? AND ?"
    else c.field + " " + Comparator(c.op) + " ?"
  }

  function LeafArgs(c: Condition): seq<Value>
    requires Prints(c)
  {
    if c.op == IS_NULL || c.op == IS_NOT_NULL then []
    else if c.op == IN || c.op == NOT_IN || c.op == BETWEEN then c.value.items
    else [c.value]
  }

  function Separator(op: string): string {
    if op == OR then " OR " else " AND "
  }

  function Printed(c: Condition): string
    requires Shaped(c)
    decreases c, 0
  {
    if c.op == AND || c.op == OR then "(" + PrintedAll(c.children, Separator(c.op)) + ")"
    else if c.op == NOT then "NOT (" + Printed(c.children[0]) + ")"
    else LeafText(c)
  }

  function PrintedAll(cs: seq<Condition>, sep: string): string
    requires forall i :: 0 <= i < |cs| ==> Shaped(cs[i])
    decreases cs, 1
  {
    if cs == [] then "" else if |cs| == 1 then Printed(cs[0]) else Printed(cs[0]) + sep + PrintedAll(cs[1..], sep)
  }

  function Args(c: Condition): seq<Value>
    requires Shaped(c)
    decreases c, 0
  {
    if c.op == AND || c.op == OR then ArgsOf(c.children)
    else if c.op == NOT then Args(c.children[0])
    else LeafArgs(c)
  }

  function ArgsOf(cs: seq<Condition>): seq<Value>
    requires forall i :: 0 <= i < |cs| ==> Shaped(cs[i])
    decreases cs, 1
  {
    if cs == [] then [] else Args(cs[0]) + ArgsOf(cs[1..])
  }

  // ---------------------------------------------------------------- the renderer

  class Builder {
    var text: string
    var args: seq<Value>

    constructor ()
      ensures text == "" && args == []
    {
      text, args := "", [];
    }

    /** Appends the tree's text and its arguments. */
    method Render(c: Condition)
      requires Shaped(c)
      modifies this
      ensures text == old(text) + Printed(c) && args == old(args) + Args(c)
      decreases c, 0
    {
      if c.op == AND || c.op == OR {
        text := text + "(";
        RenderList(c.children, Separator(c.op));
        text := text + ")";
      } else if c.op == NOT {
        text := text + "NOT (";
        Render(c.children[0]);
        text := text + ")";
      } else {
        RenderLeaf(c);
      }
    }

    /** Appends the children with a separator between them. */
    method RenderList(cs: seq<Condition>, sep: string)
      requires forall i :: 0 <= i < |cs| ==> Shaped(cs[i])
      modifies this
      ensures text == old(text) + PrintedAll(cs, sep) && args == old(args) + ArgsOf(cs)
      decreases cs, 1
    {
      hide Printed, Args, PrintedAll, ArgsOf, Shaped;
      NoTexts(sep);
      assert cs[..0] == [];
      for i := 0 to |cs|
        invariant text == old(text) + PrintedAll(cs[..i], sep)
        invariant args == old(args) + ArgsOf(cs[..i])
      {
        TextsMore(cs, i, sep);
        ArgsMore(cs, i);
        if i > 0 {
          text := text + sep;
        }
        Render(cs[i]);
      }
      assert cs[..|cs|] == cs;
    }

    method RenderLeaf(c: Condition)
      requires Prints(c)
      modifies this
      ensures text == old(text) + LeafText(c) && args == old(args) + LeafArgs(c)
    {
      if c.op == IN || c.op == NOT_IN {
        RenderIn(c);
      } else if c.op == IS_NULL {
        text := text + (c.field + " IS NULL");
      } else if c.op == IS_NOT_NULL {
        text := text + (c.field + " IS NOT NULL");
      } else if c.op == BETWEEN {
        text := text + (c.field + " BETWEEN ? AND ?");
        args := args + [c.value.items[0], c.value.items[1]];
      } else {
        text := text + (c.field + " " + Comparator(c.op) + " ?");
        args := args + [c.value];
      }
    }

    method RenderIn(c: Condition)
      requires Prints(c) && (c.op == IN || c.op == NOT_IN)
      modifies this
      ensures text == old(text) + LeafText(c) && args == old(args) + c.value.items
    {
      var marks := "";
      for i := 0 to |c.value.items|
        invariant marks == Marks(i) && args == old(args) + c.value.items[..i] && text == old(text)
      {
        marks := if i == 0 then "?" else marks + ", ?";
        args := args + [c.value.items[i]];
      }
      if c.op == IN {
        text := text + (c.field + " IN (" + marks + ")");
      } else {
        text := text + (c.field + " NOT IN (" + marks + ")");
      }
    }
  }

  lemma NoTexts(sep: string)
    ensures PrintedAll([], sep) == "" && ArgsOf([]) == []
  {
  }

  lemma {:induction false} TextsMore(cs: seq<Condition>, i: nat, sep: string)
    requires i < |cs| && forall j :: 0 <= j < |cs| ==> Shaped(cs[j])
    ensures PrintedAll(cs[..i + 1], sep) == PrintedAll(cs[..i], sep) + (if i > 0 then sep else "") + Printed(cs[i])
    decreases i
  {
    if i > 0 {
      assert cs[..i + 1][1..] == cs[1..][..i] && cs[..i][1..] == cs[1..][..i - 1];
      TextsMore(cs[1..], i - 1, sep);
    }
  }

  lemma {:induction false} ArgsMore(cs: seq<Condition>, i: nat)
    requires i < |cs| && forall j :: 0 <= j < |cs| ==> Shaped(cs[j])
    ensures ArgsOf(cs[..i + 1]) == ArgsOf(cs[..i]) + Args(cs[i])
    decreases i
  {
    if i > 0 {
      assert cs[..i + 1][1..] == cs[1..][..i] && cs[..i][1..] == cs[1..][..i - 1];
      ArgsMore(cs[1..], i - 1);
    } else {
      assert cs[..1][1..] == [];
    }
  }

  // ---------------------------------------------------------------- every plan can be rendered

  lemma {:induction false} ResolvedIsShaped(c: Condition, attrs: Attrs)
    requires Valid(c) && ResolveVars(c, attrs).Success?
    ensures Shaped(ResolveVars(c, attrs).value)
    decreases c, 0
  {
    if Logical(c.op) {
      ResolvedAreShaped(c.children, attrs);
    }
  }

  lemma {:induction false} ResolvedAreShaped(cs: seq<Condition>, attrs: Attrs)
    requires (forall i :: 0 <= i < |cs| ==> Valid(cs[i])) && ResolveAll(cs, attrs).Success?
    ensures forall i :: 0 <= i < |cs| ==> Shaped(ResolveAll(cs, attrs).value[i])
    decreases cs, 1
  {
    if cs != [] {
      ResolvedIsShaped(cs[0], attrs);
      ResolvedAreShaped(cs[1..], attrs);
    }
  }

  /** Merging shaped conditions gives a shaped tree. */
  lemma MergedIsShaped(allow: seq<Condition>, deny: seq<Condition>)
    requires allow != [] && (forall i :: 0 <= i < |allow| ==> Shaped(allow[i])) && forall i :: 0 <= i < |deny| ==> Shaped(deny[i])
    ensures Shaped(Merged(allow, deny))
  {
    assert Shaped(OrAll(allow));
    if deny != [] {
      assert Shaped(OrAll(deny));
      assert Shaped(Node(NOT, [OrAll(deny)]));
    }
  }

  lemma CondsAreValid(bucket: seq<Stored>, user: string, roles: set<string>, deny: bool, cs: seq<Condition>)
    requires cs == Conds(bucket, user, roles, deny) && forall s :: s in bucket && s.cond.Success? ==> Valid(s.cond.value)
    ensures forall i :: 0 <= i < |cs| ==> Valid(cs[i])
  {
    forall i | 0 <= i < |cs|
      ensures Valid(cs[i])
    {
      assert cs[i] in cs;
      var s :| s in bucket && Selected(s, user, roles, deny) && s.cond.value == cs[i];
    }
  }

  /** Every plan made from valid conditions can be rendered. */
  lemma PlansRender(bucket: seq<Stored>, user: string, roles: set<string>, attrs: Attrs, r: Result<Plan, PolicyError>)
    requires IsPlanFor(bucket, user, roles, attrs, r) && r.Success? && r.value.Tree?
    requires forall s :: s in bucket && s.cond.Success? ==> Valid(s.cond.value)
    ensures Shaped(r.value.c)
  {
    var allow, deny := Conds(bucket, user, roles, false), Conds(bucket, user, roles, true);
    CondsAreValid(bucket, user, roles, false, allow);
    CondsAreValid(bucket, user, roles, true, deny);
    hide Merged, Poisoned, NamesMissing;
    ResolvedAreShaped(allow, attrs);
    ResolvedAreShaped(deny, attrs);
    MergedIsShaped(ResolveAll(allow, attrs).value, ResolveAll(deny, attrs).value);
  }

  datatype SqlResult = SqlResult(sql: string, args: seq<Value>)

  const DENY_ALL := "1=0"

  /** No filter is the empty text, deny-all is 1=0, and a tree is its text with its arguments. */
  method FilterSql(plan: Plan) returns (r: SqlResult)
    requires plan.Tree? ==> Shaped(plan.c)
    ensures r == SqlOf(plan)
  {
    match plan
    case NoFilter => return SqlResult("", []);
    case DenyAll => return SqlResult(DENY_ALL, []);
    case Tree(c) =>
      var b := new Builder();
      b.Render(c);
      return SqlResult(b.text, b.args);
  }

  function SqlOf(plan: Plan): SqlResult
    requires plan.Tree? ==> Shaped(plan.c)
  {
    match plan
    case NoFilter => SqlResult("", [])
    case DenyAll => SqlResult(DENY_ALL, [])
    case Tree(c) => SqlResult(Printed(c), Args(c))
  }

  // ---------------------------------------------------------------- placeholders

  lemma {:induction false} CountMarks(n: nat)
    ensures Questions(Marks(n)) == n
  {
    if n > 1 {
      CountMarks(n - 1);
      QuestionsJoin(Marks(n - 1), ", ?");
      QuestionsJoin(", ", "?");
      NoQuestions(", ");
      assert ", " + "?" == ", ?";
    }
    if n == 1 {
      assert Questions("?"[1..]) == 0;
    }
  }

  lemma CountMark()
    ensures Questions("?") == 1
  {
    assert Questions("?"[1..]) == 0;
  }

  lemma CountSpaced()
    ensures Questions(" ?") == 1
  {
    hide Questions;
    CountMark();
    NoQuestions(" ");
    QuestionsJoin(" ", "?");
    assert " " + "?" == " ?";
  }

  /** A word and a mark after it hold one mark. */
  lemma CountWordAndMark(word: string, text: string)
    requires '?' !in word && text == word + " ?"
    ensures Questions(text) == 1
  {
    hide Questions;
    CountSpaced();
    NoQuestions(word);
    QuestionsJoin(word, " ?");
  }

  lemma CountBetween()
    ensures Questions(" BETWEEN ? AND ?") == 2
  {
    hide Questions;
    CountWordAndMark(" BETWEEN", " BETWEEN ?");
    CountWordAndMark(" AND", " AND ?");
    QuestionsJoin(" BETWEEN ?", " AND ?");
    assert " BETWEEN ?" + " AND ?" == " BETWEEN ? AND ?";
  }

  lemma CountAround(a: string, b: string, c: string)
    requires '?' !in a && '?' !in c
    ensures Questions(a + b + c) == Questions(b)
  {
    NoQuestions(a);
    NoQuestions(c);
    QuestionsJoin(a, b);
    QuestionsJoin(a + b, c);
  }

  lemma NoMarkInWords(field: string, op: string)
    requires FieldName(field)
    ensures '?' !in field && '?' !in Comparator(op)
  {
    assert forall i :: 0 <= i < |field| ==> IdentChar(field[i]);
  }

  lemma CountIn(c: Condition, head: string)
    requires Prints(c) && FieldName(c.field) && '?' !in head && c.value.Arr?
    requires LeafText(c) == c.field + head + Marks(|c.value.items|) + ")"
    ensures Questions(LeafText(c)) == |c.value.items|
  {
    NoMarkInWords(c.field, c.op);
    CountMarks(|c.value.items|);
    hide Questions, FieldName, Marks, Comparator, LeafText;
    CountAround(c.field + head, Marks(|c.value.items|), ")");
  }

  lemma CountLeaf(c: Condition)
    requires LeafOp(c.op) && FieldName(c.field) && Prints(c)
    ensures Questions(LeafText(c)) == |LeafArgs(c)|
  {
    hide Questions, FieldName, Marks, Comparator;
    if c.op == IN {
      assert c.field + " IN (" + Marks(|c.value.items|) + ")" == LeafText(c);
      CountIn(c, " IN (");
    } else if c.op == NOT_IN {
      assert c.field + " NOT IN (" + Marks(|c.value.items|) + ")" == LeafText(c);
      CountIn(c, " NOT IN (");
    } else {
      CountSpaced();
      CountBetween();
      NoMarkInWords(c.field, c.op);
      CountRest(c);
    }
  }

  lemma CountRest(c: Condition)
    requires Prints(c) && c.op != IN && c.op != NOT_IN && '?' !in c.field && '?' !in Comparator(c.op)
    requires Questions(" ?") == 1 && Questions(" BETWEEN ? AND ?") == 2
    ensures Questions(LeafText(c)) == |LeafArgs(c)|
  {
    hide Questions, Comparator;
    if c.op == IS_NULL || c.op == IS_NOT_NULL {
      NoQuestions(LeafText(c));
    } else if c.op == BETWEEN {
      CountAround(c.field, " BETWEEN ? AND ?", "");
      assert c.field + " BETWEEN ? AND ?" + "" == LeafText(c);
    } else {
      CountAround(c.field + " " + Comparator(c.op), " ?", "");
      assert c.field + " " + Comparator(c.op) + " ?" + "" == LeafText(c);
    }
  }

  /** The text has exactly one placeholder for every argument. */
  lemma {:induction false} CountIsArgs(c: Condition)
    requires Shaped(c)
    ensures Questions(Printed(c)) == |Args(c)|
    decreases c, 0
  {
    if c.op == AND || c.op == OR {
      CountTexts(c.children, Separator(c.op));
      NoQuestions("(");
      NoQuestions(")");
      QuestionsJoin("(", PrintedAll(c.children, Separator(c.op)));
      QuestionsJoin("(" + PrintedAll(c.children, Separator(c.op)), ")");
    } else if c.op == NOT {
      CountIsArgs(c.children[0]);
      NoQuestions("NOT (");
      NoQuestions(")");
      QuestionsJoin("NOT (", Printed(c.children[0]));
      QuestionsJoin("NOT (" + Printed(c.children[0]), ")");
    } else {
      CountLeaf(c);
    }
  }

  lemma {:induction false} CountTexts(cs: seq<Condition>, sep: string)
    requires (forall i :: 0 <= i < |cs| ==> Shaped(cs[i])) && '?' !in sep
    ensures Questions(PrintedAll(cs, sep)) == |ArgsOf(cs)|
    decreases cs, 1
  {
    if cs != [] {
      CountIsArgs(cs[0]);
      CountTexts(cs[1..], sep);
      if |cs| > 1 {
        NoQuestions(sep);
        QuestionsJoin(Printed(cs[0]), sep);
        QuestionsJoin(Printed(cs[0]) + sep, PrintedAll(cs[1..], sep));
      }
    }
  }

  /** A tree never prints as the empty text or as deny-all. */
  lemma TreeIsNeitherEmptyNorDenyAll(c: Condition)
    requires Shaped(c)
    ensures Printed(c) != "" && Printed(c) != DENY_ALL && (Printed(c)[0] == '(' || IdentStart(Printed(c)[0]))
  {
    if c.op == AND || c.op == OR {
      assert Printed(c)[0] == '(';
    } else if c.op == NOT {
      assert Printed(c)[0] == 'N';
    } else {
      assert Printed(c)[0] == c.field[0];
    }
  }
}
