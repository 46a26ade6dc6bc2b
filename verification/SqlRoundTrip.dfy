/** What the renderer prints reads back as the same condition. */
module SqlRoundTrip {

  import opened Text
  import opened Tables
  import opened Iac
  import opened Conditions
  import opened RenderSql
  import opened SqlText

  // ---------------------------------------------------------------- the tokens of a printed tree

  function OpName(op: string): string {
    if op == IN then "IN" else if op == NOT_IN then "NOT IN" else if op == BETWEEN then "BETWEEN"
    else if op == IS_NULL then "IS NULL" else if op == IS_NOT_NULL then "IS NOT NULL" else Comparator(op)
  }

  function CmpTokens(op: string): seq<Token> {
    if op == LIKE then [Kw("LIKE")] else if op == NOT_LIKE then [Kw("NOT"), Kw("LIKE")] else [Cmp(Comparator(op))]
  }

  /** `k` parameters from `n` on, with commas between them. */
  function ParamTokens(n: nat, k: nat): seq<Token> {
    if k == 0 then [] else if k == 1 then [Param(n)] else ParamTokens(n, k - 1) + [Comma, Param(n + k - 1)]
  }

  function LeafTokens(c: Condition, n: nat): seq<Token>
    requires Prints(c)
  {
    [WordToken(c.field)] +
    if c.op == IS_NULL then [Kw("IS"), Kw("NULL")]
    else if c.op == IS_NOT_NULL then [Kw("IS"), Kw("NOT"), Kw("NULL")]
    else if c.op == IN then [Kw("IN"), LParen] + ParamTokens(n, |c.value.items|) + [RParen]
    else if c.op == NOT_IN then [Kw("NOT"), Kw("IN"), LParen] + ParamTokens(n, |c.value.items|) + [RParen]
    else if c.op == BETWEEN then [Kw("BETWEEN"), Param(n), Kw("AND"), Param(n + 1)]
    else CmpTokens(c.op) + [Param(n)]
  }

  function Tokens(c: Condition, n: nat): seq<Token>
    requires Shaped(c)
    decreases c, 0
  {
    if c.op == AND || c.op == OR then [LParen] + Tokens(c.children[0], n) + Tail(c.op, c.children[1..], n + |Args(c.children[0])|) + [RParen]
    else if c.op == NOT then [Kw("NOT"), LParen] + Tokens(c.children[0], n) + [RParen]
    else LeafTokens(c, n)
  }

  /** The further children, each after the operator. */
  function Tail(op: string, cs: seq<Condition>, n: nat): seq<Token>
    requires forall i :: 0 <= i < |cs| ==> Shaped(cs[i])
    decreases cs, 1
  {
    if cs == [] then [] else [Kw(op)] + Tokens(cs[0], n) + Tail(op, cs[1..], n + |Args(cs[0])|)
  }

  // ---------------------------------------------------------------- lexing

  lemma KeywordTokens()
    ensures WordToken("AND") == Kw("AND") && WordToken("OR") == Kw("OR") && WordToken("NOT") == Kw("NOT") && WordToken("IN") == Kw("IN")
    ensures WordToken("IS") == Kw("IS") && WordToken("NULL") == Kw("NULL") && WordToken("LIKE") == Kw("LIKE") && WordToken("BETWEEN") == Kw("BETWEEN")
  {
    assert Upper("AND") == "AND" && Upper("OR") == "OR" && Upper("NOT") == "NOT" && Upper("IN") == "IN";
    assert Upper("IS") == "IS" && Upper("NULL") == "NULL" && Upper("LIKE") == "LIKE" && Upper("BETWEEN") == "BETWEEN";
  }

  lemma {:induction false} WholeWord(w: string)
    requires forall i :: 0 <= i < |w| ==> IdentChar(w[i])
    ensures WordLength(w) == |w|
  {
    if w != "" {
      WholeWord(w[1..]);
    }
  }

  lemma LexWord(w: string, n: nat)
    requires FieldName(w)
    ensures Lex(w, n) == [WordToken(w)]
  {
    WholeWord(w);
    assert w[..|w|] == w && w[|w|..] == "";
    assert Lex("", n) == [];
  }

  /** One-character tokens and blanks. */
  lemma LexChar(s: string, n: nat)
    requires |s| == 1 && s[0] in {' ', '(', ')', ',', '?', '='}
    ensures Lex(s, n) == if s[0] == ' ' then [] else if s[0] == '(' then [LParen] else if s[0] == ')' then [RParen]
                         else if s[0] == ',' then [Comma] else if s[0] == '?' then [Param(n)] else [Cmp("=")]
  {
    assert s[1..] == "";
  }

  lemma LexAngle(s: string, n: nat)
    requires s in {"<>", "<", "<=", ">", ">="}
    ensures Lex(s, n) == [Cmp(s)]
  {
    var k := First(s, n).1;
    assert k == |s| && s[..|s|] == s && s[k..] == "";
  }

  /** One of the two sides of the seam is a character that belongs to no longer token. */
  predicate EasySeam(a: string, b: string) {
    a != "" && b != "" && (b[0] in {' ', ')', ','} || a[|a| - 1] in {' ', '('})
  }

  lemma EasySeams(a: string, b: string)
    requires EasySeam(a, b)
    ensures Seam(a, b)
  {
  }

  lemma LexThen(a: string, b: string, n: nat)
    requires EasySeam(a, b) && '?' !in a
    ensures Lex(a + b, n) == Lex(a, n) + Lex(b, n)
  {
    EasySeams(a, b);
    NoQuestions(a);
    LexJoin(a, b, n, n);
  }

  lemma WordsAreNames()
    ensures FieldName("AND") && FieldName("OR") && FieldName("NOT") && FieldName("IN")
    ensures FieldName("IS") && FieldName("NULL") && FieldName("LIKE") && FieldName("BETWEEN")
  {
  }

  /** A blank before a word does not matter. */
  lemma LexSpaceWord(w: string, n: nat)
    requires FieldName(w)
    ensures Lex(" " + w, n) == [WordToken(w)]
  {
    hide Lex, WordToken;
    LexThen(" ", w, n);
    LexChar(" ", n);
    LexWord(w, n);
  }

  lemma LexSpaceWords(v: string, w: string, n: nat)
    requires FieldName(v) && FieldName(w)
    ensures Lex(" " + v + " " + w, n) == [WordToken(v), WordToken(w)]
  {
    hide Lex, WordToken;
    NoQuestionInWord(v);
    LexSpaceWord(v, n);
    LexSpaceWord(w, n);
    assert " " + v + " " + w == (" " + v) + (" " + w);
    LexThen(" " + v, " " + w, n);
  }

  lemma NoQuestionInWord(w: string)
    requires FieldName(w)
    ensures '?' !in w
  {
    assert forall i :: 0 <= i < |w| ==> IdentChar(w[i]);
  }

  lemma {:induction false} LexMarks(n: nat, k: nat)
    requires k > 0
    ensures Lex(Marks(k), n) == ParamTokens(n, k)
  {
    hide Lex, Questions;
    if k == 1 {
      LexChar("?", n);
    } else {
      LexMarks(n, k - 1);
      CountMarks(k - 1);
      LexJoin(Marks(k - 1), ", ?", n, n + k - 1);
      LexThen(", ", "?", n + k - 1);
      LexThen(",", " ", n + k - 1);
      LexChar(",", n + k - 1);
      LexChar(" ", n + k - 1);
      LexChar("?", n + k - 1);
      assert "," + " " == ", " && ", " + "?" == ", ?";
    }
  }

  lemma LexList(head: string, n: nat, k: nat, ts: seq<Token>)
    requires k > 0 && head != "" && '?' !in head && Lex(head, n) == ts
    ensures Lex(head + " (" + Marks(k) + ")", n) == ts + [LParen] + ParamTokens(n, k) + [RParen]
  {
    hide Lex, ParamTokens;
    LexChar("(", n);
    LexChar(" ", n);
    LexThen(" ", "(", n);
    assert " " + "(" == " (";
    LexThen(head, " (", n);
    LexThen(head + " (", Marks(k) + ")", n);
    CountMarks(k);
    LexJoin(Marks(k), ")", n, n + k);
    LexMarks(n, k);
    LexChar(")", n + k);
    assert head + " (" + (Marks(k) + ")") == head + " (" + Marks(k) + ")";
  }

  lemma LexCmp(op: string, n: nat)
    requires Comparison(op)
    ensures Lex(" " + Comparator(op), n) == CmpTokens(op) && '?' !in Comparator(op)
  {
    WordsAreNames();
    hide Lex, WordToken, FieldName;
    KeywordTokens();
    LexChar(" ", n);
    if op == LIKE {
      LexSpaceWord("LIKE", n);
    } else if op == NOT_LIKE {
      LexSpaceWords("NOT", "LIKE", n);
      assert " " + "NOT" + " " + "LIKE" == " " + Comparator(op);
    } else {
      LexThen(" ", Comparator(op), n);
      if op == EQ {
        LexChar("=", n);
      } else {
        LexAngle(Comparator(op), n);
      }
    }
  }

  /** The part of a leaf after its field. */
  function AfterField(c: Condition): string
    requires Prints(c)
  {
    if c.op == IS_NULL then " IS NULL"
    else if c.op == IS_NOT_NULL then " IS NOT NULL"
    else if c.op == IN then " IN" + " (" + Marks(|c.value.items|) + ")"
    else if c.op == NOT_IN then " NOT IN" + " (" + Marks(|c.value.items|) + ")"
    else if c.op == BETWEEN then " BETWEEN ? AND ?"
    else " " + Comparator(c.op) + " ?"
  }

  lemma LeafSplits(c: Condition)
    requires Prints(c)
    ensures LeafText(c) == c.field + AfterField(c) && AfterField(c)[0] == ' '
  {
    hide Marks, Comparator;
    if c.op == IN {
      assert c.field + (" IN" + " (" + Marks(|c.value.items|) + ")") == c.field + " IN (" + Marks(|c.value.items|) + ")";
    } else if c.op == NOT_IN {
      assert c.field + (" NOT IN" + " (" + Marks(|c.value.items|) + ")") == c.field + " NOT IN (" + Marks(|c.value.items|) + ")";
    } else if c.op != IS_NULL && c.op != IS_NOT_NULL && c.op != BETWEEN {
      assert c.field + (" " + Comparator(c.op) + " ?") == c.field + " " + Comparator(c.op) + " ?";
    }
  }

  lemma LexBetween(n: nat)
    ensures Lex(" BETWEEN ? AND ?", n) == [Kw("BETWEEN"), Param(n), Kw("AND"), Param(n + 1)]
  {
    WordsAreNames();
    hide Lex, WordToken, FieldName, Questions;
    KeywordTokens();
    LexSpaceWord("BETWEEN", n);
    LexSpaceWord("AND", n + 1);
    assert " " + "BETWEEN" == " BETWEEN" && " " + "AND" == " AND" && " " + "?" == " ?";
    LexSpaceMark(n);
    LexSpaceMark(n + 1);
    LexThen(" BETWEEN", " ?", n);
    LexThen(" AND", " ?", n + 1);
    CountSpaced();
    NoQuestions(" BETWEEN");
    QuestionsJoin(" BETWEEN", " ?");
    LexJoin(" BETWEEN" + " ?", " AND" + " ?", n, n + 1);
    assert (" BETWEEN" + " ?") + (" AND" + " ?") == " BETWEEN ? AND ?";
  }

  lemma LexSpaceMark(n: nat)
    ensures Lex(" ?", n) == [Param(n)]
  {
    hide Lex;
    LexThen(" ", "?", n);
    LexChar(" ", n);
    LexChar("?", n);
    assert " " + "?" == " ?";
  }

  lemma LexNulls(n: nat)
    ensures Lex(" IS NULL", n) == [Kw("IS"), Kw("NULL")] && Lex(" IS NOT NULL", n) == [Kw("IS"), Kw("NOT"), Kw("NULL")]
    ensures Lex(" IN", n) == [Kw("IN")] && Lex(" NOT IN", n) == [Kw("NOT"), Kw("IN")]
  {
    WordsAreNames();
    hide Lex, WordToken, FieldName;
    KeywordTokens();
    LexSpaceWords("IS", "NULL", n);
    LexSpaceWords("IS", "NOT", n);
    LexSpaceWords("NOT", "IN", n);
    LexSpaceWord("NULL", n);
    LexSpaceWord("IN", n);
    assert " " + "IS" + " " + "NULL" == " IS NULL" && " " + "IS" + " " + "NOT" == " IS NOT" && " " + "NULL" == " NULL";
    assert " " + "NOT" + " " + "IN" == " NOT IN" && " " + "IN" == " IN";
    LexThen(" IS NOT", " NULL", n);
    assert " IS NOT" + " NULL" == " IS NOT NULL";
  }

  lemma LexAfterField(c: Condition, n: nat)
    requires LeafOp(c.op) && Prints(c)
    ensures [WordToken(c.field)] + Lex(AfterField(c), n) == LeafTokens(c, n)
  {
    hide Lex, Marks, Comparator, ParamTokens, WordToken;
    if c.op == IN {
      LexNulls(n);
      LexList(" IN", n, |c.value.items|, [Kw("IN")]);
    } else if c.op == NOT_IN {
      LexNulls(n);
      LexList(" NOT IN", n, |c.value.items|, [Kw("NOT"), Kw("IN")]);
    } else if c.op == BETWEEN {
      LexBetween(n);
    } else if c.op == IS_NULL || c.op == IS_NOT_NULL {
      LexNulls(n);
    } else {
      LexCmp(c.op, n);
      LexSpaceMark(n);
      LexThen(" " + Comparator(c.op), " ?", n);
    }
  }

  lemma LexLeaf(c: Condition, n: nat)
    requires LeafOp(c.op) && FieldName(c.field) && Prints(c)
    ensures Lex(LeafText(c), n) == LeafTokens(c, n)
  {
    LeafSplits(c);
    NoQuestionInWord(c.field);
    LexWord(c.field, n);
    LexAfterField(c, n);
    hide Lex, LeafText, LeafTokens, AfterField, WordToken;
    LexThen(c.field, AfterField(c), n);
  }

  lemma LexSeparator(op: string, n: nat)
    requires op == AND || op == OR
    ensures Lex(Separator(op), n) == [Kw(op)] && '?' !in Separator(op)
  {
    WordsAreNames();
    hide Lex, WordToken, FieldName;
    KeywordTokens();
    LexSpaceWord(op, n);
    LexChar(" ", n);
    LexThen(" " + op, " ", n);
    assert " " + op + " " == Separator(op);
  }

  lemma LexParens(inner: string, n: nat, end: nat)
    requires end == n + Questions(inner)
    ensures Lex("(" + inner + ")", n) == [LParen] + Lex(inner, n) + [RParen]
  {
    hide Lex, Questions;
    LexChar("(", n);
    LexChar(")", end);
    LexThen("(", inner + ")", n);
    LexJoin(inner, ")", n, end);
    assert "(" + (inner + ")") == "(" + inner + ")";
  }

  lemma {:induction false} LexPrinted(c: Condition, n: nat)
    requires Shaped(c)
    ensures Lex(Printed(c), n) == Tokens(c, n)
    decreases c, 0
  {
    hide Lex, Questions, PrintedAll, FieldName, LeafText, LeafTokens, Separator;
    if c.op == AND || c.op == OR {
      LexPrintedAll(c.op, c.children, n);
      LexListNode(c, n);
    } else if c.op == NOT {
      LexPrinted(c.children[0], n);
      LexNot(Printed(c.children[0]), n);
    } else {
      LexLeaf(c, n);
    }
  }

  lemma ListTokens(c: Condition, n: nat)
    requires Shaped(c) && (c.op == AND || c.op == OR)
    ensures Printed(c) == "(" + PrintedAll(c.children, Separator(c.op)) + ")"
    ensures Tokens(c, n) == [LParen] + (Tokens(c.children[0], n) + Tail(c.op, c.children[1..], n + |Args(c.children[0])|)) + [RParen]
  {
  }

  lemma LexListNode(c: Condition, n: nat)
    requires Shaped(c) && (c.op == AND || c.op == OR)
    requires Lex(PrintedAll(c.children, Separator(c.op)), n)
          == Tokens(c.children[0], n) + Tail(c.op, c.children[1..], n + |Args(c.children[0])|)
    ensures Lex(Printed(c), n) == Tokens(c, n)
  {
    var inner := PrintedAll(c.children, Separator(c.op));
    hide *;
    ListTokens(c, n);
    LexParens(inner, n, n + Questions(inner));
  }

  lemma LexNot(inner: string, n: nat)
    ensures Lex("NOT (" + inner + ")", n) == [Kw("NOT"), LParen] + Lex(inner, n) + [RParen]
  {
    WordsAreNames();
    hide Lex, WordToken, FieldName, Questions;
    KeywordTokens();
    LexWord("NOT", n);
    LexChar(" ", n);
    LexThen("NOT", " ", n);
    assert "NOT" + " " == "NOT ";
    LexThen("NOT ", "(" + inner + ")", n);
    LexParens(inner, n, n + Questions(inner));
    assert "NOT " + ("(" + inner + ")") == "NOT (" + inner + ")";
  }

  lemma {:induction false} LexPrintedAll(op: string, cs: seq<Condition>, n: nat)
    requires (op == AND || op == OR) && cs != [] && forall i :: 0 <= i < |cs| ==> Shaped(cs[i])
    ensures Lex(PrintedAll(cs, Separator(op)), n) == Tokens(cs[0], n) + Tail(op, cs[1..], n + |Args(cs[0])|)
    decreases cs, 1
  {
    hide Lex, Tail, Tokens, Args, Printed, Questions;
    LexPrinted(cs[0], n);
    if |cs| == 1 {
      TailNone(op, n + |Args(cs[0])|);
      assert cs[1..] == [];
    } else {
      var m := n + |Args(cs[0])|;
      TreeIsNeitherEmptyNorDenyAll(cs[0]);
      PrintedNotEmpty(cs[1..], Separator(op));
      var first, rest := Printed(cs[0]), PrintedAll(cs[1..], Separator(op));
      LexPrintedAll(op, cs[1..], m);
      CountIsArgs(cs[0]);
      LexSeparated(op, first, rest, n, m);
      TailStep(op, cs[1..], m);
    }
  }

  lemma TailNone(op: string, n: nat)
    ensures Tail(op, [], n) == []
  {
  }

  lemma TailStep(op: string, cs: seq<Condition>, n: nat)
    requires cs != [] && forall i :: 0 <= i < |cs| ==> Shaped(cs[i])
    ensures Tail(op, cs, n) == [Kw(op)] + (Tokens(cs[0], n) + Tail(op, cs[1..], n + |Args(cs[0])|))
  {
    hide Tokens, Args, Shaped;
  }

  lemma LexSeparated(op: string, first: string, rest: string, n: nat, m: nat)
    requires (op == AND || op == OR) && first != "" && rest != "" && m == n + Questions(first)
    ensures Lex(first + Separator(op) + rest, n) == Lex(first, n) + ([Kw(op)] + Lex(rest, m))
  {
    LexSeparator(op, m);
    assert Separator(op)[0] == ' ' && Separator(op)[|Separator(op)| - 1] == ' ';
    EasySeams(first, Separator(op) + rest);
    hide Lex, Questions;
    LexThen(Separator(op), rest, m);
    LexJoin(first, Separator(op) + rest, n, m);
    assert first + (Separator(op) + rest) == first + Separator(op) + rest;
  }

  lemma {:induction false} PrintedNotEmpty(cs: seq<Condition>, sep: string)
    requires cs != [] && forall i :: 0 <= i < |cs| ==> Shaped(cs[i])
    ensures PrintedAll(cs, sep) != ""
  {
    TreeIsNeitherEmptyNorDenyAll(cs[0]);
  }

  // ---------------------------------------------------------------- parsing

  /** No field is a keyword in disguise. */
  predicate PlainFields(c: Condition) {
    if Logical(c.op) then forall i :: 0 <= i < |c.children| ==> PlainFields(c.children[i]) else !Keyword(c.field)
  }

  function Upto(n: nat, k: nat): (ps: seq<nat>)
    ensures |ps| == k && forall i :: 0 <= i < k ==> ps[i] == n + i
  {
    seq(k, i requires 0 <= i < k => n + i)
  }

  /** The parsed form: one-child conjunctions and disjunctions are gone. */
  function Form(c: Condition, n: nat): Sql
    requires Shaped(c)
    decreases c, 0
  {
    if c.op == AND || c.op == OR then
      if |c.children| == 1 then Form(c.children[0], n)
      else if c.op == AND then AllOf(Forms(c.children, n)) else AnyOf(Forms(c.children, n))
    else if c.op == NOT then NotOf(Form(c.children[0], n))
    else Test(c.field, OpName(c.op), Upto(n, |LeafArgs(c)|))
  }

  function Forms(cs: seq<Condition>, n: nat): (fs: seq<Sql>)
    requires forall i :: 0 <= i < |cs| ==> Shaped(cs[i])
    ensures |fs| == |cs|
    decreases cs, 1
  {
    if cs == [] then [] else [Form(cs[0], n)] + Forms(cs[1..], n + |Args(cs[0])|)
  }

  lemma {:induction false} ParamTokensFront(n: nat, k: nat)
    requires k >= 2
    ensures ParamTokens(n, k) == [Param(n), Comma] + ParamTokens(n + 1, k - 1)
  {
    if k > 2 {
      ParamTokensFront(n, k - 1);
    }
  }

  lemma {:induction false} ParamsBack(n: nat, k: nat, rest: seq<Token>)
    requires k > 0
    ensures Params(ParamTokens(n, k) + [RParen] + rest) == Some((Upto(n, k), rest))
    decreases k
  {
    var ts := ParamTokens(n, k) + [RParen] + rest;
    if k == 1 {
      assert ts[2..] == rest;
      assert Upto(n, 1) == [n];
    } else {
      ParamTokensFront(n, k);
      ParamsBack(n + 1, k - 1, rest);
      assert ts[2..] == ParamTokens(n + 1, k - 1) + [RParen] + rest;
      assert Upto(n, k) == [n] + Upto(n + 1, k - 1);
    }
  }

  lemma ListBack(f: string, op: string, n: nat, k: nat, rest: seq<Token>, ts: seq<Token>)
    requires k > 0 && ts == [LParen] + ParamTokens(n, k) + [RParen] + rest
    ensures List(f, op, ts) == Some((Test(f, op, Upto(n, k)), rest))
  {
    assert ts[1..] == ParamTokens(n, k) + [RParen] + rest;
    ParamsBack(n, k, rest);
  }

  lemma LeafBack(c: Condition, n: nat, rest: seq<Token>)
    requires Shaped(c) && !Logical(c.op) && !Keyword(c.field)
    ensures ParseTest(LeafTokens(c, n) + rest) == Some((Test(c.field, OpName(c.op), Upto(n, |LeafArgs(c)|)), rest))
  {
    var ts := LeafTokens(c, n) + rest;
    assert ts[0] == Word(c.field);
    hide FieldName, Keyword;
    if c.op == IN {
      ListBack(c.field, "IN", n, |c.value.items|, rest, ts[2..]);
    } else if c.op == NOT_IN {
      ListBack(c.field, "NOT IN", n, |c.value.items|, rest, ts[3..]);
    } else if c.op == BETWEEN {
      assert ts[5..] == rest && Upto(n, 2) == [n, n + 1];
    } else if c.op == IS_NULL {
      assert ts[3..] == rest && Upto(n, 0) == [];
    } else if c.op == IS_NOT_NULL {
      assert ts[4..] == rest && Upto(n, 0) == [];
    } else {
      ComparisonBack(c, n, rest);
    }
  }

  lemma ComparisonBack(c: Condition, n: nat, rest: seq<Token>)
    requires Comparison(c.op) && Prints(c) && !Keyword(c.field)
    ensures ParseTest(LeafTokens(c, n) + rest) == Some((Test(c.field, OpName(c.op), Upto(n, 1)), rest))
  {
    var ts := LeafTokens(c, n) + rest;
    assert Upto(n, 1) == [n];
    if c.op == NOT_LIKE {
      assert ts[3..][0] == Param(n) && ts[3..][1..] == rest;
    } else {
      assert ts[2..][0] == Param(n) && ts[2..][1..] == rest;
    }
  }

  predicate Stops(rest: seq<Token>) {
    rest == [] || rest[0] == RParen
  }

  lemma OneParsed(ts: seq<Token>, f: Sql, rest: seq<Token>)
    requires ParseNot(ts) == Some((f, rest)) && Stops(rest)
    ensures ParseOr(ts) == Some((f, rest)) && ParseAnd(ts) == Some((f, rest))
  {
    hide ParseNot;
    assert MoreAnd(rest) == Some(([], rest)) && MoreOr(rest) == Some(([], rest));
    assert ParseAnd(ts) == Some((f, rest));
  }

  lemma {:induction false} ParsesBack(c: Condition, n: nat, rest: seq<Token>)
    requires Shaped(c) && PlainFields(c)
    ensures ParseNot(Tokens(c, n) + rest) == Some((Form(c, n), rest))
    decreases c, 0
  {
    hide ParseNot, ParseOr, ParseAnd, ParseTest, Args, LeafTokens;
    if c.op == AND || c.op == OR {
      ListParsesBack(c.op, c.children, n, [RParen] + rest);
      ListNodeBack(c, n, rest);
    } else if c.op == NOT {
      ParsesBack(c.children[0], n, [RParen] + rest);
      NotNodeBack(c, n, rest);
    } else {
      LeafNotBack(c, n, rest);
    }
  }

  lemma ListNodeBack(c: Condition, n: nat, rest: seq<Token>)
    requires Shaped(c) && (c.op == AND || c.op == OR)
    requires ParseOr(Tokens(c.children[0], n) + Tail(c.op, c.children[1..], n + |Args(c.children[0])|) + ([RParen] + rest))
          == Some((Joined(c.op, Forms(c.children, n)), [RParen] + rest))
    ensures ParseNot(Tokens(c, n) + rest) == Some((Form(c, n), rest))
  {
    var inner := Tokens(c.children[0], n) + Tail(c.op, c.children[1..], n + |Args(c.children[0])|);
    hide *;
    FormIsJoined(c, n);
    ListTokens(c, n);
    ParenBack(inner, Joined(c.op, Forms(c.children, n)), rest);
  }

  lemma NotNodeBack(c: Condition, n: nat, rest: seq<Token>)
    requires Shaped(c) && c.op == NOT
    requires ParseNot(Tokens(c.children[0], n) + ([RParen] + rest)) == Some((Form(c.children[0], n), [RParen] + rest))
    ensures ParseNot(Tokens(c, n) + rest) == Some((Form(c, n), rest))
  {
    hide ParseNot, ParseOr, ParseAnd, ParseTest, Args, LeafTokens;
    NotBack(Tokens(c.children[0], n), Form(c.children[0], n), rest);
  }

  lemma FormIsJoined(c: Condition, n: nat)
    requires Shaped(c) && (c.op == AND || c.op == OR)
    ensures Form(c, n) == Joined(c.op, Forms(c.children, n))
  {
  }

  lemma ParenBack(inner: seq<Token>, f: Sql, rest: seq<Token>)
    requires ParseOr(inner + ([RParen] + rest)) == Some((f, [RParen] + rest))
    ensures ParseNot([LParen] + inner + [RParen] + rest) == Some((f, rest))
  {
    var ts := [LParen] + inner + [RParen] + rest;
    assert ts[1..] == inner + ([RParen] + rest);
    assert ([RParen] + rest)[1..] == rest;
    hide ParseOr, ParseTest;
  }

  lemma NotBack(inner: seq<Token>, f: Sql, rest: seq<Token>)
    requires ParseNot(inner + ([RParen] + rest)) == Some((f, [RParen] + rest))
    ensures ParseNot([Kw("NOT"), LParen] + inner + [RParen] + rest) == Some((NotOf(f), rest))
  {
    var ts := [Kw("NOT"), LParen] + inner + [RParen] + rest;
    OneParsed(inner + ([RParen] + rest), f, [RParen] + rest);
    ParenBack(inner, f, rest);
    assert ts[1..] == [LParen] + inner + [RParen] + rest;
    hide ParseOr, ParseTest;
  }

  lemma LeafNotBack(c: Condition, n: nat, rest: seq<Token>)
    requires Shaped(c) && !Logical(c.op) && !Keyword(c.field)
    ensures ParseNot(LeafTokens(c, n) + rest) == Some((Form(c, n), rest))
  {
    LeafBack(c, n, rest);
    assert (LeafTokens(c, n) + rest)[0] == Word(c.field);
    hide ParseTest, LeafTokens, FieldName;
  }

  function Joined(op: string, fs: seq<Sql>): Sql
    requires fs != []
  {
    if |fs| == 1 then fs[0] else if op == AND then AllOf(fs) else AnyOf(fs)
  }

  lemma {:induction false} ListParsesBack(op: string, cs: seq<Condition>, n: nat, rest: seq<Token>)
    requires (op == AND || op == OR) && cs != [] && Stops(rest) && forall i :: 0 <= i < |cs| ==> Shaped(cs[i]) && PlainFields(cs[i])
    ensures ParseOr(Tokens(cs[0], n) + Tail(op, cs[1..], n + |Args(cs[0])|) + rest) == Some((Joined(op, Forms(cs, n)), rest))
    decreases cs, 1
  {
    hide ParseNot, ParseOr, ParseAnd, Args, MoreAnd, MoreOr, Tokens, Tail;
    var m := n + |Args(cs[0])|;
    ParsesBack(cs[0], n, Tail(op, cs[1..], m) + rest);
    TailParsesBack(op, cs[1..], m, rest);
    Regroup(Tokens(cs[0], n), Tail(op, cs[1..], m), rest);
    ChainParsed(op, Tokens(cs[0], n) + (Tail(op, cs[1..], m) + rest), Form(cs[0], n), Tail(op, cs[1..], m) + rest, Forms(cs[1..], m), rest);
  }

  /** A first operand and the operands after it make one chain. */
  lemma ChainParsed(op: string, ts: seq<Token>, first: Sql, after: seq<Token>, more: seq<Sql>, rest: seq<Token>)
    requires (op == AND || op == OR) && Stops(rest) && ParseNot(ts) == Some((first, after))
    requires op == AND ==> MoreAnd(after) == Some((more, rest))
    requires op == OR ==> MoreAnd(after) == Some(([], after)) && MoreOr(after) == Some((more, rest))
    ensures ParseOr(ts) == Some((Joined(op, [first] + more), rest))
  {
    hide ParseNot;
  }

  lemma {:induction false} TailParsesBack(op: string, cs: seq<Condition>, n: nat, rest: seq<Token>)
    requires (op == AND || op == OR) && Stops(rest) && forall i :: 0 <= i < |cs| ==> Shaped(cs[i]) && PlainFields(cs[i])
    ensures op == AND ==> MoreAnd(Tail(op, cs, n) + rest) == Some((Forms(cs, n), rest))
    ensures op == OR ==> MoreAnd(Tail(op, cs, n) + rest) == Some(([], Tail(op, cs, n) + rest))
    ensures op == OR ==> MoreOr(Tail(op, cs, n) + rest) == Some((Forms(cs, n), rest))
    decreases cs, 0
  {
    hide ParseNot, Args, MoreAnd, MoreOr, Tokens, Tail;
    if cs == [] {
      TailNone(op, n);
      assert Tail(op, cs, n) + rest == rest;
      NoMore(rest);
    } else {
      var m := n + |Args(cs[0])|;
      var after := Tail(op, cs[1..], m) + rest;
      ParsesBack(cs[0], n, after);
      TailParsesBack(op, cs[1..], m, rest);
      TailStep(op, cs, n);
      Regroup3([Kw(op)], Tokens(cs[0], n), Tail(op, cs[1..], m), rest);
      OneMore(op, Tokens(cs[0], n) + after, Form(cs[0], n), after, Forms(cs[1..], m), rest);
    }
  }

  lemma Regroup3<T>(x: seq<T>, y: seq<T>, z: seq<T>, rest: seq<T>)
    ensures (x + (y + z)) + rest == x + (y + (z + rest))
  {
  }

  lemma NoMore(rest: seq<Token>)
    requires Stops(rest)
    ensures MoreAnd(rest) == Some(([], rest)) && MoreOr(rest) == Some(([], rest))
  {
  }

  lemma OneMore(op: string, ts: seq<Token>, first: Sql, after: seq<Token>, more: seq<Sql>, rest: seq<Token>)
    requires (op == AND || op == OR) && ParseNot(ts) == Some((first, after))
    requires op == AND ==> MoreAnd(after) == Some((more, rest))
    requires op == OR ==> MoreAnd(after) == Some(([], after)) && MoreOr(after) == Some((more, rest))
    ensures op == AND ==> MoreAnd([Kw(op)] + ts) == Some(([first] + more, rest))
    ensures op == OR ==> MoreAnd([Kw(op)] + ts) == Some(([], [Kw(op)] + ts)) && MoreOr([Kw(op)] + ts) == Some(([first] + more, rest))
  {
    assert ([Kw(op)] + ts)[1..] == ts;
    hide ParseNot;
  }

  // ---------------------------------------------------------------- fields that are keywords

  /** A keyword in the place of a field cannot be parsed. */
  lemma KeywordFails(c: Condition, n: nat, rest: seq<Token>)
    requires Shaped(c) && !Logical(c.op) && Keyword(c.field)
    ensures ParseNot(LeafTokens(c, n) + rest) == None
  {
    var ts := LeafTokens(c, n) + rest;
    assert ts[0] == Kw(Upper(c.field));
    KeywordTokens();
    hide FieldName, Keyword;
    if ts[0] == Kw("NOT") {
      AfterNotFails(c, n, rest);
    }
  }

  lemma AfterNotFails(c: Condition, n: nat, rest: seq<Token>)
    requires LeafOp(c.op) && Prints(c)
    ensures ParseNot((LeafTokens(c, n) + rest)[1..]) == None
  {
    var ts := (LeafTokens(c, n) + rest)[1..];
    if c.op == NOT_IN || c.op == NOT_LIKE {
      assert ts[1..][0] == Kw("IN") || ts[1..][0] == Kw("LIKE");
      assert ParseTest(ts[1..]) == None;
    } else {
      assert ts[0].Kw? || ts[0].Cmp?;
      assert ParseTest(ts) == None;
    }
  }

  lemma {:induction false} HiddenKeywordFails(c: Condition, n: nat, rest: seq<Token>)
    requires Shaped(c) && !PlainFields(c)
    ensures ParseNot(Tokens(c, n) + rest) == None
    decreases c, 0
  {
    hide ParseNot, ParseOr, ParseAnd, ParseTest, Args, LeafTokens, Tail;
    if c.op == AND || c.op == OR {
      ListFails(c.op, c.children, n, [RParen] + rest);
      ListNodeFails(c, n, rest);
    } else if c.op == NOT {
      HiddenKeywordFails(c.children[0], n, [RParen] + rest);
      NotNodeFails(c, n, rest);
    } else {
      KeywordFails(c, n, rest);
    }
  }

  lemma NotNodeFails(c: Condition, n: nat, rest: seq<Token>)
    requires Shaped(c) && c.op == NOT && ParseNot(Tokens(c.children[0], n) + ([RParen] + rest)) == None
    ensures ParseNot(Tokens(c, n) + rest) == None
  {
    assert Tokens(c, n) == [Kw("NOT"), LParen] + Tokens(c.children[0], n) + [RParen];
    hide *;
    NotFails(Tokens(c.children[0], n), rest);
  }

  lemma NotFails(inner: seq<Token>, rest: seq<Token>)
    requires ParseNot(inner + ([RParen] + rest)) == None
    ensures ParseNot([Kw("NOT"), LParen] + inner + [RParen] + rest) == None
  {
    FirstFails(inner + ([RParen] + rest));
    ParenFails(inner, rest);
    assert ([Kw("NOT"), LParen] + inner + [RParen] + rest)[1..] == [LParen] + inner + [RParen] + rest;
    hide ParseOr, ParseTest;
  }

  lemma ParenFails(inner: seq<Token>, rest: seq<Token>)
    requires ParseOr(inner + ([RParen] + rest)) == None
    ensures ParseNot([LParen] + inner + [RParen] + rest) == None
  {
    assert ([LParen] + inner + [RParen] + rest)[1..] == inner + ([RParen] + rest);
    hide ParseOr, ParseTest;
  }

  lemma ListNodeFails(c: Condition, n: nat, rest: seq<Token>)
    requires Shaped(c) && (c.op == AND || c.op == OR)
    requires ParseOr(Tokens(c.children[0], n) + Tail(c.op, c.children[1..], n + |Args(c.children[0])|) + ([RParen] + rest)) == None
    ensures ParseNot(Tokens(c, n) + rest) == None
  {
    var inner := Tokens(c.children[0], n) + Tail(c.op, c.children[1..], n + |Args(c.children[0])|);
    hide *;
    ListTokens(c, n);
    ParenFails(inner, rest);
  }

  lemma {:induction false} ListFails(op: string, cs: seq<Condition>, n: nat, rest: seq<Token>)
    requires (op == AND || op == OR) && cs != [] && Stops(rest) && (forall i :: 0 <= i < |cs| ==> Shaped(cs[i]))
    requires exists i :: 0 <= i < |cs| && !PlainFields(cs[i])
    ensures ParseOr(Tokens(cs[0], n) + Tail(op, cs[1..], n + |Args(cs[0])|) + rest) == None
    decreases cs, 1
  {
    hide ParseNot, ParseOr, ParseAnd, Args, MoreAnd, MoreOr, Tokens, Tail, PlainFields;
    var m := n + |Args(cs[0])|;
    var after := Tail(op, cs[1..], m) + rest;
    Regroup(Tokens(cs[0], n), Tail(op, cs[1..], m), rest);
    if PlainFields(cs[0]) {
      SomeLater(cs);
      ParsesBack(cs[0], n, after);
      TailFails(op, cs[1..], m, rest);
      ChainFails(op, Tokens(cs[0], n) + after, Form(cs[0], n), after);
    } else {
      HiddenKeywordFails(cs[0], n, after);
      FirstFails(Tokens(cs[0], n) + after);
    }
  }

  lemma SomeLater(cs: seq<Condition>)
    requires cs != [] && PlainFields(cs[0]) && exists i :: 0 <= i < |cs| && !PlainFields(cs[i])
    ensures exists i :: 0 <= i < |cs[1..]| && !PlainFields(cs[1..][i])
  {
    hide PlainFields;
    var i :| 0 <= i < |cs| && !PlainFields(cs[i]);
    assert !PlainFields(cs[1..][i - 1]);
  }

  lemma FirstFails(ts: seq<Token>)
    requires ParseNot(ts) == None
    ensures ParseOr(ts) == None
  {
    hide ParseNot;
  }

  lemma ChainFails(op: string, ts: seq<Token>, first: Sql, after: seq<Token>)
    requires (op == AND || op == OR) && ParseNot(ts) == Some((first, after))
    requires op == AND ==> MoreAnd(after) == None
    requires op == OR ==> MoreAnd(after) == Some(([], after)) && MoreOr(after) == None
    ensures ParseOr(ts) == None
  {
    hide ParseNot;
  }

  lemma {:induction false} TailFails(op: string, cs: seq<Condition>, n: nat, rest: seq<Token>)
    requires (op == AND || op == OR) && Stops(rest) && forall i :: 0 <= i < |cs| ==> Shaped(cs[i])
    requires exists i :: 0 <= i < |cs| && !PlainFields(cs[i])
    ensures op == AND ==> MoreAnd(Tail(op, cs, n) + rest) == None
    ensures op == OR ==> MoreAnd(Tail(op, cs, n) + rest) == Some(([], Tail(op, cs, n) + rest)) && MoreOr(Tail(op, cs, n) + rest) == None
    decreases cs, 0
  {
    hide ParseNot, Args, MoreAnd, MoreOr, Tokens, Tail, PlainFields;
    var m := n + |Args(cs[0])|;
    var after := Tail(op, cs[1..], m) + rest;
    TailStep(op, cs, n);
    Regroup3([Kw(op)], Tokens(cs[0], n), Tail(op, cs[1..], m), rest);
    if PlainFields(cs[0]) {
      SomeLater(cs);
      ParsesBack(cs[0], n, after);
      TailFails(op, cs[1..], m, rest);
      MoreFails(op, Tokens(cs[0], n) + after, Form(cs[0], n), after);
    } else {
      HiddenKeywordFails(cs[0], n, after);
      NextFails(op, Tokens(cs[0], n) + after);
    }
  }

  lemma MoreFails(op: string, ts: seq<Token>, first: Sql, after: seq<Token>)
    requires (op == AND || op == OR) && ParseNot(ts) == Some((first, after))
    requires op == AND ==> MoreAnd(after) == None
    requires op == OR ==> MoreAnd(after) == Some(([], after)) && MoreOr(after) == None
    ensures op == AND ==> MoreAnd([Kw(op)] + ts) == None
    ensures op == OR ==> MoreAnd([Kw(op)] + ts) == Some(([], [Kw(op)] + ts)) && MoreOr([Kw(op)] + ts) == None
  {
    assert ([Kw(op)] + ts)[1..] == ts;
    hide ParseNot;
  }

  lemma NextFails(op: string, ts: seq<Token>)
    requires (op == AND || op == OR) && ParseNot(ts) == None
    ensures op == AND ==> MoreAnd([Kw(op)] + ts) == None
    ensures op == OR ==> MoreAnd([Kw(op)] + ts) == Some(([], [Kw(op)] + ts)) && MoreOr([Kw(op)] + ts) == None
  {
    assert ([Kw(op)] + ts)[1..] == ts;
    hide ParseNot;
  }

  // ---------------------------------------------------------------- binding arguments

  function OpOf(name: string): string {
    if name == "IN" then IN else if name == "NOT IN" then NOT_IN else if name == "BETWEEN" then BETWEEN
    else if name == "IS NULL" then IS_NULL else if name == "IS NOT NULL" then IS_NOT_NULL
    else if name == "<>" then NE else if name == ">" then GT else if name == ">=" then GE else if name == "<" then LT
    else if name == "<=" then LE else if name == "LIKE" then LIKE else if name == "NOT LIKE" then NOT_LIKE else EQ
  }

  function Arg(args: seq<Value>, i: nat): Value {
    if i < |args| then args[i] else Null
  }

  function ArgList(args: seq<Value>, ps: seq<nat>): (vs: seq<Value>)
    ensures |vs| == |ps| && forall i :: 0 <= i < |ps| ==> vs[i] == Arg(args, ps[i])
  {
    seq(|ps|, i requires 0 <= i < |ps| => Arg(args, ps[i]))
  }

  function TestValue(op: string, ps: seq<nat>, args: seq<Value>): Value {
    if op == IN || op == NOT_IN || op == BETWEEN then Arr(ArgList(args, ps))
    else if ps == [] then Null else Arg(args, ps[0])
  }

  /** The parsed condition with its parameters replaced by arguments; a constant is an AND or an OR of nothing. */
  function Bind(x: Sql, args: seq<Value>): Condition
    decreases x, 0
  {
    match x
    case AllOf(parts) => Node(AND, BindAll(parts, args))
    case AnyOf(parts) => Node(OR, BindAll(parts, args))
    case NotOf(part) => Node(NOT, [Bind(part, args)])
    case Test(field, op, ps) => Condition(OpOf(op), [], field, TestValue(OpOf(op), ps, args))
    case Constant(holds) => Node(if holds then AND else OR, [])
  }

  function BindAll(xs: seq<Sql>, args: seq<Value>): seq<Condition>
    decreases xs, 1
  {
    if xs == [] then [] else [Bind(xs[0], args)] + BindAll(xs[1..], args)
  }

  /** The tree without one-child conjunctions and disjunctions. */
  function Collapse(c: Condition): Condition
    decreases c, 0
  {
    if (c.op == AND || c.op == OR) && |c.children| == 1 then Collapse(c.children[0])
    else if Logical(c.op) then Node(c.op, CollapseAll(c.children))
    else c
  }

  function CollapseAll(cs: seq<Condition>): (r: seq<Condition>)
    ensures |r| == |cs| && forall i :: 0 <= i < |cs| ==> r[i] == Collapse(cs[i])
    decreases cs, 1
  {
    if cs == [] then [] else [Collapse(cs[0])] + CollapseAll(cs[1..])
  }

  /** Collapsing keeps the meaning on every row. */
  lemma {:induction false} CollapseKeepsMeaning(c: Condition, row: Row)
    requires Shaped(c)
    ensures Meaning(Collapse(c), row) == Meaning(c, row)
    decreases c, 0
  {
    if Logical(c.op) {
      forall i | 0 <= i < |c.children|
        ensures Meaning(Collapse(c.children[i]), row) == Meaning(c.children[i], row)
      {
        CollapseKeepsMeaning(c.children[i], row);
      }
      assert Meanings(CollapseAll(c.children), row) == Meanings(c.children, row);
      if |c.children| == 1 {
        ThreeTruths(Meaning(c.children[0], row));
      }
    }
  }

  lemma LeafBinds(c: Condition, n: nat, args: seq<Value>, pre: seq<Value>, post: seq<Value>)
    requires Shaped(c) && !Logical(c.op) && |pre| == n && args == pre + LeafArgs(c) + post
    ensures Bind(Test(c.field, OpName(c.op), Upto(n, |LeafArgs(c)|)), args) == c
  {
    OpBack(c.op);
    hide FieldName, OpName, OpOf, Shaped;
    assert forall i :: 0 <= i < |LeafArgs(c)| ==> Arg(args, n + i) == LeafArgs(c)[i];
    assert ArgList(args, Upto(n, |LeafArgs(c)|)) == LeafArgs(c);
    LeafValueBack(c);
  }

  lemma OpBack(op: string)
    requires LeafOp(op)
    ensures OpOf(OpName(op)) == op
  {
  }

  lemma LeafValueBack(c: Condition)
    requires Shaped(c) && !Logical(c.op)
    ensures c == Condition(c.op, [], c.field,
      if c.op == IN || c.op == NOT_IN || c.op == BETWEEN then Arr(LeafArgs(c)) else if LeafArgs(c) == [] then Null else LeafArgs(c)[0])
  {
  }

  lemma {:induction false} FormBinds(c: Condition, n: nat, args: seq<Value>, pre: seq<Value>, post: seq<Value>)
    requires Shaped(c) && |pre| == n && args == pre + Args(c) + post
    ensures Bind(Form(c, n), args) == Collapse(c)
    decreases c, 0
  {
    if c.op == AND || c.op == OR {
      FormsBind(c.children, n, args, pre, post);
      if |c.children| == 1 {
        assert Args(c) == Args(c.children[0]) + [];
        FormBinds(c.children[0], n, args, pre, post);
      }
    } else if c.op == NOT {
      FormBinds(c.children[0], n, args, pre, post);
      assert CollapseAll(c.children) == [Collapse(c.children[0])];
    } else {
      LeafBinds(c, n, args, pre, post);
    }
  }

  lemma {:induction false} FormsBind(cs: seq<Condition>, n: nat, args: seq<Value>, pre: seq<Value>, post: seq<Value>)
    requires (forall i :: 0 <= i < |cs| ==> Shaped(cs[i])) && |pre| == n && args == pre + ArgsOf(cs) + post
    ensures BindAll(Forms(cs, n), args) == CollapseAll(cs)
    decreases cs, 1
  {
    hide Bind, Form, Collapse;
    if cs != [] {
      assert args == pre + Args(cs[0]) + (ArgsOf(cs[1..]) + post);
      assert args == (pre + Args(cs[0])) + ArgsOf(cs[1..]) + post;
      FormBinds(cs[0], n, args, pre, ArgsOf(cs[1..]) + post);
      FormsBind(cs[1..], n + |Args(cs[0])|, args, pre + Args(cs[0]), post);
      assert Forms(cs, n)[1..] == Forms(cs[1..], n + |Args(cs[0])|);
    }
  }

  // ---------------------------------------------------------------- the theorem

  /**
   Reading a printed tree back and binding its arguments from left to right gives the tree up to one-child conjunctions
   and disjunctions, exactly when no field is spelled like a keyword.
   */
  lemma PrintedReadsBack(c: Condition)
    requires Shaped(c)
    ensures PlainFields(c) <==> Parse(Printed(c), 0).Some? && Bind(Parse(Printed(c), 0).value, Args(c)) == Collapse(c)
    ensures !PlainFields(c) ==> Parse(Printed(c), 0) == None
  {
    LexPrinted(c, 0);
    assert Tokens(c, 0) + [] == Tokens(c, 0);
    if PlainFields(c) {
      ParsesBack(c, 0, []);
      OneParsed(Tokens(c, 0), Form(c, 0), []);
      assert [] + Args(c) + [] == Args(c);
      FormBinds(c, 0, Args(c), [], []);
    } else {
      HiddenKeywordFails(c, 0, []);
      FirstFails(Tokens(c, 0));
    }
  }
}
