/** The client SDK: a filter result in a database's placeholder style, and its conjunction with the caller's own condition. */
module SydomSql {

  import opened Text
  import opened Tables
  import opened Conditions
  import opened DataTable
  import opened Filter
  import opened RowAccess
  import opened RenderSql
  import opened SqlText
  import opened SqlRoundTrip
  import opened Iac

  datatype Dialect = Postgres | Question
  datatype Kind = MatchAll | MatchNone | Conditional
  datatype Clause = Clause(kind: Kind, sql: string, args: seq<Value>)
  datatype SqlError = MarksDiffer(marks: nat, args: nat)

  // ---------------------------------------------------------------- numbering placeholders

  /** Every question mark becomes $ and the next number after `n`. */
  function Dollars(s: string, n: nat): string {
    if s == "" then ""
    else if s[0] == '?' then "$" + Itoa(n + 1) + Dollars(s[1..], n + 1)
    else [s[0]] + Dollars(s[1..], n)
  }

  method ToDollar(s: string, start: nat) returns (r: string)
    ensures r == Dollars(s, start)
  {
    r := "";
    var idx := start;
    for i := 0 to |s|
      invariant Dollars(s, start) == r + Dollars(s[i..], idx)
    {
      assert s[i..][0] == s[i] && s[i..][1..] == s[i + 1..];
      if s[i] == '?' {
        idx := idx + 1;
        r := r + "$" + Itoa(idx);
      } else {
        r := r + [s[i]];
      }
    }
    assert s[|s|..] == "";
  }

  /** No dollar sign, and no word character right after a question mark. */
  predicate CleanMarks(s: string) {
    '$' !in s && forall i :: 0 <= i < |s| - 1 && s[i] == '?' ==> !IdentChar(s[i + 1])
  }

  lemma CleanJoin(a: string, b: string)
    requires CleanMarks(a) && CleanMarks(b)
    requires a == "" || b == "" || a[|a| - 1] != '?' || !IdentChar(b[0])
    ensures CleanMarks(a + b)
  {
  }

  lemma CleanNoMarks(s: string)
    requires '$' !in s && '?' !in s
    ensures CleanMarks(s)
  {
  }

  /** The text up to the first question mark. */
  function FirstMark(s: string): (j: nat)
    ensures j <= |s| && '?' !in s[..j] && (j < |s| ==> s[j] == '?')
  {
    if s == "" || s[0] == '?' then 0
    else
      assert s == [s[0]] + s[1..];
      1 + FirstMark(s[1..])
  }

  lemma {:induction false} DollarsAfter(a: string, b: string, n: nat)
    requires '?' !in a
    ensures Dollars(a + b, n) == a + Dollars(b, n)
  {
    if a == "" {
      assert a + b == b;
    } else {
      assert (a + b)[1..] == a[1..] + b;
      DollarsAfter(a[1..], b, n);
      assert a == [a[0]] + a[1..];
    }
  }

  lemma NumeralIsIdent(n: nat)
    ensures forall i :: 0 <= i < |Itoa(n)| ==> IdentChar(Itoa(n)[i]) && Itoa(n)[i] != '?'
  {
    assert forall i :: 0 <= i < |Itoa(n)| ==> IsDigit(Itoa(n)[i]);
  }

  lemma {:induction false} AllDigitsLength(s: string)
    requires AllDigits(s)
    ensures DigitsLength(s) == |s|
  {
    if s != "" {
      AllDigitsLength(s[1..]);
    }
  }

  /** A numbered placeholder names the argument with that number. */
  lemma LexDollar(n: nat, m: nat)
    ensures Lex("$" + Itoa(n + 1), m) == [Param(n)] && Questions("$" + Itoa(n + 1)) == 0
  {
    var s := "$" + Itoa(n + 1);
    assert s[1..] == Itoa(n + 1);
    AllDigitsLength(Itoa(n + 1));
    AtoiItoa(n + 1);
    assert Itoa(n + 1)[..|Itoa(n + 1)|] == Itoa(n + 1);
    assert s[|s|..] == "";
    NumeralIsIdent(n + 1);
    NoQuestions(s);
  }

  lemma CleanFrom(s: string, k: nat)
    requires CleanMarks(s) && k <= |s|
    ensures CleanMarks(s[k..])
  {
    var rest := s[k..];
    forall i | 0 <= i < |rest| - 1 && rest[i] == '?'
      ensures !IdentChar(rest[i + 1])
    {
      assert s[k + i] == '?';
    }
  }

  lemma CleanUpTo(s: string, k: nat)
    requires CleanMarks(s) && k <= |s|
    ensures CleanMarks(s[..k])
  {
    var front := s[..k];
    forall i | 0 <= i < |front| - 1 && front[i] == '?'
      ensures !IdentChar(front[i + 1])
    {
      assert s[i] == '?';
    }
  }

  lemma SplitAt(s: string, j: nat)
    requires j < |s| && s[j] == '?'
    ensures s == s[..j] + ("?" + s[j + 1..])
  {
    assert s[j..] == "?" + s[j + 1..];
    assert s == s[..j] + s[j..];
  }

  /** Splits a text at its first mark; the rest starts with nothing that a number could run into. */
  lemma SplitAtMark(s: string, j: nat)
    requires CleanMarks(s) && j == FirstMark(s) && j < |s|
    ensures s == s[..j] + ("?" + s[j + 1..]) && CleanMarks(s[j + 1..]) && CleanMarks(s[..j])
    ensures s[j + 1..] == "" || !IdentChar(s[j + 1..][0])
  {
    assert s[j] == '?' && (j + 1 < |s| ==> !IdentChar(s[j + 1]));
    hide CleanMarks, FirstMark, IdentChar;
    SplitAt(s, j);
    CleanFrom(s, j + 1);
    CleanUpTo(s, j);
  }

  lemma DollarSeam(n: nat, rest: string)
    requires rest == "" || !IdentChar(rest[0])
    ensures Seam("$" + Itoa(n + 1), rest)
  {
    NumeralIsIdent(n + 1);
    var s := "$" + Itoa(n + 1);
    assert s[|s| - 1] == Itoa(n + 1)[|Itoa(n + 1)| - 1];
  }

  /** A rest that does not start with a word character or a comparison is not affected by the renumbering of what precedes it. */
  lemma DollarsHead(s: string, n: nat)
    ensures s != "" && s[0] != '?' ==> Dollars(s, n) != "" && Dollars(s, n)[0] == s[0]
    ensures s != "" && s[0] == '?' ==> Dollars(s, n) != "" && Dollars(s, n)[0] == '$'
    ensures s == "" ==> Dollars(s, n) == ""
  {
  }

  /**
   The renumbered text has the tokens of the original with its marks counted from `n`:
   placeholder i of the text names argument n + i, and no number runs into what follows.
   */
  lemma {:induction false} DollarsNameArguments(s: string, n: nat, m: nat)
    requires CleanMarks(s)
    ensures Lex(Dollars(s, n), m) == Lex(s, n)
    decreases |s|
  {
    var j := FirstMark(s);
    var a := s[..j];
    if j == |s| {
      assert s == a + "" && a == s;
      DollarsAfter(a, "", n);
      UnmarkedLex(a, m, n);
    } else {
      var rest := s[j + 1..];
      SplitAtMark(s, j);
      DollarsNameArguments(rest, n + 1, m);
      DollarsAfter(a, "?" + rest, n);
      assert ("?" + rest)[1..] == rest;
      DollarsHead(rest, n + 1);
      hide Lex, Dollars;
      UnmarkedLex(a, m, n);
      LexMarkThen(rest, n);
      LexDollarThen(n, m, Dollars(rest, n + 1));
      LexUnmarkedThen(a, "?" + rest, n);
      LexUnmarkedThen(a, "$" + Itoa(n + 1) + Dollars(rest, n + 1), m);
    }
  }

  lemma LexMarkThen(rest: string, n: nat)
    ensures Lex("?" + rest, n) == [Param(n)] + Lex(rest, n + 1)
  {
    assert ("?" + rest)[1..] == rest;
  }

  lemma LexDollarThen(n: nat, m: nat, rest: string)
    requires rest == "" || !IdentChar(rest[0])
    ensures Lex("$" + Itoa(n + 1) + rest, m) == [Param(n)] + Lex(rest, m)
  {
    LexDollar(n, m);
    DollarSeam(n, rest);
    hide Lex, Seam;
    LexJoin("$" + Itoa(n + 1), rest, m, m);
  }

  /** Text before a placeholder lexes on its own, and the same whatever the count. */
  lemma LexUnmarkedThen(a: string, b: string, n: nat)
    requires '?' !in a && '$' !in a && b != "" && (b[0] == '?' || b[0] == '$')
    ensures Lex(a + b, n) == Lex(a, n) + Lex(b, n)
  {
    NoQuestions(a);
    assert Seam(a, b);
    hide Lex, Seam;
    LexJoin(a, b, n, n);
  }

  lemma {:induction false} UnmarkedLex(a: string, m: nat, n: nat)
    requires '?' !in a
    ensures Lex(a, m) == Lex(a, n)
    decreases |a|
  {
    if a != "" {
      var k := First(a, m).1;
      assert First(a, n) == First(a, m);
      assert '?' !in a[k..];
      UnmarkedLex(a[k..], m, n);
    }
  }

  // ---------------------------------------------------------------- recovering the text

  /** Every $ with its digits becomes a question mark again. */
  function Undollar(s: string): string
    decreases |s|
  {
    if s == "" then ""
    else if s[0] == '$' then "?" + Undollar(s[1..][DigitsLength(s[1..])..])
    else [s[0]] + Undollar(s[1..])
  }

  lemma UndollarNumber(k: nat, rest: string)
    requires rest == "" || !IdentChar(rest[0])
    ensures Undollar("$" + Itoa(k) + rest) == "?" + Undollar(rest)
  {
    var all := "$" + Itoa(k) + rest;
    assert all[1..] == Itoa(k) + rest;
    DigitsStop(Itoa(k), rest);
    assert (Itoa(k) + rest)[|Itoa(k)|..] == rest;
  }

  /** Replacing every numbered placeholder by a mark recovers the text. */
  lemma {:induction false} DollarsAreRecoverable(s: string, n: nat)
    requires CleanMarks(s)
    ensures Undollar(Dollars(s, n)) == s
    decreases |s|
  {
    if s != "" {
      assert s == [s[0]] + s[1..];
      CleanFrom(s, 1);
      if s[0] == '?' {
        DollarsAreRecoverable(s[1..], n + 1);
        DollarsHead(s[1..], n + 1);
        UndollarNumber(n + 1, Dollars(s[1..], n + 1));
      } else {
        DollarsAreRecoverable(s[1..], n);
        assert ([s[0]] + Dollars(s[1..], n))[1..] == Dollars(s[1..], n);
      }
    }
  }

  lemma {:induction false} DigitsStop(a: string, b: string)
    requires AllDigits(a) && (b == "" || !IsDigit(b[0]))
    ensures DigitsLength(a + b) == |a|
  {
    if a == "" {
      assert a + b == b;
    } else {
      assert (a + b)[1..] == a[1..] + b;
      DigitsStop(a[1..], b);
    }
  }

  // ---------------------------------------------------------------- the renderer's texts are clean

  lemma {:induction false} MarksAreClean(k: nat)
    ensures CleanMarks(Marks(k))
  {
    if k > 1 {
      MarksAreClean(k - 1);
      CleanJoin(Marks(k - 1), ", ?");
    }
  }

  lemma LeafIsClean(c: Condition)
    requires Shaped(c) && !Logical(c.op)
    ensures CleanMarks(LeafText(c))
  {
    NoMarkInWords(c.field, c.op);
    assert '$' !in c.field by {
      assert forall i :: 0 <= i < |c.field| ==> IdentChar(c.field[i]);
    }
    LeafSplits(c);
    CleanNoMarks(c.field);
    AfterFieldIsClean(c);
    hide LeafText, AfterField, FieldName;
    CleanJoin(c.field, AfterField(c));
  }

  lemma AfterFieldIsClean(c: Condition)
    requires Prints(c)
    ensures CleanMarks(AfterField(c))
  {
    if c.op == IN {
      ListIsClean(" IN", |c.value.items|);
    } else if c.op == NOT_IN {
      ListIsClean(" NOT IN", |c.value.items|);
    } else if c.op != IS_NULL && c.op != IS_NOT_NULL && c.op != BETWEEN {
      ComparisonIsClean(Comparator(c.op));
    } else {
      hide Marks, Comparator;
    }
  }

  lemma ComparisonIsClean(op: string)
    requires '?' !in op && '$' !in op
    ensures CleanMarks(" " + op + " ?")
  {
    CleanNoMarks(" " + op);
    CleanJoin(" " + op, " ?");
  }

  lemma ListIsClean(head: string, k: nat)
    requires '?' !in head && '$' !in head
    ensures CleanMarks(head + " (" + Marks(k) + ")")
  {
    MarksAreClean(k);
    CleanNoMarks(head + " (");
    CleanNoMarks(")");
    CleanJoin(head + " (", Marks(k));
    CleanJoin(head + " (" + Marks(k), ")");
  }

  lemma WrappedIsClean(open: string, inner: string)
    requires CleanMarks(inner) && '?' !in open && '$' !in open
    ensures CleanMarks(open + inner + ")")
  {
    CleanNoMarks(open);
    CleanNoMarks(")");
    CleanJoin(open, inner);
    CleanJoin(open + inner, ")");
  }

  lemma {:induction false} PrintedIsClean(c: Condition)
    requires Shaped(c)
    ensures CleanMarks(Printed(c))
    decreases c, 0
  {
    hide CleanMarks;
    if c.op == AND || c.op == OR {
      PrintedAllIsClean(c.children, Separator(c.op));
      WrappedIsClean("(", PrintedAll(c.children, Separator(c.op)));
    } else if c.op == NOT {
      PrintedIsClean(c.children[0]);
      WrappedIsClean("NOT (", Printed(c.children[0]));
    } else {
      LeafIsClean(c);
    }
  }

  lemma SeparatedIsClean(a: string, sep: string, b: string)
    requires CleanMarks(a) && CleanMarks(b) && '?' !in sep && '$' !in sep && sep != "" && sep[0] == ' '
    ensures CleanMarks(a + sep + b)
  {
    CleanNoMarks(sep);
    CleanJoin(a, sep);
    assert (a + sep)[|a + sep| - 1] == sep[|sep| - 1];
    CleanJoin(a + sep, b);
  }

  lemma {:induction false} PrintedAllIsClean(cs: seq<Condition>, sep: string)
    requires (forall i :: 0 <= i < |cs| ==> Shaped(cs[i])) && '?' !in sep && '$' !in sep && sep != "" && sep[0] == ' '
    ensures CleanMarks(PrintedAll(cs, sep))
    decreases cs, 1
  {
    hide CleanMarks, Printed;
    if cs == [] {
      CleanNoMarks("");
    } else {
      PrintedIsClean(cs[0]);
      PrintedAllIsClean(cs[1..], sep);
      if |cs| > 1 {
        SeparatedIsClean(Printed(cs[0]), sep, PrintedAll(cs[1..], sep));
      }
    }
  }

  // ---------------------------------------------------------------- clauses

  /** How many question marks, counted one by one. */
  method CountMarksOf(s: string) returns (n: nat)
    ensures n == Questions(s)
  {
    n := 0;
    for i := 0 to |s|
      invariant Questions(s) == n + Questions(s[i..])
    {
      assert s[i..][0] == s[i] && s[i..][1..] == s[i + 1..];
      if s[i] == '?' {
        n := n + 1;
      }
    }
    assert s[|s|..] == "";
  }

  /** The clause of a filter result; a fragment whose marks and arguments differ in number is refused. */
  method Build(fr: SqlResult, d: Dialect, start: nat) returns (r: Result<Clause, SqlError>)
    ensures fr.sql == "" ==> r == Success(Clause(MatchAll, "", []))
    ensures fr.sql == DENY_ALL ==> r == Success(Clause(MatchNone, DENY_ALL, []))
    ensures fr.sql != "" && fr.sql != DENY_ALL ==>
      r == if Questions(fr.sql) != |fr.args| then Failure(MarksDiffer(Questions(fr.sql), |fr.args|))
           else Success(Clause(Conditional, if d == Postgres then Dollars(fr.sql, start) else fr.sql, fr.args))
  {
    if fr.sql == "" {
      return Success(Clause(MatchAll, "", []));
    }
    if fr.sql == DENY_ALL {
      return Success(Clause(MatchNone, DENY_ALL, []));
    }
    var n := CountMarksOf(fr.sql);
    if n != |fr.args| {
      return Failure(MarksDiffer(n, |fr.args|));
    }
    var sql := fr.sql;
    if d == Postgres {
      sql := ToDollar(fr.sql, start);
    }
    return Success(Clause(Conditional, sql, fr.args));
  }

  function KindOf(plan: Plan): Kind {
    match plan
    case NoFilter => MatchAll
    case DenyAll => MatchNone
    case Tree(_) => Conditional
  }

  /** The sidecar's results are never refused, and their kind is the mode of the plan. */
  method BuildRendered(plan: Plan, d: Dialect, start: nat) returns (r: Result<Clause, SqlError>)
    requires plan.Tree? ==> Shaped(plan.c)
    ensures r.Success? && r.value.kind == KindOf(plan)
    ensures plan.Tree? ==> r.value.args == Args(plan.c)
  {
    if plan.Tree? {
      TreeIsNeitherEmptyNorDenyAll(plan.c);
      CountIsArgs(plan.c);
    }
    var fr := FilterSql(plan);
    r := Build(fr, d, start);
  }

  function Conjoined(base: string, frag: string): string {
    "(" + base + ") AND (" + frag + ")"
  }

  /** The fragment in the dialect's style, its placeholders counted on from the caller's arguments. */
  function Styled(fr: SqlResult, d: Dialect, start: nat): string {
    if d == Postgres then Dollars(fr.sql, start) else fr.sql
  }

  /** The caller's condition and a fragment under one WHERE; an empty condition leaves the fragment alone. */
  function Where(base: string, frag: string): string {
    if base == "" then frag else Conjoined(base, frag)
  }

  /** Puts the data permission under the caller's condition, its arguments after the caller's. */
  method AndWhere(base: string, baseArgs: seq<Value>, fr: SqlResult, d: Dialect) returns (r: Result<(string, seq<Value>), SqlError>)
    ensures r.Failure? <==> fr.sql != "" && fr.sql != DENY_ALL && Questions(fr.sql) != |fr.args|
    ensures fr.sql == "" ==> r == Success((base, baseArgs))
    ensures fr.sql == DENY_ALL ==> r == Success((Where(base, DENY_ALL), baseArgs))
    ensures fr.sql != "" && fr.sql != DENY_ALL && r.Success? ==>
      r.value == (Where(base, Styled(fr, d, |baseArgs|)), baseArgs + fr.args)
  {
    var clause := Build(fr, d, |baseArgs|);
    if clause.Failure? {
      return Failure(clause.error);
    }
    match clause.value.kind
    case MatchAll => return Success((base, baseArgs));
    case MatchNone =>
      return Success((if base == "" then DENY_ALL else "(" + base + ") AND (" + DENY_ALL + ")", baseArgs));
    case Conditional =>
      var merged := baseArgs + clause.value.args;
      return Success((if base == "" then clause.value.sql else "(" + base + ") AND (" + clause.value.sql + ")", merged));
  }

  // ---------------------------------------------------------------- the conjunction reads back

  lemma {:induction false} ExtendParams(ts: seq<Token>, tail: seq<Token>)
    requires Params(ts).Some?
    ensures Params(ts + tail) == Some((Params(ts).value.0, Params(ts).value.1 + tail))
  {
    assert (ts + tail)[2..] == ts[2..] + tail;
    if ts[1] != RParen {
      ExtendParams(ts[2..], tail);
    }
  }

  lemma ExtendList(f: string, op: string, ts: seq<Token>, tail: seq<Token>)
    requires List(f, op, ts).Some?
    ensures List(f, op, ts + tail) == Some((List(f, op, ts).value.0, List(f, op, ts).value.1 + tail))
  {
    assert (ts + tail)[1..] == ts[1..] + tail;
    ExtendParams(ts[1..], tail);
  }

  lemma ExtendOne(f: string, op: string, ts: seq<Token>, tail: seq<Token>)
    requires One(f, op, ts).Some?
    ensures One(f, op, ts + tail) == Some((One(f, op, ts).value.0, One(f, op, ts).value.1 + tail))
  {
    assert (ts + tail)[1..] == ts[1..] + tail;
  }

  lemma ExtendTest(ts: seq<Token>, tail: seq<Token>)
    requires ParseTest(ts).Some?
    ensures ParseTest(ts + tail) == Some((ParseTest(ts).value.0, ParseTest(ts).value.1 + tail))
  {
    var all := ts + tail;
    assert all[0] == ts[0] && all[1] == ts[1];
    hide One, List;
    if ts[0].Int? {
      assert all[2] == ts[2] && all[3..] == ts[3..] + tail;
      return;
    }
    var f := ts[0].s;
    if ts[1].Cmp? || ts[1] == Kw("LIKE") {
      assert all[2..] == ts[2..] + tail;
      ExtendOne(f, if ts[1].Cmp? then ts[1].op else "LIKE", ts[2..], tail);
    } else if ts[1] == Kw("IN") {
      assert all[2..] == ts[2..] + tail;
      ExtendList(f, "IN", ts[2..], tail);
    } else if ts[1] == Kw("BETWEEN") {
      assert all[5..] == ts[5..] + tail;
    } else if ts[1] == Kw("IS") {
      assert all[3..] == ts[3..] + tail;
      if ts[2] != Kw("NULL") {
        assert all[4..] == ts[4..] + tail;
      }
    } else {
      assert all[3..] == ts[3..] + tail;
      if ts[2] == Kw("LIKE") {
        ExtendOne(f, "NOT LIKE", ts[3..], tail);
      } else {
        ExtendList(f, "NOT IN", ts[3..], tail);
      }
    }
  }

  /** A parse does not look beyond the parenthesis that closes it. */
  lemma {:induction false} ExtendNot(ts: seq<Token>, tail: seq<Token>)
    requires ParseNot(ts).Some? && StartsWith(tail, RParen)
    ensures ParseNot(ts + tail) == Some((ParseNot(ts).value.0, ParseNot(ts).value.1 + tail))
    decreases |ts|, 2
  {
    hide ParseTest, ParseOr;
    assert ts != [] && (ts + tail)[0] == ts[0] && (ts + tail)[1..] == ts[1..] + tail;
    if ts[0] == Kw("NOT") {
      ExtendNot(ts[1..], tail);
    } else if ts[0] == LParen {
      ExtendOr(ts[1..], tail);
      var rest := ParseOr(ts[1..]).value.1;
      assert (rest + tail)[1..] == rest[1..] + tail;
    } else {
      ExtendTest(ts, tail);
    }
  }

  lemma {:induction false} ExtendMoreAnd(ts: seq<Token>, tail: seq<Token>)
    requires MoreAnd(ts).Some? && StartsWith(tail, RParen)
    ensures MoreAnd(ts + tail) == Some((MoreAnd(ts).value.0, MoreAnd(ts).value.1 + tail))
    decreases |ts|, 5
  {
    hide ParseNot;
    if ts == [] {
      assert ts + tail == tail;
    } else if ts[0] == Kw("AND") {
      assert (ts + tail)[1..] == ts[1..] + tail;
      ExtendNot(ts[1..], tail);
      ExtendMoreAnd(ParseNot(ts[1..]).value.1, tail);
    }
  }

  lemma {:induction false} ExtendAnd(ts: seq<Token>, tail: seq<Token>)
    requires ParseAnd(ts).Some? && StartsWith(tail, RParen)
    ensures ParseAnd(ts + tail) == Some((ParseAnd(ts).value.0, ParseAnd(ts).value.1 + tail))
    decreases |ts|, 3
  {
    hide ParseNot, MoreAnd;
    ExtendNot(ts, tail);
    ExtendMoreAnd(ParseNot(ts).value.1, tail);
  }

  lemma {:induction false} ExtendMoreOr(ts: seq<Token>, tail: seq<Token>)
    requires MoreOr(ts).Some? && StartsWith(tail, RParen)
    ensures MoreOr(ts + tail) == Some((MoreOr(ts).value.0, MoreOr(ts).value.1 + tail))
    decreases |ts|, 5
  {
    hide ParseAnd;
    if ts == [] {
      assert ts + tail == tail;
    } else if ts[0] == Kw("OR") {
      assert (ts + tail)[1..] == ts[1..] + tail;
      ExtendAnd(ts[1..], tail);
      ExtendMoreOr(ParseAnd(ts[1..]).value.1, tail);
    }
  }

  lemma {:induction false} ExtendOr(ts: seq<Token>, tail: seq<Token>)
    requires ParseOr(ts).Some? && StartsWith(tail, RParen)
    ensures ParseOr(ts + tail) == Some((ParseOr(ts).value.0, ParseOr(ts).value.1 + tail))
    decreases |ts|, 4
  {
    hide ParseAnd, MoreOr;
    ExtendAnd(ts, tail);
    ExtendMoreOr(ParseAnd(ts).value.1, tail);
  }

  /** Two parenthesised conditions with AND between them parse as their conjunction. */
  lemma ConjunctionParses(a: seq<Token>, b: seq<Token>, x: Sql, y: Sql)
    requires ParseOr(a) == Some((x, [])) && ParseOr(b) == Some((y, []))
    ensures ParseOr([LParen] + a + [RParen, Kw("AND"), LParen] + b + [RParen]) == Some((AllOf([x, y]), []))
  {
    var second := [LParen] + b + [RParen];
    assert [LParen] + a + [RParen, Kw("AND"), LParen] + b + [RParen] == [LParen] + a + [RParen] + ([Kw("AND")] + second);
    hide ParseOr, ParseNot, MoreAnd;
    ClosedParses(a, x, [Kw("AND")] + second);
    ClosedParses(b, y, []);
    assert second + [] == second;
    NoMore([]);
    OneMore(AND, second, y, [], [], []);
    assert [y] + [] == [y] && [x] + [y] == [x, y];
    ChainParsed(AND, [LParen] + a + [RParen] + ([Kw("AND")] + second), x, [Kw("AND")] + second, [y], []);
  }

  /** A condition in parentheses parses whatever follows. */
  lemma ClosedParses(a: seq<Token>, x: Sql, rest: seq<Token>)
    requires ParseOr(a) == Some((x, []))
    ensures ParseNot([LParen] + a + [RParen] + rest) == Some((x, rest))
  {
    hide ParseOr, ParseNot;
    ExtendOr(a, [RParen] + rest);
    assert [] + ([RParen] + rest) == [RParen] + rest;
    ParenBack(a, x, rest);
  }

  lemma LexConjoined(base: string, frag: string, n: nat, m: nat)
    requires m == n + Questions(base)
    ensures Lex(Conjoined(base, frag), n) == [LParen] + Lex(base, n) + [RParen, Kw("AND"), LParen] + Lex(frag, m) + [RParen]
  {
    hide Lex, Questions;
    var left, right := "(" + base + ")", "(" + frag + ")";
    LexParens(base, n, m);
    LexParens(frag, m, m + Questions(frag));
    QuestionsAround("(", base);
    LexAnd(left, right, n, m);
    assert Conjoined(base, frag) == left + (" AND " + right);
    TokensConjoined(Lex(base, n), Lex(frag, m));
  }

  lemma LexAnd(left: string, right: string, n: nat, m: nat)
    requires m == n + Questions(left) && left != "" && right != ""
    ensures Lex(left + (" AND " + right), n) == Lex(left, n) + ([Kw("AND")] + Lex(right, m))
  {
    LexSeparator(AND, m);
    EasySeams(left, " AND " + right);
    hide Lex, Questions, Seam;
    LexThen(" AND ", right, m);
    LexJoin(left, " AND " + right, n, m);
  }

  lemma TokensConjoined(a: seq<Token>, b: seq<Token>)
    ensures ([LParen] + a + [RParen]) + ([Kw("AND")] + ([LParen] + b + [RParen])) == [LParen] + a + [RParen, Kw("AND"), LParen] + b + [RParen]
  {
  }

  lemma QuestionsAround(open: string, s: string)
    requires '?' !in open
    ensures Questions(open + s + ")") == Questions(s)
  {
    NoQuestions(open);
    NoQuestions(")");
    QuestionsJoin(open, s);
    QuestionsJoin(open + s, ")");
  }

  /** The condition only names arguments below the bound. */
  predicate ParamsBelow(x: Sql, n: nat)
    decreases x
  {
    match x
    case AllOf(parts) => forall i :: 0 <= i < |parts| ==> ParamsBelow(parts[i], n)
    case AnyOf(parts) => forall i :: 0 <= i < |parts| ==> ParamsBelow(parts[i], n)
    case NotOf(part) => ParamsBelow(part, n)
    case Test(_, _, ps) => forall i :: 0 <= i < |ps| ==> ps[i] < n
    case Constant(_) => true
  }

  lemma {:induction false} BindIgnoresMore(x: Sql, args: seq<Value>, more: seq<Value>)
    requires ParamsBelow(x, |args|)
    ensures Bind(x, args + more) == Bind(x, args)
    decreases x, 0
  {
    match x
    case AllOf(parts) => BindAllIgnoresMore(parts, args, more);
    case AnyOf(parts) => BindAllIgnoresMore(parts, args, more);
    case NotOf(part) => BindIgnoresMore(part, args, more);
    case Test(_, _, ps) =>
      assert ArgList(args + more, ps) == ArgList(args, ps);
    case Constant(_) =>
  }

  lemma {:induction false} BindAllIgnoresMore(xs: seq<Sql>, args: seq<Value>, more: seq<Value>)
    requires forall i :: 0 <= i < |xs| ==> ParamsBelow(xs[i], |args|)
    ensures BindAll(xs, args + more) == BindAll(xs, args)
    decreases xs, 1
  {
    if xs != [] {
      BindIgnoresMore(xs[0], args, more);
      BindAllIgnoresMore(xs[1..], args, more);
    }
  }

  /** The fragment has the tokens of its tree, its placeholders numbered from the caller's arguments on. */
  lemma LexFragment(c: Condition, d: Dialect, n: nat, m: nat)
    requires Shaped(c) && (d == Question ==> m == n)
    ensures Lex(Styled(SqlOf(Tree(c)), d, n), m) == Tokens(c, n)
  {
    LexPrinted(c, n);
    if d == Postgres {
      PrintedIsClean(c);
      DollarsNameArguments(Printed(c), n, m);
    }
  }

  /**
   The caller's condition and the data permission come out as their conjunction, with every placeholder bound to its own argument:
   in the numbered style the caller uses $1 to $n for its n arguments, in the other style n question marks. Without a condition
   of the caller's, the permission stands alone.
   */
  lemma AndWhereConjoins(base: string, baseArgs: seq<Value>, b: Sql, c: Condition, d: Dialect)
    requires Shaped(c) && PlainFields(c) && (d == Question ==> Questions(base) == |baseArgs|)
    requires base != "" ==> Parse(base, 0) == Some(b) && ParamsBelow(b, |baseArgs|)
    ensures var frag := Form(c, |baseArgs|);
      && Parse(Where(base, Styled(SqlOf(Tree(c)), d, |baseArgs|)), 0) == Some(if base == "" then frag else AllOf([b, frag]))
      && Bind(if base == "" then frag else AllOf([b, frag]), baseArgs + Args(c))
         == if base == "" then Collapse(c) else Node(AND, [Bind(b, baseArgs), Collapse(c)])
  {
    var n := |baseArgs|;
    LexFragment(c, d, n, Questions(base));
    hide Lex;
    FragmentParses(c, n);
    assert baseArgs + Args(c) == baseArgs + Args(c) + [];
    FormBinds(c, n, baseArgs + Args(c), baseArgs, []);
    if base != "" {
      LexConjoined(base, Styled(SqlOf(Tree(c)), d, n), 0, Questions(base));
      ConjunctionParses(Lex(base, 0), Tokens(c, n), b, Form(c, n));
      BindIgnoresMore(b, baseArgs, Args(c));
      BindTwo(b, Form(c, n), baseArgs + Args(c));
    }
  }

  const NEVER := Constant(false)

  lemma LexDenyAll(n: nat)
    ensures Lex(DENY_ALL, n) == [Int(1), Cmp("="), Int(0)] && Questions(DENY_ALL) == 0
  {
    NoQuestions(DENY_ALL);
    assert Lex("=", n) == [Cmp("=")] by {
      LexChar("=", n);
    }
    LexDigit("1", n, 1);
    LexDigit("0", n, 0);
    assert "1" + ("=" + "0") == DENY_ALL;
    hide Lex, Questions;
    NoQuestions("=");
    NoQuestions("1");
    LexJoin("=", "0", n, n);
    LexJoin("1", "=" + "0", n, n);
  }

  lemma LexDigit(s: string, n: nat, k: nat)
    requires |s| == 1 && IsDigit(s[0]) && DigitValue(s[0]) == k
    ensures Lex(s, n) == [Int(k)]
  {
    assert s[..1] == s && s[1..] == "" && s[..0] == "";
    assert DigitsLength(s[1..]) == 0 && Atoi(s[..0]) == 0 && Lex(s[1..], n) == [];
  }

  /** A deny-all result turns every condition of the caller's into one that is false of every row, whatever the arguments. */
  lemma DenyAllPassesNothing(base: string, b: Sql, args: seq<Value>, row: Row)
    requires base != "" ==> Parse(base, 0) == Some(b)
    ensures var x := if base == "" then NEVER else AllOf([b, NEVER]);
      Parse(Where(base, DENY_ALL), 0) == Some(x) && Meaning(Bind(x, args), row) == False
  {
    var m := Questions(base);
    LexDenyAll(0);
    LexDenyAll(m);
    var ts := [Int(1), Cmp("="), Int(0)];
    NeverParses();
    NothingIsFalse(NEVER, args, row);
    hide Lex, ParseOr, Bind, Questions;
    if base != "" {
      LexConjoined(base, DENY_ALL, 0, m);
      ConjunctionParses(Lex(base, 0), ts, b, NEVER);
      BindTwo(b, NEVER, args);
      assert Meanings([Bind(b, args), Bind(NEVER, args)], row)[1] == False;
    }
  }

  lemma NeverParses()
    ensures ParseOr([Int(1), Cmp("="), Int(0)]) == Some((NEVER, []))
  {
    var ts := [Int(1), Cmp("="), Int(0)];
    assert ts[3..] == [];
    assert ParseNot(ts) == Some((NEVER, []));
    hide ParseNot;
    OneParsed(ts, NEVER, []);
  }

  lemma NothingIsFalse(x: Sql, args: seq<Value>, row: Row)
    requires x == NEVER
    ensures Meaning(Bind(x, args), row) == False
  {
    assert Meanings([], row) == [];
  }

  lemma FragmentParses(c: Condition, n: nat)
    requires Shaped(c) && PlainFields(c)
    ensures ParseOr(Tokens(c, n)) == Some((Form(c, n), []))
  {
    assert Tokens(c, n) + [] == Tokens(c, n);
    hide ParseOr, ParseNot, ParseAnd, Tokens, Form;
    ParsesBack(c, n, []);
    OneParsed(Tokens(c, n), Form(c, n), []);
  }

  lemma BindTwo(x: Sql, y: Sql, args: seq<Value>)
    ensures Bind(AllOf([x, y]), args) == Node(AND, [Bind(x, args), Bind(y, args)])
  {
    assert [x, y][1..] == [y] && [y][1..] == [];
    assert BindAll([y], args) == [Bind(y, args)];
  }

  // ---------------------------------------------------------------- any condition of the caller's

  /** Every parenthesis opened is closed, and none is closed that `depth` and the tokens before do not leave open. */
  predicate Balanced(ts: seq<Token>, depth: nat) {
    if ts == [] then depth == 0
    else if ts[0] == LParen then Balanced(ts[1..], depth + 1)
    else if ts[0] == RParen then depth > 0 && Balanced(ts[1..], depth - 1)
    else Balanced(ts[1..], depth)
  }

  /** The tokens up to the parenthesis that closes the group they are in, and those after it. */
  function Group(ts: seq<Token>, depth: nat): Option<(seq<Token>, seq<Token>)> {
    if ts == [] then None
    else if ts[0] == RParen && depth == 0 then Some(([], ts[1..]))
    else
      match Group(ts[1..], if ts[0] == LParen then depth + 1 else if ts[0] == RParen then depth - 1 else depth)
      case None => None
      case Some((inner, rest)) => Some(([ts[0]] + inner, rest))
  }

  /** The two operands of a text that is one group, AND, and another group. */
  function Operands(ts: seq<Token>): Option<(seq<Token>, seq<Token>)> {
    if !StartsWith(ts, LParen) then None
    else
      match Group(ts[1..], 0)
      case None => None
      case Some((left, rest)) =>
        if |rest| < 2 || rest[0] != Kw("AND") || rest[1] != LParen then None
        else
          match Group(rest[2..], 0)
          case None => None
          case Some((right, rest')) => if rest' == [] then Some((left, right)) else None
  }

  /** The truth of a text that is two groups with AND between them, when the database gives a group the truth `sense`. */
  function TruthOf(s: string, sense: seq<Token> -> Truth): Option<Truth> {
    match Operands(Lex(s, 0))
    case None => None
    case Some((left, right)) => Some(All([sense(left), sense(right)]))
  }

  lemma {:induction false} BalancedJoin(a: seq<Token>, b: seq<Token>, depth: nat, d: nat)
    requires Balanced(a, d) && Balanced(b, depth)
    ensures Balanced(a + b, d + depth)
  {
    if a == [] {
      assert a + b == b;
    } else {
      assert (a + b)[1..] == a[1..] + b;
      BalancedJoin(a[1..], b, depth, if a[0] == LParen then d + 1 else if a[0] == RParen then d - 1 else d);
    }
  }

  lemma BalancedGroup(a: seq<Token>)
    requires Balanced(a, 0)
    ensures Balanced([LParen] + a + [RParen], 0)
  {
    assert Balanced([RParen][1..], 0) && Balanced([RParen], 1);
    BalancedJoin(a, [RParen], 1, 0);
    assert ([LParen] + a + [RParen])[1..] == a + [RParen];
  }

  lemma {:induction false} FlatIsBalanced(ts: seq<Token>)
    requires LParen !in ts && RParen !in ts
    ensures Balanced(ts, 0)
  {
    if ts != [] {
      FlatIsBalanced(ts[1..]);
    }
  }

  lemma {:induction false} FlatParams(n: nat, k: nat)
    ensures LParen !in ParamTokens(n, k) && RParen !in ParamTokens(n, k)
  {
    if k > 1 {
      FlatParams(n, k - 1);
    }
  }

  lemma ListIsBalanced(head: seq<Token>, n: nat, k: nat)
    requires LParen !in head && RParen !in head
    ensures Balanced(head + ([LParen] + ParamTokens(n, k) + [RParen]), 0)
  {
    hide ParamTokens, Balanced;
    FlatIsBalanced(head);
    FlatParams(n, k);
    FlatIsBalanced(ParamTokens(n, k));
    BalancedGroup(ParamTokens(n, k));
    BalancedJoin(head, [LParen] + ParamTokens(n, k) + [RParen], 0, 0);
  }

  lemma LeafIsBalanced(c: Condition, n: nat)
    requires Prints(c)
    ensures Balanced(LeafTokens(c, n), 0)
  {
    hide Balanced, ParamTokens, Comparator, Keyword;
    if c.op == IN {
      ListIsBalanced([WordToken(c.field), Kw("IN")], n, |c.value.items|);
      assert LeafTokens(c, n) == [WordToken(c.field), Kw("IN")] + ([LParen] + ParamTokens(n, |c.value.items|) + [RParen]);
    } else if c.op == NOT_IN {
      ListIsBalanced([WordToken(c.field), Kw("NOT"), Kw("IN")], n, |c.value.items|);
      assert LeafTokens(c, n) == [WordToken(c.field), Kw("NOT"), Kw("IN")] + ([LParen] + ParamTokens(n, |c.value.items|) + [RParen]);
    } else {
      FlatIsBalanced(LeafTokens(c, n));
    }
  }

  /** A printed tree is balanced. */
  lemma {:induction false} PrintedIsBalanced(c: Condition, n: nat)
    requires Shaped(c)
    ensures Balanced(Tokens(c, n), 0)
    decreases c, 0
  {
    hide Balanced, LeafTokens, Args, Tail;
    if c.op == AND || c.op == OR {
      var m := n + |Args(c.children[0])|;
      PrintedIsBalanced(c.children[0], n);
      TailIsBalanced(c.op, c.children[1..], m);
      BalancedJoin(Tokens(c.children[0], n), Tail(c.op, c.children[1..], m), 0, 0);
      ListTokens(c, n);
      BalancedGroup(Tokens(c.children[0], n) + Tail(c.op, c.children[1..], m));
    } else if c.op == NOT {
      PrintedIsBalanced(c.children[0], n);
      BalancedGroup(Tokens(c.children[0], n));
      FlatIsBalanced([Kw("NOT")]);
      BalancedJoin([Kw("NOT")], [LParen] + Tokens(c.children[0], n) + [RParen], 0, 0);
      assert Tokens(c, n) == [Kw("NOT")] + ([LParen] + Tokens(c.children[0], n) + [RParen]);
    } else {
      LeafIsBalanced(c, n);
    }
  }

  lemma {:induction false} TailIsBalanced(op: string, cs: seq<Condition>, n: nat)
    requires forall i :: 0 <= i < |cs| ==> Shaped(cs[i])
    ensures Balanced(Tail(op, cs, n), 0)
    decreases cs, 0
  {
    hide Balanced, Args, Tail, Tokens;
    if cs == [] {
      TailNone(op, n);
      FlatIsBalanced([]);
    } else {
      var m := n + |Args(cs[0])|;
      PrintedIsBalanced(cs[0], n);
      TailIsBalanced(op, cs[1..], m);
      FlatIsBalanced([Kw(op)]);
      BalancedJoin(Tokens(cs[0], n), Tail(op, cs[1..], m), 0, 0);
      BalancedJoin([Kw(op)], Tokens(cs[0], n) + Tail(op, cs[1..], m), 0, 0);
      TailStep(op, cs, n);
    }
  }

  lemma {:induction false} GroupEnds(ts: seq<Token>, depth: nat, rest: seq<Token>)
    requires Balanced(ts, depth)
    ensures Group(ts + ([RParen] + rest), depth) == Some((ts, rest))
  {
    var all := ts + ([RParen] + rest);
    if ts == [] {
      assert all == [RParen] + rest && all[1..] == rest;
    } else {
      assert all[0] == ts[0] && all[1..] == ts[1..] + ([RParen] + rest);
      GroupEnds(ts[1..], if ts[0] == LParen then depth + 1 else if ts[0] == RParen then depth - 1 else depth, rest);
      assert [ts[0]] + ts[1..] == ts;
    }
  }

  lemma TwoGroups(a: seq<Token>, b: seq<Token>)
    requires Balanced(a, 0) && Balanced(b, 0)
    ensures Operands([LParen] + a + [RParen, Kw("AND"), LParen] + b + [RParen]) == Some((a, b))
  {
    var ts := [LParen] + a + [RParen, Kw("AND"), LParen] + b + [RParen];
    var rest := [Kw("AND"), LParen] + b + [RParen];
    assert ts[1..] == a + ([RParen] + rest);
    assert rest[2..] == b + ([RParen] + []);
    hide Group, Balanced;
    GroupEnds(a, 0, rest);
    GroupEnds(b, 0, []);
  }

  /**
   Whatever the caller's condition is, with literals, functions or subqueries, as long as its parentheses balance: it is one
   operand, the permission the other, and the whole is true only where both are.
   */
  lemma AnyBaseIsOneOperand(base: string, baseArgs: seq<Value>, c: Condition, d: Dialect, sense: seq<Token> -> Truth)
    requires base != "" && Balanced(Lex(base, 0), 0) && Shaped(c) && (d == Question ==> Questions(base) == |baseArgs|)
    ensures TruthOf(Where(base, Styled(SqlOf(Tree(c)), d, |baseArgs|)), sense)
         == Some(All([sense(Lex(base, 0)), sense(Tokens(c, |baseArgs|))]))
  {
    var n := |baseArgs|;
    LexFragment(c, d, n, Questions(base));
    PrintedIsBalanced(c, n);
    hide Lex, Operands, Questions, Balanced, Tokens, Styled;
    LexConjoined(base, Styled(SqlOf(Tree(c)), d, n), 0, Questions(base));
    TwoGroups(Lex(base, 0), Tokens(c, n));
  }

  /** Under any such condition a deny-all result is false, whatever the database makes of the condition. */
  lemma DenyAllUnderAnyBase(base: string, sense: seq<Token> -> Truth)
    requires base != "" && Balanced(Lex(base, 0), 0) && sense([Int(1), Cmp("="), Int(0)]) == False
    ensures TruthOf(Where(base, DENY_ALL), sense) == Some(False)
  {
    var m := Questions(base);
    LexDenyAll(m);
    var ts := [Int(1), Cmp("="), Int(0)];
    FlatIsBalanced(ts);
    hide Lex, Operands, Questions, Balanced;
    LexConjoined(base, DENY_ALL, 0, m);
    TwoGroups(Lex(base, 0), ts);
    assert [sense(Lex(base, 0)), sense(ts)][1] == False;
  }

  // ---------------------------------------------------------------- from policies to rows

  /**
   What the database is asked: the rendered text, read back with its arguments, is true of a row exactly when some allow policy
   of the resource whose subject is the user or one of the user's roles is true of it, and every such deny policy is false of it,
   provided no field is spelled like a keyword. A deny policy whose truth is unknown keeps the row out.
   */
  lemma RenderedFilterDecidesRows(parse: Parser, m: Buckets, ps: map<nat, DataPolicy>, resource: string, user: string, roles: set<string>,
                                  attrs: Attrs, r: Result<Plan, PolicyError>, row: Row)
    requires StandsFor(parse, m, ps) && ParsesValid(parse) && IsPlanFor(BucketOf(m, resource), user, roles, attrs, r)
    requires r.Success? && r.value.Tree? && PlainFields(r.value.c)
    ensures Shaped(r.value.c) && Parse(Printed(r.value.c), 0).Some?
    ensures Meaning(Bind(Parse(Printed(r.value.c), 0).value, Args(r.value.c)), row) == True <==>
      && (exists id ::
            id in ps && ps[id].resource == resource
            && ((ps[id].subjectType == "user" && ps[id].subjectId == user) || (ps[id].subjectType == "role" && ps[id].subjectId in roles))
            && (ps[id].effect == "allow" || ps[id].effect == "") && PolicyTruth(parse, ps[id], attrs, row) == True)
      && (forall id | id in ps && ps[id].resource == resource && ps[id].effect == "deny"
              && ((ps[id].subjectType == "user" && ps[id].subjectId == user) || (ps[id].subjectType == "role" && ps[id].subjectId in roles)) ::
            PolicyTruth(parse, ps[id], attrs, row) == False)
  {
    hide IsPlanFor, Conditions.Valid, Meaning, Shaped, PlainFields, Printed, Parse, Bind, Collapse, PolicyTruth, StandsFor;
    BucketIsValid(parse, m, ps, resource);
    PlansRender(BucketOf(m, resource), user, roles, attrs, r);
    PrintedReadsBack(r.value.c);
    CollapseKeepsMeaning(r.value.c, row);
    PlanDecidesPolicies(parse, m, ps, resource, user, roles, attrs, r, row);
  }
}
