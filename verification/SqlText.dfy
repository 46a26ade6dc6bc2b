/** Reading SQL conditions back: a lexer, and a recursive-descent parser with the precedence NOT, AND, OR. */
module SqlText {

  import opened Text
  import opened Iac
  import opened Conditions

  // ---------------------------------------------------------------- tokens

  /** `Param(i)` stands for argument i, counted from zero; keywords are upper case whatever their spelling. */
  datatype Token = LParen | RParen | Comma | Param(i: nat) | Int(n: nat) | Kw(k: string) | Word(s: string) | Cmp(op: string) | Bad

  function UpperChar(c: char): char {
    if 'a' <= c <= 'z' then (c as int - 32) as char else c
  }

  function Upper(s: string): (u: string)
    ensures |u| == |s| && forall i :: 0 <= i < |s| ==> u[i] == UpperChar(s[i])
  {
    seq(|s|, i requires 0 <= i < |s| => UpperChar(s[i]))
  }

  const KEYWORDS := {"AND", "OR", "NOT", "IN", "IS", "NULL", "LIKE", "BETWEEN"}

  predicate Keyword(s: string) {
    Upper(s) in KEYWORDS
  }

  function WordToken(s: string): Token {
    if Keyword(s) then Kw(Upper(s)) else Word(s)
  }

  /** How many characters belong to the word, or the number, the text starts with. */
  function WordLength(s: string): (n: nat)
    ensures n <= |s| && (forall i :: 0 <= i < n ==> IdentChar(s[i])) && (n < |s| ==> !IdentChar(s[n]))
  {
    if s == "" || !IdentChar(s[0]) then 0 else 1 + WordLength(s[1..])
  }

  function DigitsLength(s: string): (n: nat)
    ensures n <= |s| && (forall i :: 0 <= i < n ==> IsDigit(s[i])) && (n < |s| ==> !IsDigit(s[n]))
  {
    if s == "" || !IsDigit(s[0]) then 0 else 1 + DigitsLength(s[1..])
  }

  /** The first token of a non-empty text, and how long it is; a blank yields no token. */
  function First(s: string, n: nat): (t: (seq<Token>, nat))
    requires s != ""
    ensures 0 < t.1 <= |s|
  {
    if s[0] == ' ' then ([], 1)
    else if s[0] == '(' then ([LParen], 1)
    else if s[0] == ')' then ([RParen], 1)
    else if s[0] == ',' then ([Comma], 1)
    else if s[0] == '?' then ([Param(n)], 1)
    else if s[0] == '$' then
      var d := DigitsLength(s[1..]);
      var k := Atoi(s[1..][..d]);
      ([if k == 0 then Bad else Param(k - 1)], 1 + d)
    else if IdentStart(s[0]) then ([WordToken(s[..WordLength(s)])], WordLength(s))
    else if IsDigit(s[0]) then ([Int(Atoi(s[..DigitsLength(s)]))], DigitsLength(s))
    else if s[0] == '=' then ([Cmp("=")], 1)
    else if s[0] == '<' || s[0] == '>' then
      if |s| > 1 && (s[1] == '=' || (s[0] == '<' && s[1] == '>')) then ([Cmp(s[..2])], 2) else ([Cmp(s[..1])], 1)
    else ([Bad], 1)
  }

  /** All tokens; question marks are numbered from `n`. */
  function Lex(s: string, n: nat): seq<Token>
    decreases |s|
  {
    if s == "" then []
    else First(s, n).0 + Lex(s[First(s, n).1..], if s[0] == '?' then n + 1 else n)
  }

  /** No token spans the seam. */
  predicate Seam(a: string, b: string) {
    a == "" || b == "" ||
    (var x, y := a[|a| - 1], b[0];
     !(IdentChar(x) && IdentChar(y)) && !(x == '$' && IdentChar(y)) && !((x == '<' || x == '>') && (y == '=' || y == '>')))
  }

  lemma {:induction false} WordLengthJoin(a: string, b: string)
    requires a != "" && (IdentChar(a[|a| - 1]) ==> b == "" || !IdentChar(b[0]))
    ensures WordLength(a + b) == WordLength(a)
  {
    assert (a + b)[1..] == a[1..] + b;
    if IdentChar(a[0]) && |a| > 1 {
      WordLengthJoin(a[1..], b);
    } else if IdentChar(a[0]) {
      assert a[1..] + b == b;
    }
  }

  lemma {:induction false} DigitsLengthJoin(a: string, b: string)
    requires a == "" || IdentChar(a[|a| - 1]) ==> b == "" || !IdentChar(b[0])
    ensures DigitsLength(a + b) == DigitsLength(a)
  {
    if a == "" {
      assert a + b == b;
    } else {
      assert (a + b)[1..] == a[1..] + b;
      if IsDigit(a[0]) {
        DigitsLengthJoin(a[1..], b);
      }
    }
  }

  lemma FirstJoinWord(a: string, b: string, n: nat)
    requires a != "" && Seam(a, b) && IdentStart(a[0])
    ensures First(a + b, n) == First(a, n)
  {
    WordLengthJoin(a, b);
    assert (a + b)[..WordLength(a)] == a[..WordLength(a)];
  }

  lemma FirstJoinDollar(a: string, b: string, n: nat)
    requires a != "" && Seam(a, b) && a[0] == '$'
    ensures First(a + b, n) == First(a, n)
  {
    assert (a + b)[1..] == a[1..] + b;
    DigitsLengthJoin(a[1..], b);
    var d := DigitsLength(a[1..]);
    assert (a[1..] + b)[..d] == a[1..][..d];
  }

  lemma FirstJoinInt(a: string, b: string, n: nat)
    requires a != "" && Seam(a, b) && IsDigit(a[0])
    ensures First(a + b, n) == First(a, n)
  {
    DigitsLengthJoin(a, b);
    var d := DigitsLength(a);
    assert (a + b)[..d] == a[..d];
  }

  lemma FirstJoin(a: string, b: string, n: nat)
    requires a != "" && Seam(a, b)
    ensures First(a + b, n) == First(a, n)
  {
    if IdentStart(a[0]) {
      FirstJoinWord(a, b, n);
    } else if a[0] == '$' {
      FirstJoinDollar(a, b, n);
    } else if IsDigit(a[0]) {
      FirstJoinInt(a, b, n);
    } else {
      hide WordLength, DigitsLength, WordToken;
      assert |a| > 1 ==> (a + b)[..2] == a[..2];
      assert (a + b)[..1] == a[..1];
    }
  }

  /** Marks inside a token other than '?' do not occur, so skipping a token skips its mark only. */
  lemma {:induction false} QuestionsOfRest(s: string, k: nat)
    requires k <= |s| && '?' !in s[..k]
    ensures Questions(s[k..]) == Questions(s)
  {
    if k > 0 {
      assert s[..k][0] == s[0];
      assert s[1..][k - 1..] == s[k..];
      assert s[1..][..k - 1] == s[..k][1..];
      QuestionsOfRest(s[1..], k - 1);
    }
  }

  lemma FirstHasNoMark(s: string, n: nat)
    requires s != ""
    ensures if s[0] == '?' then First(s, n).1 == 1 else '?' !in s[..First(s, n).1]
  {
    var k := First(s, n).1;
    if k > 1 && !IdentStart(s[0]) && s[0] == '$' {
      forall i | 0 <= i < k
        ensures s[i] != '?'
      {
        assert i > 0 ==> IsDigit(s[1..][i - 1]);
      }
    }
  }

  lemma QuestionsAfter(a: string, n: nat, k: nat, m: nat, end: nat)
    requires a != "" && 0 < k <= |a| && m == (if a[0] == '?' then n + 1 else n) && end == n + Questions(a)
    requires if a[0] == '?' then k == 1 else '?' !in a[..k]
    ensures end == m + Questions(a[k..])
  {
    if a[0] != '?' {
      QuestionsOfRest(a, k);
    }
  }

  lemma SeamAfter(a: string, b: string, k: nat)
    requires k <= |a| && Seam(a, b)
    ensures (a + b)[k..] == a[k..] + b && Seam(a[k..], b)
  {
    assert a[k..] != "" ==> a[k..][|a[k..]| - 1] == a[|a| - 1];
  }

  lemma Regroup<T>(x: seq<T>, y: seq<T>, z: seq<T>)
    ensures x + (y + z) == (x + y) + z
  {
  }

  /** Lexing two texts with a clean seam is lexing one after the other. */
  lemma {:induction false} LexJoin(a: string, b: string, n: nat, end: nat)
    requires Seam(a, b) && end == n + Questions(a)
    ensures Lex(a + b, n) == Lex(a, n) + Lex(b, end)
    decreases |a|
  {
    if a == "" {
      assert a + b == b;
    } else {
      hide Seam, First, Lex, Questions;
      FirstJoin(a, b, n);
      var k := First(a, n).1;
      var m := if a[0] == '?' then n + 1 else n;
      FirstHasNoMark(a, n);
      QuestionsAfter(a, n, k, m, end);
      SeamAfter(a, b, k);
      LexStep(a, n, k, m);
      LexStep(a + b, n, k, m);
      LexJoin(a[k..], b, m, end);
      Regroup(First(a, n).0, Lex(a[k..], m), Lex(b, end));
    }
  }

  lemma LexStep(s: string, n: nat, k: nat, m: nat)
    requires s != "" && k == First(s, n).1 && m == if s[0] == '?' then n + 1 else n
    ensures Lex(s, n) == First(s, n).0 + Lex(s[k..], m)
  {
  }

  // ---------------------------------------------------------------- the parser

  /** `Constant` is a comparison of two numbers. */
  datatype Sql =
    | AllOf(parts: seq<Sql>) | AnyOf(parts: seq<Sql>) | NotOf(part: Sql)
    | Test(field: string, op: string, params: seq<nat>) | Constant(holds: bool)

  predicate StartsWith(ts: seq<Token>, t: Token) {
    ts != [] && ts[0] == t
  }

  type Parsed = Option<(Sql, seq<Token>)>

  function ParseOr(ts: seq<Token>): (r: Parsed)
    ensures r.Some? ==> |r.value.1| < |ts|
    decreases |ts|, 4
  {
    match ParseAnd(ts)
    case None => None
    case Some((first, rest)) =>
      match MoreOr(rest)
      case None => None
      case Some((more, rest')) => Some((if more == [] then first else AnyOf([first] + more), rest'))
  }

  function MoreOr(ts: seq<Token>): (r: Option<(seq<Sql>, seq<Token>)>)
    ensures r.Some? ==> |r.value.1| <= |ts|
    decreases |ts|, 5
  {
    if !StartsWith(ts, Kw("OR")) then Some(([], ts))
    else
      match ParseAnd(ts[1..])
      case None => None
      case Some((first, rest)) =>
        match MoreOr(rest)
        case None => None
        case Some((more, rest')) => Some(([first] + more, rest'))
  }

  function ParseAnd(ts: seq<Token>): (r: Parsed)
    ensures r.Some? ==> |r.value.1| < |ts|
    decreases |ts|, 3
  {
    match ParseNot(ts)
    case None => None
    case Some((first, rest)) =>
      match MoreAnd(rest)
      case None => None
      case Some((more, rest')) => Some((if more == [] then first else AllOf([first] + more), rest'))
  }

  function MoreAnd(ts: seq<Token>): (r: Option<(seq<Sql>, seq<Token>)>)
    ensures r.Some? ==> |r.value.1| <= |ts|
    decreases |ts|, 5
  {
    if !StartsWith(ts, Kw("AND")) then Some(([], ts))
    else
      match ParseNot(ts[1..])
      case None => None
      case Some((first, rest)) =>
        match MoreAnd(rest)
        case None => None
        case Some((more, rest')) => Some(([first] + more, rest'))
  }

  function ParseNot(ts: seq<Token>): (r: Parsed)
    ensures r.Some? ==> |r.value.1| < |ts|
    decreases |ts|, 2
  {
    if StartsWith(ts, Kw("NOT")) then
      match ParseNot(ts[1..])
      case None => None
      case Some((x, rest)) => Some((NotOf(x), rest))
    else if StartsWith(ts, LParen) then
      match ParseOr(ts[1..])
      case None => None
      case Some((x, rest)) => if StartsWith(rest, RParen) then Some((x, rest[1..])) else None
    else ParseTest(ts)
  }

  predicate Compares(op: string, a: nat, b: nat) {
    if op == "=" then a == b else if op == "<>" then a != b else if op == "<" then a < b
    else if op == "<=" then a <= b else if op == ">" then a > b else a >= b
  }

  /** A comparison of two numbers, or one comparison, null test, list test or range test on a field. */
  function ParseTest(ts: seq<Token>): (r: Parsed)
    ensures r.Some? ==> |r.value.1| < |ts|
    decreases |ts|, 1
  {
    if |ts| >= 3 && ts[0].Int? && ts[1].Cmp? && ts[2].Int? then Some((Constant(Compares(ts[1].op, ts[0].n, ts[2].n)), ts[3..]))
    else if |ts| < 2 || !ts[0].Word? then None
    else
      var f := ts[0].s;
      if ts[1].Cmp? then One(f, ts[1].op, ts[2..])
      else if ts[1] == Kw("LIKE") then One(f, "LIKE", ts[2..])
      else if ts[1] == Kw("IN") then List(f, "IN", ts[2..])
      else if ts[1] == Kw("BETWEEN") then
        if |ts| >= 5 && ts[2].Param? && ts[3] == Kw("AND") && ts[4].Param?
        then Some((Test(f, "BETWEEN", [ts[2].i, ts[4].i]), ts[5..])) else None
      else if ts[1] == Kw("IS") then
        if |ts| >= 3 && ts[2] == Kw("NULL") then Some((Test(f, "IS NULL", []), ts[3..]))
        else if |ts| >= 4 && ts[2] == Kw("NOT") && ts[3] == Kw("NULL") then Some((Test(f, "IS NOT NULL", []), ts[4..]))
        else None
      else if ts[1] == Kw("NOT") && |ts| >= 3 then
        if ts[2] == Kw("LIKE") then One(f, "NOT LIKE", ts[3..])
        else if ts[2] == Kw("IN") then List(f, "NOT IN", ts[3..])
        else None
      else None
  }

  function One(f: string, op: string, ts: seq<Token>): (r: Parsed)
    ensures r.Some? ==> |r.value.1| < |ts|
  {
    if ts != [] && ts[0].Param? then Some((Test(f, op, [ts[0].i]), ts[1..])) else None
  }

  function List(f: string, op: string, ts: seq<Token>): (r: Parsed)
    ensures r.Some? ==> |r.value.1| < |ts|
  {
    if !StartsWith(ts, LParen) then None
    else
      match Params(ts[1..])
      case None => None
      case Some((ps, rest)) => Some((Test(f, op, ps), rest))
  }

  /** A non-empty list of parameters and its closing parenthesis. */
  function Params(ts: seq<Token>): (r: Option<(seq<nat>, seq<Token>)>)
    ensures r.Some? ==> |r.value.1| < |ts|
  {
    if |ts| < 2 || !ts[0].Param? then None
    else if ts[1] == RParen then Some(([ts[0].i], ts[2..]))
    else if ts[1] != Comma then None
    else
      match Params(ts[2..])
      case None => None
      case Some((ps, rest)) => Some(([ts[0].i] + ps, rest))
  }

  /** The whole text is one condition. */
  function Parse(s: string, n: nat): Option<Sql> {
    var r := ParseOr(Lex(s, n));
    if r.Some? && r.value.1 == [] then Some(r.value.0) else None
  }
}
