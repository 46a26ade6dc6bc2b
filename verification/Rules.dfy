/** Casbin rule rows and the exact difference of two rule sets. */
module Rules {

  /** One casbin_rule row: the policy type and the six value columns, empty when unused. */
  datatype Row = Line(ptype: string, v: seq<string>)
  type Rule = r: Row | |r.v| == 6 witness Line("", ["", "", "", "", "", ""])

  const UNIT_SEPARATOR: char := 0x1f as char

  predicate SeparatorFree(s: string) {
    UNIT_SEPARATOR !in s
  }

  ghost predicate CleanRule(r: Rule) {
    SeparatorFree(r.ptype) && forall i :: 0 <= i < 6 ==> SeparatorFree(r.v[i])
  }

  /** The two sections that casbin keeps: permissions and role links. */
  predicate Sectioned(r: Rule) {
    r.ptype == "p" || r.ptype == "g"
  }

  ghost predicate AllSectioned(rules: set<Rule>) {
    forall r | r in rules :: Sectioned(r)
  }

  /** The columns, each preceded by the separator. */
  function Joined(v: seq<string>): string {
    if v == [] then "" else [UNIT_SEPARATOR] + v[0] + Joined(v[1..])
  }

  /** The comparison key of a rule, as the map-based difference uses it. */
  function RuleKey(r: Rule): string {
    r.ptype + Joined(r.v)
  }

  /** Type and columns with character 31 between them. */
  lemma RuleKeyMeans(r: Rule)
    ensures var u := [0x1f as char];
      RuleKey(r) == r.ptype + u + r.v[0] + u + r.v[1] + u + r.v[2] + u + r.v[3] + u + r.v[4] + u + r.v[5]
  {
    var v, u := r.v, [0x1f as char];
    JoinedStep(v, 0);
    JoinedStep(v, 1);
    JoinedStep(v, 2);
    JoinedStep(v, 3);
    JoinedStep(v, 4);
    JoinedStep(v, 5);
    assert v[0..] == v && Joined(v[6..]) == "";
    hide Joined;
    assert Joined(v) == u + v[0] + (u + v[1] + (u + v[2] + (u + v[3] + (u + v[4] + (u + v[5])))));
  }

  lemma JoinedStep(v: seq<string>, i: nat)
    requires i < |v|
    ensures Joined(v[i..]) == [0x1f as char] + v[i] + Joined(v[i + 1..])
  {
    assert v[i..][1..] == v[i + 1..];
  }

  lemma SplitUnique(x: string, y: string, p: string, q: string)
    requires SeparatorFree(x) && SeparatorFree(y)
    requires p == "" || p[0] == UNIT_SEPARATOR
    requires q == "" || q[0] == UNIT_SEPARATOR
    requires x + p == y + q
    ensures x == y && p == q
  {
    var s := x + p;
    assert forall i :: 0 <= i < |x| ==> s[i] == x[i] && s[i] != UNIT_SEPARATOR;
    assert forall i :: 0 <= i < |y| ==> s[i] == y[i] && s[i] != UNIT_SEPARATOR;
    assert |x| < |s| ==> s[|x|] == UNIT_SEPARATOR;
    assert |y| < |s| ==> s[|y|] == UNIT_SEPARATOR;
    assert x == (x + p)[..|x|] == (y + q)[..|y|] == y;
    assert p == (x + p)[|x|..] == (y + q)[|y|..] == q;
  }

  lemma {:induction false} JoinedInjective(v: seq<string>, w: seq<string>)
    requires |v| == |w| && Joined(v) == Joined(w)
    requires forall i :: 0 <= i < |v| ==> SeparatorFree(v[i]) && SeparatorFree(w[i])
    ensures v == w
  {
    if v != [] {
      var s := [UNIT_SEPARATOR];
      assert Joined(v) == s + (v[0] + Joined(v[1..]));
      assert Joined(w) == s + (w[0] + Joined(w[1..]));
      assert v[0] + Joined(v[1..]) == Joined(v)[1..] == Joined(w)[1..] == w[0] + Joined(w[1..]);
      SplitUnique(v[0], w[0], Joined(v[1..]), Joined(w[1..]));
      JoinedInjective(v[1..], w[1..]);
      assert v == [v[0]] + v[1..] && w == [w[0]] + w[1..];
    }
  }

  /** Keys identify rules as long as no column contains the separator. */
  lemma RuleKeyInjective(a: Rule, b: Rule)
    requires CleanRule(a) && CleanRule(b) && RuleKey(a) == RuleKey(b)
    ensures a == b
  {
    SplitUnique(a.ptype, b.ptype, Joined(a.v), Joined(b.v));
    JoinedInjective(a.v, b.v);
  }

  ghost function Elements<T>(s: seq<T>): set<T> {
    set x | x in s
  }

  /** `out` holds one rule of `source` for every key of `source` that `other` lacks, and nothing else. */
  ghost predicate IsKeyDifference(source: set<Rule>, other: set<Rule>, out: seq<Rule>) {
    && (forall r | r in out :: r in source && forall o | o in other :: RuleKey(o) != RuleKey(r))
    && (forall s | s in source ::
          (exists o :: o in other && RuleKey(o) == RuleKey(s)) || (exists r :: r in out && RuleKey(r) == RuleKey(s)))
    && (forall i, j :: 0 <= i < j < |out| ==> RuleKey(out[i]) != RuleKey(out[j]))
  }

  /** The map from key to rule that a list fills; a later rule replaces an earlier one with its key. */
  method IndexByKey(rules: seq<Rule>) returns (m: map<string, Rule>)
    ensures forall r | r in rules :: RuleKey(r) in m
    ensures forall k | k in m :: m[k] in rules && RuleKey(m[k]) == k
  {
    m := map[];
    for i := 0 to |rules|
      invariant forall j | 0 <= j < i :: RuleKey(rules[j]) in m
      invariant forall k | k in m :: m[k] in rules && RuleKey(m[k]) == k
    {
      m := m[RuleKey(rules[i]) := rules[i]];
    }
  }

  /** The rules indexed by `a` under keys that `b` lacks, in whatever order the map yields them. */
  method MissingFrom(a: map<string, Rule>, b: map<string, Rule>) returns (out: seq<Rule>)
    requires forall k | k in a :: RuleKey(a[k]) == k
    ensures forall r | r in out :: RuleKey(r) in a && a[RuleKey(r)] == r && RuleKey(r) !in b
    ensures forall k | k in a && k !in b :: a[k] in out
    ensures forall i, j :: 0 <= i < j < |out| ==> RuleKey(out[i]) != RuleKey(out[j])
  {
    out := [];
    var todo := a.Keys;
    while todo != {}
      invariant todo <= a.Keys
      invariant forall r | r in out :: RuleKey(r) in a && a[RuleKey(r)] == r && RuleKey(r) !in b && RuleKey(r) !in todo
      invariant forall k | k in a && k !in b && k !in todo :: a[k] in out
      invariant forall i, j :: 0 <= i < j < |out| ==> RuleKey(out[i]) != RuleKey(out[j])
      decreases todo
    {
      var k :| k in todo;
      todo := todo - {k};
      if k !in b {
        out := out + [a[k]];
      }
    }
  }

  /** The rules to add and to remove so that `current` becomes `desired`, compared by key. */
  method Diff(current: seq<Rule>, desired: seq<Rule>) returns (adds: seq<Rule>, removes: seq<Rule>)
    ensures IsKeyDifference(Elements(desired), Elements(current), adds)
    ensures IsKeyDifference(Elements(current), Elements(desired), removes)
  {
    var cur := IndexByKey(current);
    var des := IndexByKey(desired);
    adds := MissingFrom(des, cur);
    removes := MissingFrom(cur, des);
  }

  /** No rule that only one side has shares its key with a different rule of either side. */
  ghost predicate NoClash(current: set<Rule>, desired: set<Rule>) {
    forall a, b | a in (desired - current) + (current - desired) && b in current + desired ::
      RuleKey(a) == RuleKey(b) ==> a == b
  }

  /** The difference is the set difference exactly when no changed rule shares its key. */
  lemma DiffExactIffNoClash(current: set<Rule>, desired: set<Rule>, adds: seq<Rule>, removes: seq<Rule>)
    requires IsKeyDifference(desired, current, adds) && IsKeyDifference(current, desired, removes)
    ensures Elements(adds) == desired - current && Elements(removes) == current - desired <==> NoClash(current, desired)
  {
    if NoClash(current, desired) {
      HalfExact(current, desired, adds);
      HalfExact(desired, current, removes);
    }
    if Elements(adds) == desired - current && Elements(removes) == current - desired {
      forall a, b | a in (desired - current) + (current - desired) && b in current + desired && RuleKey(a) == RuleKey(b)
        ensures a == b
      {
        if a in desired - current {
          assert a in adds;
          assert b !in current;
          assert b in adds;
        } else {
          assert a in removes;
          assert b !in desired;
          assert b in removes;
        }
      }
    }
  }

  lemma HalfExact(current: set<Rule>, desired: set<Rule>, adds: seq<Rule>)
    requires IsKeyDifference(desired, current, adds)
    requires NoClash(current, desired)
    ensures Elements(adds) == desired - current
  {
    forall r | r in desired - current
      ensures r in adds
    {
      assert forall o | o in current && RuleKey(o) == RuleKey(r) :: o in current + desired;
      var a :| a in adds && RuleKey(a) == RuleKey(r);
      assert a in current + desired;
    }
  }

  /** Rules without separators never clash, which is what the key encoding relies on. */
  lemma CleanRulesNeverClash(current: set<Rule>, desired: set<Rule>)
    requires forall r | r in current + desired :: CleanRule(r)
    ensures NoClash(current, desired)
  {
    forall a, b | a in (desired - current) + (current - desired) && b in current + desired && RuleKey(a) == RuleKey(b)
      ensures a == b
    {
      RuleKeyInjective(a, b);
    }
  }
}
