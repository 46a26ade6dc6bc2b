/** The row filter of one user: select policies, merge allow and deny, resolve the user's attributes. */
module Filter {

  import opened Tables
  import opened Conditions
  import opened DataTable

  datatype Plan = NoFilter | DenyAll | Tree(c: Condition)

  const USER := "user"

  /** A policy for the user or for one of the user's roles; other subject types match nobody. */
  predicate SubjectMatches(s: Stored, user: string, roles: set<string>) {
    if s.subjectType == USER then s.subjectId == user
    else s.subjectType == ROLE && s.subjectId in roles
  }

  predicate Poisoned(s: Stored, user: string, roles: set<string>) {
    SubjectMatches(s, user, roles) && s.cond.Failure?
  }

  predicate Selected(s: Stored, user: string, roles: set<string>, deny: bool) {
    SubjectMatches(s, user, roles) && s.cond.Success? && (s.effect == DENY <==> deny)
  }

  /** The conditions of the selected policies with one effect, in bucket order. */
  function Conds(bucket: seq<Stored>, user: string, roles: set<string>, deny: bool): (cs: seq<Condition>)
    ensures forall c :: c in cs <==> exists s :: s in bucket && Selected(s, user, roles, deny) && s.cond.value == c
  {
    if bucket == [] then []
    else
      var last := bucket[|bucket| - 1];
      assert bucket == bucket[..|bucket| - 1] + [last];
      Conds(bucket[..|bucket| - 1], user, roles, deny) + if Selected(last, user, roles, deny) then [last.cond.value] else []
  }

  lemma CondsMore(bucket: seq<Stored>, i: nat, user: string, roles: set<string>, deny: bool)
    requires i < |bucket|
    ensures Conds(bucket[..i + 1], user, roles, deny)
         == Conds(bucket[..i], user, roles, deny) + if Selected(bucket[i], user, roles, deny) then [bucket[i].cond.value] else []
  {
    assert bucket[..i + 1][..i] == bucket[..i];
  }

  /** A single condition stands for itself. */
  function OrAll(cs: seq<Condition>): Condition
    requires cs != []
  {
    if |cs| == 1 then cs[0] else Node(OR, cs)
  }

  /** Some allow, and no deny. */
  function Merged(allow: seq<Condition>, deny: seq<Condition>): Condition
    requires allow != []
  {
    if deny == [] then OrAll(allow) else Node(AND, [OrAll(allow), Node(NOT, [OrAll(deny)])])
  }

  function PlanOf(bucket: seq<Stored>, user: string, roles: set<string>): Plan {
    var allow := Conds(bucket, user, roles, false);
    if allow == [] then DenyAll else Tree(Merged(allow, Conds(bucket, user, roles, true)))
  }

  /**
   The plan before attributes are resolved. Without a configured resource there is no filter, whoever asks;
   a matching policy that is poisoned fails the whole request.
   */
  method SelectAndMerge(bucket: seq<Stored>, configured: bool, resolved: Result<seq<string>, PolicyError>, user: string)
      returns (r: Result<Plan, PolicyError>)
    ensures !configured ==> r == Success(NoFilter)
    ensures configured && resolved.Failure? ==> r == Failure(resolved.error)
    ensures configured && resolved.Success? ==>
      var roles := set x | x in resolved.value;
      && (r.Failure? <==> exists s :: s in bucket && Poisoned(s, user, roles))
      && (r.Success? ==> r.value == PlanOf(bucket, user, roles))
      && (r == Success(DenyAll) ==> forall s | s in bucket && s.effect != "deny" ::
            s.subjectType != "user" || s.subjectId != user)
      && (r == Success(DenyAll) ==> forall s | s in bucket && s.effect != "deny" && s.subjectType == "role" :: s.subjectId !in roles)
      && (r.Success? && r.value.Tree? ==> exists s ::
            s in bucket && s.effect != "deny" && s.cond.Success?
            && ((s.subjectType == "user" && s.subjectId == user) || (s.subjectType == "role" && s.subjectId in roles)))
  {
    if !configured {
      return Success(NoFilter);
    }
    if resolved.Failure? {
      return Failure(resolved.error);
    }
    var roles := set x | x in resolved.value;
    var allow, deny: seq<Condition> := [], [];
    for i := 0 to |bucket|
      invariant forall j :: 0 <= j < i ==> !Poisoned(bucket[j], user, roles)
      invariant allow == Conds(bucket[..i], user, roles, false) && deny == Conds(bucket[..i], user, roles, true)
    {
      var s := bucket[i];
      CondsMore(bucket, i, user, roles, false);
      CondsMore(bucket, i, user, roles, true);
      if !SubjectMatches(s, user, roles) {
        continue;
      }
      if s.cond.Failure? {
        assert Poisoned(s, user, roles) && s in bucket;
        return Failure(s.cond.error);
      }
      if s.effect == DENY {
        deny := deny + [s.cond.value];
      } else {
        allow := allow + [s.cond.value];
      }
    }
    assert bucket[..|bucket|] == bucket;
    AllowedBy(bucket, user, roles);
    if allow == [] {
      return Success(DenyAll);
    }
    var merged := OrAll(allow);
    if deny != [] {
      merged := Node(AND, [merged, Node(NOT, [OrAll(deny)])]);
    }
    return Success(Tree(merged));
  }

  /** There is an allow condition exactly when some policy that is no deny policy has the user, or a role of the user, as its subject. */
  lemma AllowedBy(bucket: seq<Stored>, user: string, roles: set<string>)
    requires forall s :: s in bucket ==> !Poisoned(s, user, roles)
    ensures Conds(bucket, user, roles, false) != [] <==> exists s ::
      s in bucket && s.effect != "deny" && s.cond.Success?
      && ((s.subjectType == "user" && s.subjectId == user) || (s.subjectType == "role" && s.subjectId in roles))
    ensures Conds(bucket, user, roles, false) == [] ==> forall s | s in bucket && s.effect != "deny" ::
      (s.subjectType != "user" || s.subjectId != user) && (s.subjectType != "role" || s.subjectId !in roles)
  {
    var cs := Conds(bucket, user, roles, false);
    if cs != [] {
      assert cs[0] in cs;
    }
    forall s | s in bucket && Selected(s, user, roles, false)
      ensures s.cond.value in cs
    {
    }
    hide Conds;
    forall s | s in bucket && s.effect != "deny" && SubjectMatches(s, user, roles)
      ensures cs != []
    {
      assert Selected(s, user, roles, false);
    }
  }

  // ---------------------------------------------------------------- meaning

  lemma OrAllMeaning(cs: seq<Condition>, row: Row)
    requires cs != []
    ensures Meaning(OrAll(cs), row) == Any(Meanings(cs, row))
  {
    if |cs| == 1 {
      var ts := Meanings(cs, row);
      assert ts == [Meaning(cs[0], row)];
      ThreeTruths(ts[0]);
    }
  }

  function Verdict(allow: Truth, deny: Truth): Truth {
    All([allow, Negate(deny)])
  }

  lemma MergedMeaning(allow: seq<Condition>, deny: seq<Condition>, row: Row)
    requires allow != []
    ensures Meaning(Merged(allow, deny), row) ==
      if deny == [] then Any(Meanings(allow, row)) else Verdict(Any(Meanings(allow, row)), Any(Meanings(deny, row)))
  {
    OrAllMeaning(allow, row);
    if deny != [] {
      OrAllMeaning(deny, row);
      var not := Node(NOT, [OrAll(deny)]);
      assert Meaning(not, row) == Negate(Meaning(OrAll(deny), row));
      assert Meanings([OrAll(allow), not], row) == [Meaning(OrAll(allow), row), Meaning(not, row)];
    }
  }

  /** A row passes exactly when some allow is true and every deny is false; an unknown deny keeps the row out. */
  lemma RowPasses(allow: seq<Condition>, deny: seq<Condition>, row: Row)
    requires allow != []
    ensures Meaning(Merged(allow, deny), row) == True <==>
      (exists c :: c in allow && Meaning(c, row) == True) && (forall c :: c in deny ==> Meaning(c, row) == False)
  {
    MergedMeaning(allow, deny, row);
    MeaningsElements(allow, row);
    MeaningsElements(deny, row);
    var a, d := Any(Meanings(allow, row)), Any(Meanings(deny, row));
    if deny != [] {
      BothTrue(a, Negate(d));
    }
    if exists c :: c in allow && Meaning(c, row) == True {
      var c :| c in allow && Meaning(c, row) == True;
      assert True in Meanings(allow, row);
    }
    if a == True {
      var t :| t in Meanings(allow, row) && t == True;
    }
  }

  lemma BothTrue(a: Truth, b: Truth)
    ensures All([a, b]) == True <==> a == True && b == True
  {
    assert a in [a, b] && b in [a, b];
  }

  lemma MeaningsElements(cs: seq<Condition>, row: Row)
    ensures forall t :: t in Meanings(cs, row) <==> exists c :: c in cs && Meaning(c, row) == t
  {
    forall t | t in Meanings(cs, row)
      ensures exists c :: c in cs && Meaning(c, row) == t
    {
      var i :| 0 <= i < |cs| && Meanings(cs, row)[i] == t;
      assert cs[i] in cs;
    }
    forall t | exists c :: c in cs && Meaning(c, row) == t
      ensures t in Meanings(cs, row)
    {
      var c :| c in cs && Meaning(c, row) == t;
      var i :| 0 <= i < |cs| && cs[i] == c;
      assert Meanings(cs, row)[i] == t;
    }
  }

  /** `Any` only depends on which truths occur. */
  lemma AnySame(a: seq<Truth>, b: seq<Truth>)
    requires forall t :: t in a <==> t in b
    ensures Any(a) == Any(b)
  {
  }

  lemma SameMeaning(a: seq<Condition>, b: seq<Condition>, row: Row)
    requires forall c :: c in a <==> c in b
    ensures Any(Meanings(a, row)) == Any(Meanings(b, row))
  {
    MeaningsElements(a, row);
    MeaningsElements(b, row);
    AnySame(Meanings(a, row), Meanings(b, row));
  }

  ghost predicate SamePolicies(bucket: seq<Stored>, bucket': seq<Stored>) {
    forall s :: s in bucket <==> s in bucket'
  }

  lemma NothingInBoth(a: seq<Condition>, b: seq<Condition>)
    requires forall c :: c in a <==> c in b
    ensures a == [] <==> b == []
  {
    if a != [] {
      assert a[0] in b;
    }
    if b != [] {
      assert b[0] in a;
    }
  }

  lemma SameConds(bucket: seq<Stored>, bucket': seq<Stored>, user: string, roles: set<string>, deny: bool)
    requires SamePolicies(bucket, bucket')
    ensures forall c :: c in Conds(bucket, user, roles, deny) <==> c in Conds(bucket', user, roles, deny)
  {
  }

  // ---------------------------------------------------------------- attributes

  const PREFIX := "$user."

  predicate IsVar(s: string) {
    PREFIX <= s
  }

  function VarName(s: string): string
    requires IsVar(s)
  {
    s[|PREFIX|..]
  }

  type Attrs = map<string, Value>

  /** A variable becomes the attribute's value; a list is resolved element by element. */
  function ResolveValue(v: Value, attrs: Attrs): Result<Value, PolicyError>
    decreases v, 0
  {
    match v
    case Str(s) =>
      if !IsVar(s) then Success(v)
      else if VarName(s) in attrs then Success(attrs[VarName(s)])
      else Failure(MissingVar(VarName(s)))
    case Arr(items) =>
      var out :- ResolveItems(items, attrs);
      Success(Arr(out))
    case _ => Success(v)
  }

  function ResolveItems(items: seq<Value>, attrs: Attrs): (r: Result<seq<Value>, PolicyError>)
    ensures r.Success? ==> |r.value| == |items|
    decreases items, 1
  {
    if items == [] then Success([])
    else
      var first :- ResolveValue(items[0], attrs);
      var rest :- ResolveItems(items[1..], attrs);
      Success([first] + rest)
  }

  /** A copy of the tree with every variable resolved. */
  function ResolveVars(c: Condition, attrs: Attrs): Result<Condition, PolicyError>
    decreases c, 0
  {
    if Logical(c.op) then
      var children :- ResolveAll(c.children, attrs);
      Success(Node(c.op, children))
    else
      var value :- ResolveValue(c.value, attrs);
      Success(Condition(c.op, [], c.field, value))
  }

  function ResolveAll(cs: seq<Condition>, attrs: Attrs): (r: Result<seq<Condition>, PolicyError>)
    ensures r.Success? ==> |r.value| == |cs|
    decreases cs, 1
  {
    if cs == [] then Success([])
    else
      var first :- ResolveVars(cs[0], attrs);
      var rest :- ResolveAll(cs[1..], attrs);
      Success([first] + rest)
  }

  predicate ValueMissing(v: Value, attrs: Attrs)
    decreases v
  {
    match v
    case Str(s) => IsVar(s) && VarName(s) !in attrs
    case Arr(items) => exists i :: 0 <= i < |items| && ValueMissing(items[i], attrs)
    case _ => false
  }

  /** Some leaf names a variable that the user does not have. */
  predicate NamesMissing(c: Condition, attrs: Attrs)
    decreases c
  {
    if Logical(c.op) then exists i :: 0 <= i < |c.children| && NamesMissing(c.children[i], attrs)
    else ValueMissing(c.value, attrs)
  }

  lemma {:induction false} ItemsMissing(items: seq<Value>, attrs: Attrs)
    ensures ResolveItems(items, attrs).Failure? <==> exists i :: 0 <= i < |items| && ValueMissing(items[i], attrs)
    decreases items, 1
  {
    if items != [] {
      ResolveValueFails(items[0], attrs);
      ItemsMissing(items[1..], attrs);
      assert items == [items[0]] + items[1..];
      if i :| 0 <= i < |items| && ValueMissing(items[i], attrs) {
        assert i > 0 ==> ValueMissing(items[1..][i - 1], attrs);
      }
      if i :| 0 <= i < |items[1..]| && ValueMissing(items[1..][i], attrs) {
        assert ValueMissing(items[i + 1], attrs);
      }
    }
  }

  lemma {:induction false} ResolveValueFails(v: Value, attrs: Attrs)
    ensures ResolveValue(v, attrs).Failure? <==> ValueMissing(v, attrs)
    decreases v, 0
  {
    if v.Arr? {
      ItemsMissing(v.items, attrs);
    }
  }

  lemma {:induction false} AllMissing(cs: seq<Condition>, attrs: Attrs)
    ensures ResolveAll(cs, attrs).Failure? <==> exists i :: 0 <= i < |cs| && NamesMissing(cs[i], attrs)
    decreases cs, 1
  {
    if cs != [] {
      ResolveFails(cs[0], attrs);
      AllMissing(cs[1..], attrs);
      if i :| 0 <= i < |cs| && NamesMissing(cs[i], attrs) {
        assert i > 0 ==> NamesMissing(cs[1..][i - 1], attrs);
      }
      if i :| 0 <= i < |cs[1..]| && NamesMissing(cs[1..][i], attrs) {
        assert NamesMissing(cs[i + 1], attrs);
      }
    }
  }

  /** Resolving fails exactly when a variable is missing. */
  lemma {:induction false} ResolveFails(c: Condition, attrs: Attrs)
    ensures ResolveVars(c, attrs).Failure? <==> NamesMissing(c, attrs)
    decreases c, 0
  {
    if Logical(c.op) {
      AllMissing(c.children, attrs);
    } else {
      ResolveValueFails(c.value, attrs);
    }
  }

  lemma ResolveOrAll(cs: seq<Condition>, attrs: Attrs)
    requires cs != []
    ensures ResolveVars(OrAll(cs), attrs).Failure? <==> ResolveAll(cs, attrs).Failure?
    ensures ResolveAll(cs, attrs).Success? ==> ResolveVars(OrAll(cs), attrs) == Success(OrAll(ResolveAll(cs, attrs).value))
  {
    if |cs| == 1 {
      assert ResolveAll(cs[1..], attrs) == Success([]);
    }
  }

  lemma ResolveOne(a: Condition, attrs: Attrs)
    ensures ResolveAll([a], attrs).Failure? <==> ResolveVars(a, attrs).Failure?
    ensures ResolveVars(a, attrs).Success? ==> ResolveAll([a], attrs) == Success([ResolveVars(a, attrs).value])
  {
    assert [a][1..] == [];
    assert ResolveAll([a][1..], attrs) == Success([]);
    if ResolveVars(a, attrs).Success? {
      assert [ResolveVars(a, attrs).value] + [] == [ResolveVars(a, attrs).value];
    }
  }

  lemma ResolvePair(op: string, a: Condition, b: Condition, attrs: Attrs)
    requires Logical(op)
    ensures var ra, rb := ResolveVars(a, attrs), ResolveVars(b, attrs);
      && (ResolveVars(Node(op, [a, b]), attrs).Failure? <==> ra.Failure? || rb.Failure?)
      && (ra.Success? && rb.Success? ==> ResolveVars(Node(op, [a, b]), attrs) == Success(Node(op, [ra.value, rb.value])))
  {
    var cs := [a, b];
    ResolveOne(b, attrs);
    assert cs[1..] == [b];
    assert ResolveAll(cs, attrs).Failure? <==> ResolveVars(a, attrs).Failure? || ResolveVars(b, attrs).Failure?;
    if ResolveAll(cs, attrs).Success? {
      assert ResolveAll(cs, attrs).value == [ResolveVars(a, attrs).value, ResolveVars(b, attrs).value];
    }
  }

  lemma ResolveNot(a: Condition, attrs: Attrs)
    ensures ResolveVars(Node(NOT, [a]), attrs).Failure? <==> ResolveVars(a, attrs).Failure?
    ensures ResolveVars(a, attrs).Success? ==> ResolveVars(Node(NOT, [a]), attrs) == Success(Node(NOT, [ResolveVars(a, attrs).value]))
  {
    ResolveOne(a, attrs);
  }

  /** Merging first and resolving afterwards gives what resolving first and merging afterwards gives; they fail together. */
  lemma MergeThenResolve(allow: seq<Condition>, deny: seq<Condition>, attrs: Attrs)
    requires allow != []
    ensures var a, d, m := ResolveAll(allow, attrs), ResolveAll(deny, attrs), ResolveVars(Merged(allow, deny), attrs);
      && (m.Failure? <==> exists c :: (c in allow || c in deny) && NamesMissing(c, attrs))
      && (m.Success? ==> a.Success? && d.Success? && m == Success(Merged(a.value, d.value)))
  {
    ResolveOrAll(allow, attrs);
    SomeMissing(allow, attrs);
    SomeMissing(deny, attrs);
    if deny != [] {
      ResolveOrAll(deny, attrs);
      ResolveNot(OrAll(deny), attrs);
      ResolvePair(AND, OrAll(allow), Node(NOT, [OrAll(deny)]), attrs);
    }
  }

  lemma SomeMissing(cs: seq<Condition>, attrs: Attrs)
    ensures ResolveAll(cs, attrs).Failure? <==> exists c :: c in cs && NamesMissing(c, attrs)
  {
    AllMissing(cs, attrs);
    if c :| c in cs && NamesMissing(c, attrs) {
      var i :| 0 <= i < |cs| && cs[i] == c;
    }
  }

  /** The plan with attributes resolved. */
  method BuildPlan(bucket: seq<Stored>, configured: bool, resolved: Result<seq<string>, PolicyError>, user: string, attrs: Attrs)
      returns (r: Result<Plan, PolicyError>)
    ensures !configured ==> r == Success(NoFilter)
    ensures configured && resolved.Failure? ==> r.Failure?
    ensures configured && resolved.Success? ==>
      IsPlanFor(bucket, user, (set x | x in resolved.value), attrs, r)
  {
    r := SelectAndMerge(bucket, configured, resolved, user);
    if r.Failure? || !r.value.Tree? {
      return;
    }
    ghost var roles := set x | x in resolved.value;
    ghost var allow, deny := Conds(bucket, user, roles, false), Conds(bucket, user, roles, true);
    MergeThenResolve(allow, deny, attrs);
    var tree := ResolveVars(r.value.c, attrs);
    if tree.Failure? {
      return Failure(tree.error);
    }
    return Success(Tree(tree.value));
  }

  /** The plan fails on a poisoned match or a missing variable; otherwise it merges the resolved conditions. */
  ghost predicate IsPlanFor(bucket: seq<Stored>, user: string, roles: set<string>, attrs: Attrs, r: Result<Plan, PolicyError>) {
    var allow, deny := Conds(bucket, user, roles, false), Conds(bucket, user, roles, true);
    var a, d := ResolveAll(allow, attrs), ResolveAll(deny, attrs);
    && (r.Failure? <==> (exists s :: s in bucket && Poisoned(s, user, roles))
                        || (allow != [] && exists c :: (c in allow || c in deny) && NamesMissing(c, attrs)))
    && (r.Success? && allow == [] ==> r.value == DenyAll)
    && (r.Success? && allow != [] ==> a.Success? && d.Success? && r.value == Tree(Merged(a.value, d.value)))
  }

  lemma {:induction false} ResolvedAt(cs: seq<Condition>, attrs: Attrs)
    requires ResolveAll(cs, attrs).Success?
    ensures forall i :: 0 <= i < |cs| ==> ResolveVars(cs[i], attrs) == Success(ResolveAll(cs, attrs).value[i])
  {
    if cs != [] {
      ResolvedAt(cs[1..], attrs);
      forall i | 0 < i < |cs|
        ensures ResolveVars(cs[i], attrs) == Success(ResolveAll(cs, attrs).value[i])
      {
        assert cs[1..][i - 1] == cs[i];
      }
    }
  }

  lemma ResolvedElements(cs: seq<Condition>, attrs: Attrs)
    requires ResolveAll(cs, attrs).Success?
    ensures forall x :: x in ResolveAll(cs, attrs).value <==> exists c :: c in cs && ResolveVars(c, attrs) == Success(x)
  {
    ResolvedAt(cs, attrs);
    hide ResolveAll, ResolveVars;
    var out := ResolveAll(cs, attrs).value;
    forall x | x in out
      ensures exists c :: c in cs && ResolveVars(c, attrs) == Success(x)
    {
      var i :| 0 <= i < |out| && out[i] == x;
      assert cs[i] in cs;
    }
    forall x | exists c :: c in cs && ResolveVars(c, attrs) == Success(x)
      ensures x in out
    {
      var c :| c in cs && ResolveVars(c, attrs) == Success(x);
      var i :| 0 <= i < |cs| && cs[i] == c;
      assert out[i] == x;
    }
  }

  lemma SameResolved(cs: seq<Condition>, cs': seq<Condition>, attrs: Attrs)
    requires (forall c :: c in cs <==> c in cs') && ResolveAll(cs, attrs).Success? && ResolveAll(cs', attrs).Success?
    ensures forall x :: x in ResolveAll(cs, attrs).value <==> x in ResolveAll(cs', attrs).value
  {
    ResolvedElements(cs, attrs);
    ResolvedElements(cs', attrs);
  }

  /** The order of a bucket changes neither whether a plan exists, nor its mode, nor what the resolved tree means. */
  lemma ResolvedOrderIsIrrelevant(bucket: seq<Stored>, bucket': seq<Stored>, user: string, roles: set<string>, attrs: Attrs,
                                  r: Result<Plan, PolicyError>, r': Result<Plan, PolicyError>, row: Row)
    requires multiset(bucket) == multiset(bucket') && IsPlanFor(bucket, user, roles, attrs, r) && IsPlanFor(bucket', user, roles, attrs, r')
    ensures r.Failure? <==> r'.Failure?
    ensures r.Success? ==> r.value.Tree? == r'.value.Tree? && (r.value.Tree? ==> Meaning(r.value.c, row) == Meaning(r'.value.c, row))
  {
    forall s
      ensures s in bucket <==> s in bucket'
    {
      assert s in multiset(bucket) <==> s in multiset(bucket');
    }
    SameConds(bucket, bucket', user, roles, false);
    SameConds(bucket, bucket', user, roles, true);
    var allow, allow' := Conds(bucket, user, roles, false), Conds(bucket', user, roles, false);
    var deny, deny' := Conds(bucket, user, roles, true), Conds(bucket', user, roles, true);
    hide Conds, Meaning, Merged, Poisoned, NamesMissing, ResolveAll;
    NothingInBoth(allow, allow');
    NothingInBoth(deny, deny');
    if r.Success? && allow != [] {
      SameResolved(allow, allow', attrs);
      SameResolved(deny, deny', attrs);
      MergedAlike(ResolveAll(allow, attrs).value, ResolveAll(deny, attrs).value,
        ResolveAll(allow', attrs).value, ResolveAll(deny', attrs).value, row);
    }
  }

  lemma MergedAlike(allow: seq<Condition>, deny: seq<Condition>, allow': seq<Condition>, deny': seq<Condition>, row: Row)
    requires allow != [] && allow' != [] && (forall c :: c in allow <==> c in allow') && (forall c :: c in deny <==> c in deny')
    ensures Meaning(Merged(allow, deny), row) == Meaning(Merged(allow', deny'), row)
  {
    NothingInBoth(deny, deny');
    hide Meaning, Merged;
    MergedMeaning(allow, deny, row);
    MergedMeaning(allow', deny', row);
    SameMeaning(allow, allow', row);
    SameMeaning(deny, deny', row);
  }

  /** The truth of a policy's condition for this user on a row. */
  function ResolvedTruth(c: Condition, attrs: Attrs, row: Row): Truth {
    match ResolveVars(c, attrs)
    case Success(x) => Meaning(x, row)
    case Failure(_) => Unknown
  }

  /** Some selected allow policy is true of the row and every selected deny policy is false of it. */
  ghost predicate Passes(bucket: seq<Stored>, user: string, roles: set<string>, attrs: Attrs, row: Row) {
    && (exists s :: s in bucket && Selected(s, user, roles, false) && ResolvedTruth(s.cond.value, attrs, row) == True)
    && (forall s :: s in bucket && Selected(s, user, roles, true) ==> ResolvedTruth(s.cond.value, attrs, row) == False)
  }

  lemma TruthAt(cs: seq<Condition>, attrs: Attrs, row: Row)
    requires ResolveAll(cs, attrs).Success?
    ensures forall i :: 0 <= i < |cs| ==> ResolvedTruth(cs[i], attrs, row) == Meaning(ResolveAll(cs, attrs).value[i], row)
  {
    ResolvedAt(cs, attrs);
    hide ResolveAll, ResolveVars, Meaning;
  }

  lemma SomeResolved(cs: seq<Condition>, attrs: Attrs, row: Row, t: Truth)
    requires ResolveAll(cs, attrs).Success?
    ensures (exists x :: x in ResolveAll(cs, attrs).value && Meaning(x, row) == t) <==> (exists c :: c in cs && ResolvedTruth(c, attrs, row) == t)
  {
    TruthAt(cs, attrs, row);
    var out := ResolveAll(cs, attrs).value;
    hide ResolveAll, ResolvedTruth, Meaning;
    if x :| x in out && Meaning(x, row) == t {
      var i :| 0 <= i < |out| && out[i] == x;
      assert cs[i] in cs;
    }
    if c :| c in cs && ResolvedTruth(c, attrs, row) == t {
      var i :| 0 <= i < |cs| && cs[i] == c;
      assert out[i] in out;
    }
  }

  lemma EveryResolved(cs: seq<Condition>, attrs: Attrs, row: Row, t: Truth)
    requires ResolveAll(cs, attrs).Success?
    ensures (forall x :: x in ResolveAll(cs, attrs).value ==> Meaning(x, row) == t) <==> (forall c :: c in cs ==> ResolvedTruth(c, attrs, row) == t)
  {
    TruthAt(cs, attrs, row);
    var out := ResolveAll(cs, attrs).value;
    hide ResolveAll, ResolvedTruth, Meaning;
    if x :| x in out && Meaning(x, row) != t {
      var i :| 0 <= i < |out| && out[i] == x;
      assert cs[i] in cs;
    }
    if c :| c in cs && ResolvedTruth(c, attrs, row) != t {
      var i :| 0 <= i < |cs| && cs[i] == c;
      assert out[i] in out;
    }
  }

  /** A row satisfies the plan's tree exactly when it passes the selected policies. */
  lemma PlanDecidesRows(bucket: seq<Stored>, user: string, roles: set<string>, attrs: Attrs, r: Result<Plan, PolicyError>, row: Row)
    requires IsPlanFor(bucket, user, roles, attrs, r) && r.Success? && r.value.Tree?
    ensures Meaning(r.value.c, row) == True <==> Passes(bucket, user, roles, attrs, row)
  {
    var allow, deny := Conds(bucket, user, roles, false), Conds(bucket, user, roles, true);
    var a, d := ResolveAll(allow, attrs).value, ResolveAll(deny, attrs).value;
    RowPasses(a, d, row);
    SomeResolved(allow, attrs, row, True);
    EveryResolved(deny, attrs, row, False);
    hide ResolveAll, Conds, Meaning, Merged, ResolvedTruth, Poisoned, NamesMissing;
  }
}
