/** What a user's row filter means in terms of the stored data policies. */
module RowAccess {

  import opened Tables
  import opened Iac
  import opened DataRows
  import opened Conditions
  import opened DataTable
  import opened Filter

  // ---------------------------------------------------------------- evaluation without rewriting

  /** The value a leaf is compared with for a user with these attributes; none when the user lacks a variable. */
  function ValueFor(v: Value, attrs: Attrs): Option<Value>
    decreases v, 0
  {
    match v
    case Str(s) =>
      if !("$user." <= s) then Some(v)
      else if s[6..] in attrs then Some(attrs[s[6..]])
      else None
    case Arr(items) =>
      (match ValuesFor(items, attrs)
       case Some(vs) => Some(Arr(vs))
       case None => None)
    case _ => Some(v)
  }

  function ValuesFor(items: seq<Value>, attrs: Attrs): Option<seq<Value>>
    decreases items, 1
  {
    if items == [] then Some([])
    else
      match (ValueFor(items[0], attrs), ValuesFor(items[1..], attrs))
      case (Some(v), Some(vs)) => Some([v] + vs)
      case _ => None
  }

  /** The truth of a condition on a row for a user with these attributes; a leaf without its variable is unknown. */
  function TruthFor(c: Condition, attrs: Attrs, row: Row): Truth
    decreases c, 0
  {
    if c.op == "AND" then All(TruthsFor(c.children, attrs, row))
    else if c.op == "OR" then Any(TruthsFor(c.children, attrs, row))
    else if c.op == "NOT" && |c.children| == 1 then Negate(TruthFor(c.children[0], attrs, row))
    else
      match ValueFor(c.value, attrs)
      case Some(v) => row(c.field, c.op, v)
      case None => Unknown
  }

  function TruthsFor(cs: seq<Condition>, attrs: Attrs, row: Row): (ts: seq<Truth>)
    ensures |ts| == |cs| && forall i :: 0 <= i < |cs| ==> ts[i] == TruthFor(cs[i], attrs, row)
    decreases cs, 1
  {
    if cs == [] then [] else [TruthFor(cs[0], attrs, row)] + TruthsFor(cs[1..], attrs, row)
  }

  /** A resolved leaf holds exactly the value the user's attributes give it, and resolving fails exactly when there is none. */
  lemma {:induction false} ResolvedValueIs(v: Value, attrs: Attrs)
    ensures ResolveValue(v, attrs).Success? <==> ValueFor(v, attrs).Some?
    ensures ResolveValue(v, attrs).Success? ==> ResolveValue(v, attrs).value == ValueFor(v, attrs).value
    decreases v, 0
  {
    if v.Arr? {
      ResolvedItemsAre(v.items, attrs);
    }
  }

  lemma {:induction false} ResolvedItemsAre(items: seq<Value>, attrs: Attrs)
    ensures ResolveItems(items, attrs).Success? <==> ValuesFor(items, attrs).Some?
    ensures ResolveItems(items, attrs).Success? ==> ResolveItems(items, attrs).value == ValuesFor(items, attrs).value
    decreases items, 1
  {
    if items != [] {
      ResolvedValueIs(items[0], attrs);
      ResolvedItemsAre(items[1..], attrs);
    }
  }

  /** Where "$user." and a name stood, the attribute of that name stands, or resolving fails; any other text stays. */
  lemma VariableIsReplaced(name: string, text: string, attrs: Attrs)
    ensures name in attrs ==> ResolveValue(Str("$user." + name), attrs) == Success(attrs[name])
    ensures name !in attrs ==> ResolveValue(Str("$user." + name), attrs) == Failure(MissingVar(name))
    ensures !("$user." <= text) ==> ResolveValue(Str(text), attrs) == Success(Str(text))
  {
    assert ("$user." + name)[6..] == name;
  }

  /** Resolving a valid condition first and reading it afterwards is reading it with the attributes. */
  lemma {:induction false} ResolvedMeans(c: Condition, attrs: Attrs, row: Row)
    requires Conditions.Valid(c) && ResolveVars(c, attrs).Success?
    ensures Meaning(ResolveVars(c, attrs).value, row) == TruthFor(c, attrs, row)
    decreases c, 0
  {
    if Logical(c.op) {
      ResolvedAllMean(c.children, attrs, row);
    } else {
      ResolvedValueIs(c.value, attrs);
    }
  }

  lemma {:induction false} ResolvedAllMean(cs: seq<Condition>, attrs: Attrs, row: Row)
    requires (forall i :: 0 <= i < |cs| ==> Conditions.Valid(cs[i])) && ResolveAll(cs, attrs).Success?
    ensures Meanings(ResolveAll(cs, attrs).value, row) == TruthsFor(cs, attrs, row)
    decreases cs, 1
  {
    if cs != [] {
      ResolvedMeans(cs[0], attrs, row);
      ResolvedAllMean(cs[1..], attrs, row);
    }
  }

  // ---------------------------------------------------------------- variables that remain

  predicate HasVariable(v: Value)
    decreases v
  {
    match v
    case Str(s) => "$user." <= s
    case Arr(items) => exists i :: 0 <= i < |items| && HasVariable(items[i])
    case _ => false
  }

  /** Some variable in the value names an attribute that itself looks like a variable. */
  predicate NamesVariable(v: Value, attrs: Attrs)
    decreases v
  {
    match v
    case Str(s) => "$user." <= s && s[6..] in attrs && HasVariable(attrs[s[6..]])
    case Arr(items) => exists i :: 0 <= i < |items| && NamesVariable(items[i], attrs)
    case _ => false
  }

  /** A resolved value holds a variable exactly when an attribute that was put in does: what is put in is not resolved again. */
  lemma {:induction false} VariablesRemain(v: Value, attrs: Attrs)
    requires ResolveValue(v, attrs).Success?
    ensures HasVariable(ResolveValue(v, attrs).value) <==> NamesVariable(v, attrs)
    decreases v, 0
  {
    if v.Arr? {
      ItemsRemain(v.items, attrs);
    }
  }

  lemma {:induction false} ItemsRemain(items: seq<Value>, attrs: Attrs)
    requires ResolveItems(items, attrs).Success?
    ensures forall i :: 0 <= i < |items| ==> (HasVariable(ResolveItems(items, attrs).value[i]) <==> NamesVariable(items[i], attrs))
    decreases items, 1
  {
    if items != [] {
      VariablesRemain(items[0], attrs);
      ItemsRemain(items[1..], attrs);
      forall i | 0 < i < |items|
        ensures HasVariable(ResolveItems(items, attrs).value[i]) <==> NamesVariable(items[i], attrs)
      {
        assert items[1..][i - 1] == items[i];
      }
    }
  }

  // ---------------------------------------------------------------- from buckets to policies

  /** Only valid conditions are parsed. */
  ghost predicate ParsesValid(parse: Parser) {
    forall text :: parse(text).Success? ==> Conditions.Valid(parse(text).value)
  }

  /** The policy is one of the resource, and its subject is the user or one of the roles. */
  predicate Concerns(p: DataPolicy, resource: string, user: string, roles: set<string>) {
    p.resource == resource
    && ((p.subjectType == "user" && p.subjectId == user) || (p.subjectType == "role" && p.subjectId in roles))
  }

  lemma BucketEntry(parse: Parser, m: Buckets, ps: map<nat, DataPolicy>, resource: string, user: string, roles: set<string>, s: Stored)
    requires StandsFor(parse, m, ps) && s in BucketOf(m, resource)
    ensures s.id in ps && ps[s.id].resource == resource && s == ToStored(parse, ps[s.id])
    ensures SubjectMatches(s, user, roles) <==> Concerns(ps[s.id], resource, user, roles)
  {
    InBucket(parse, m, ps, resource, s);
  }

  lemma PolicyEntry(parse: Parser, m: Buckets, ps: map<nat, DataPolicy>, resource: string, id: nat)
    requires StandsFor(parse, m, ps) && id in ps && ps[id].resource == resource
    ensures ToStored(parse, ps[id]) in BucketOf(m, resource) && ToStored(parse, ps[id]).id == id
  {
    InBucket(parse, m, ps, resource, ToStored(parse, ps[id]));
  }

  lemma BucketIsValid(parse: Parser, m: Buckets, ps: map<nat, DataPolicy>, resource: string)
    requires StandsFor(parse, m, ps) && ParsesValid(parse)
    ensures forall s :: s in BucketOf(m, resource) && s.cond.Success? ==> Conditions.Valid(s.cond.value)
  {
    hide StandsFor, BucketOf;
    forall s | s in BucketOf(m, resource) && s.cond.Success?
      ensures Conditions.Valid(s.cond.value)
    {
      BucketEntry(parse, m, ps, resource, "", {}, s);
    }
  }

  /** A resource is configured exactly when some policy is about it. */
  lemma ConfiguredIff(parse: Parser, m: Buckets, ps: map<nat, DataPolicy>, resource: string)
    requires StandsFor(parse, m, ps)
    ensures resource in m <==> exists id :: id in ps && ps[id].resource == resource
  {
    if resource in m {
      var s := m[resource][0];
      assert s in BucketOf(m, resource);
      InBucket(parse, m, ps, resource, s);
    }
    if id :| id in ps && ps[id].resource == resource {
      PolicyEntry(parse, m, ps, resource, id);
    }
  }

  /** The policy is poisoned: its effect is unknown, or its condition does not parse. */
  lemma PoisonedIff(parse: Parser, m: Buckets, ps: map<nat, DataPolicy>, resource: string, user: string, roles: set<string>)
    requires StandsFor(parse, m, ps)
    ensures (exists s :: s in BucketOf(m, resource) && Poisoned(s, user, roles)) <==>
      exists id :: id in ps && Concerns(ps[id], resource, user, roles)
        && ((ps[id].effect != "" && ps[id].effect != "allow" && ps[id].effect != "deny") || parse(ps[id].condition).Failure?)
  {
    if s :| s in BucketOf(m, resource) && Poisoned(s, user, roles) {
      BucketEntry(parse, m, ps, resource, user, roles, s);
    }
    if exists id :: id in ps && Concerns(ps[id], resource, user, roles)
        && ((ps[id].effect != "" && ps[id].effect != "allow" && ps[id].effect != "deny") || parse(ps[id].condition).Failure?)
    {
      var id :| id in ps && Concerns(ps[id], resource, user, roles)
        && ((ps[id].effect != "" && ps[id].effect != "allow" && ps[id].effect != "deny") || parse(ps[id].condition).Failure?);
      PolicyEntry(parse, m, ps, resource, id);
      BucketEntry(parse, m, ps, resource, user, roles, ToStored(parse, ps[id]));
    }
  }

  predicate HasEffect(p: DataPolicy, deny: bool) {
    if deny then p.effect == "deny" else p.effect == "allow" || p.effect == ""
  }

  /** The selected conditions are those of the policies that concern the user and have the effect. */
  lemma CondsOfPolicies(parse: Parser, m: Buckets, ps: map<nat, DataPolicy>, resource: string, user: string, roles: set<string>, deny: bool)
    requires StandsFor(parse, m, ps)
    ensures forall c :: c in Conds(BucketOf(m, resource), user, roles, deny) <==>
      exists id :: id in ps && Concerns(ps[id], resource, user, roles) && HasEffect(ps[id], deny) && parse(ps[id].condition) == Success(c)
  {
    var bucket := BucketOf(m, resource);
    hide BucketOf, Conds, StandsFor;
    forall c | c in Conds(bucket, user, roles, deny)
      ensures exists id :: id in ps && Concerns(ps[id], resource, user, roles) && HasEffect(ps[id], deny) && parse(ps[id].condition) == Success(c)
    {
      var s :| s in bucket && Selected(s, user, roles, deny) && s.cond.value == c;
      BucketEntry(parse, m, ps, resource, user, roles, s);
    }
    forall c, id | id in ps && Concerns(ps[id], resource, user, roles) && HasEffect(ps[id], deny) && parse(ps[id].condition) == Success(c)
      ensures c in Conds(bucket, user, roles, deny)
    {
      var s := ToStored(parse, ps[id]);
      PolicyEntry(parse, m, ps, resource, id);
      BucketEntry(parse, m, ps, resource, user, roles, s);
      assert Selected(s, user, roles, deny) && s.cond.value == c;
    }
  }

  // ---------------------------------------------------------------- the plan, in terms of the policies

  /** Whether a plan exists and which mode it has. */
  lemma PlanOfPolicies(parse: Parser, m: Buckets, ps: map<nat, DataPolicy>, resource: string, user: string, roles: set<string>,
                       attrs: Attrs, r: Result<Plan, PolicyError>)
    requires StandsFor(parse, m, ps) && IsPlanFor(BucketOf(m, resource), user, roles, attrs, r)
    ensures r.Success? ==>
      (r.value == DenyAll <==>
        !(exists id ::
            id in ps && ps[id].resource == resource
            && ((ps[id].subjectType == "user" && ps[id].subjectId == user) || (ps[id].subjectType == "role" && ps[id].subjectId in roles))
            && (ps[id].effect == "allow" || ps[id].effect == "")))
    ensures r.Success? ==> r.value.DenyAll? || r.value.Tree?
    ensures r.Failure? <==>
      || (exists id ::
            id in ps && Concerns(ps[id], resource, user, roles)
            && ((ps[id].effect != "" && ps[id].effect != "allow" && ps[id].effect != "deny") || parse(ps[id].condition).Failure?))
      || ((exists id :: id in ps && Concerns(ps[id], resource, user, roles) && HasEffect(ps[id], false) && parse(ps[id].condition).Success?)
          && (exists id ::
                id in ps && Concerns(ps[id], resource, user, roles) && (HasEffect(ps[id], false) || HasEffect(ps[id], true))
                && parse(ps[id].condition).Success? && NamesMissing(parse(ps[id].condition).value, attrs)))
  {
    var bucket := BucketOf(m, resource);
    var allow, deny := Conds(bucket, user, roles, false), Conds(bucket, user, roles, true);
    PoisonedIff(parse, m, ps, resource, user, roles);
    CondsOfPolicies(parse, m, ps, resource, user, roles, false);
    CondsOfPolicies(parse, m, ps, resource, user, roles, true);
    hide StandsFor, BucketOf, Conds, Poisoned, NamesMissing, ResolveAll, Merged;
    AllowExists(parse, ps, resource, user, roles, allow);
    MissingExists(parse, ps, resource, user, roles, attrs, allow, deny);
  }

  ghost predicate Yields(parse: Parser, ps: map<nat, DataPolicy>, resource: string, user: string, roles: set<string>, deny: bool, c: Condition) {
    exists id :: id in ps && Concerns(ps[id], resource, user, roles) && HasEffect(ps[id], deny) && parse(ps[id].condition) == Success(c)
  }

  lemma AllowExists(parse: Parser, ps: map<nat, DataPolicy>, resource: string, user: string, roles: set<string>, allow: seq<Condition>)
    requires forall c :: c in allow <==> Yields(parse, ps, resource, user, roles, false, c)
    ensures allow != [] <==>
      exists id :: id in ps && Concerns(ps[id], resource, user, roles) && HasEffect(ps[id], false) && parse(ps[id].condition).Success?
  {
    if allow != [] {
      assert allow[0] in allow;
    }
    if id :| id in ps && Concerns(ps[id], resource, user, roles) && HasEffect(ps[id], false) && parse(ps[id].condition).Success? {
      assert parse(ps[id].condition).value in allow;
    }
  }

  lemma MissingExists(parse: Parser, ps: map<nat, DataPolicy>, resource: string, user: string, roles: set<string>, attrs: Attrs,
                      allow: seq<Condition>, deny: seq<Condition>)
    requires forall c :: c in allow <==> Yields(parse, ps, resource, user, roles, false, c)
    requires forall c :: c in deny <==> Yields(parse, ps, resource, user, roles, true, c)
    ensures (exists c :: (c in allow || c in deny) && NamesMissing(c, attrs)) <==>
      exists id :: id in ps && Concerns(ps[id], resource, user, roles) && (HasEffect(ps[id], false) || HasEffect(ps[id], true))
                   && parse(ps[id].condition).Success? && NamesMissing(parse(ps[id].condition).value, attrs)
  {
    hide NamesMissing;
    if id :| id in ps && Concerns(ps[id], resource, user, roles) && (HasEffect(ps[id], false) || HasEffect(ps[id], true))
             && parse(ps[id].condition).Success? && NamesMissing(parse(ps[id].condition).value, attrs) {
      var c := parse(ps[id].condition).value;
      assert c in allow || c in deny;
    }
  }

  /** The truth of a policy's condition on a row for a user with these attributes. */
  function PolicyTruth(parse: Parser, p: DataPolicy, attrs: Attrs, row: Row): Truth {
    match parse(p.condition)
    case Success(c) => TruthFor(c, attrs, row)
    case Failure(_) => Unknown
  }

  /** A row passes the selected stored policies exactly when it passes the policies themselves. */
  lemma PassesPolicies(parse: Parser, m: Buckets, ps: map<nat, DataPolicy>, resource: string, user: string, roles: set<string>,
                       attrs: Attrs, r: Result<Plan, PolicyError>, row: Row)
    requires StandsFor(parse, m, ps) && ParsesValid(parse) && IsPlanFor(BucketOf(m, resource), user, roles, attrs, r)
    requires r.Success? && r.value.Tree?
    ensures Passes(BucketOf(m, resource), user, roles, attrs, row) <==>
      && (exists id :: id in ps && Concerns(ps[id], resource, user, roles) && HasEffect(ps[id], false) && PolicyTruth(parse, ps[id], attrs, row) == True)
      && (forall id :: id in ps && Concerns(ps[id], resource, user, roles) && HasEffect(ps[id], true) ==> PolicyTruth(parse, ps[id], attrs, row) == False)
  {
    var bucket := BucketOf(m, resource);
    hide StandsFor, BucketOf, IsPlanFor, ResolvedTruth;
    forall id, deny | id in ps && Concerns(ps[id], resource, user, roles) && HasEffect(ps[id], deny)
      ensures var s := ToStored(parse, ps[id]);
        s in bucket && Selected(s, user, roles, deny) && ResolvedTruth(s.cond.value, attrs, row) == PolicyTruth(parse, ps[id], attrs, row)
    {
      PolicyIsSelected(parse, m, ps, resource, user, roles, attrs, r, row, id, deny);
    }
    forall s, deny | s in bucket && Selected(s, user, roles, deny)
      ensures s.id in ps && Concerns(ps[s.id], resource, user, roles) && HasEffect(ps[s.id], deny)
      ensures ResolvedTruth(s.cond.value, attrs, row) == PolicyTruth(parse, ps[s.id], attrs, row)
    {
      BucketEntry(parse, m, ps, resource, user, roles, s);
      assert s == ToStored(parse, ps[s.id]);
      PolicyIsSelected(parse, m, ps, resource, user, roles, attrs, r, row, s.id, deny);
    }
    hide Selected, Concerns, HasEffect, PolicyTruth, ToStored;
  }

  lemma PolicyIsSelected(parse: Parser, m: Buckets, ps: map<nat, DataPolicy>, resource: string, user: string, roles: set<string>,
                         attrs: Attrs, r: Result<Plan, PolicyError>, row: Row, id: nat, deny: bool)
    requires StandsFor(parse, m, ps) && ParsesValid(parse) && IsPlanFor(BucketOf(m, resource), user, roles, attrs, r)
    requires r.Success? && r.value.Tree? && id in ps && Concerns(ps[id], resource, user, roles) && HasEffect(ps[id], deny)
    ensures var s := ToStored(parse, ps[id]);
      && s in BucketOf(m, resource) && Selected(s, user, roles, deny)
      && ResolvedTruth(s.cond.value, attrs, row) == PolicyTruth(parse, ps[id], attrs, row)
  {
    var s, bucket := ToStored(parse, ps[id]), BucketOf(m, resource);
    PolicyEntry(parse, m, ps, resource, id);
    BucketEntry(parse, m, ps, resource, user, roles, s);
    hide StandsFor, BucketOf;
    var allow, deny' := Conds(bucket, user, roles, false), Conds(bucket, user, roles, true);
    assert !Poisoned(s, user, roles);
    var c := s.cond.value;
    assert Selected(s, user, roles, deny) && c in if deny then deny' else allow;
    SelectedResolves(allow, deny', attrs, c);
    ResolvedMeans(c, attrs, row);
  }

  lemma SelectedResolves(allow: seq<Condition>, deny: seq<Condition>, attrs: Attrs, c: Condition)
    requires ResolveAll(allow, attrs).Success? && ResolveAll(deny, attrs).Success? && (c in allow || c in deny)
    ensures ResolveVars(c, attrs).Success?
  {
    ResolvedAt(allow, attrs);
    ResolvedAt(deny, attrs);
    hide ResolveAll, ResolveVars;
  }

  /**
   The plan's tree is true of a row exactly when some allow policy of the resource for the user, or for one of the user's
   roles, is true of it, and every such deny policy is false of it.
   */
  lemma PlanDecidesPolicies(parse: Parser, m: Buckets, ps: map<nat, DataPolicy>, resource: string, user: string, roles: set<string>,
                            attrs: Attrs, r: Result<Plan, PolicyError>, row: Row)
    requires StandsFor(parse, m, ps) && ParsesValid(parse) && IsPlanFor(BucketOf(m, resource), user, roles, attrs, r)
    requires r.Success? && r.value.Tree?
    ensures Meaning(r.value.c, row) == True <==>
      && (exists id ::
            id in ps && ps[id].resource == resource
            && ((ps[id].subjectType == "user" && ps[id].subjectId == user) || (ps[id].subjectType == "role" && ps[id].subjectId in roles))
            && (ps[id].effect == "allow" || ps[id].effect == "") && PolicyTruth(parse, ps[id], attrs, row) == True)
      && (forall id | id in ps && ps[id].resource == resource && ps[id].effect == "deny"
              && ((ps[id].subjectType == "user" && ps[id].subjectId == user) || (ps[id].subjectType == "role" && ps[id].subjectId in roles)) ::
            PolicyTruth(parse, ps[id], attrs, row) == False)
  {
    hide StandsFor, BucketOf, IsPlanFor, Passes, Meaning, PolicyTruth, ParsesValid;
    PlanDecidesRows(BucketOf(m, resource), user, roles, attrs, r, row);
    PassesPolicies(parse, m, ps, resource, user, roles, attrs, r, row);
  }
}
