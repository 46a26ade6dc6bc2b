/** The sidecar's decision kernel: rules, version, readiness, the data table and the decision cache. */
module Engine {

  import opened Graph
  import opened Rules
  import opened Tables
  import opened Projection
  import opened Iac
  import opened Enforcement
  import opened Conditions
  import opened Cache
  import opened DataTable
  import opened VersionedWrite
  import opened Wire

  datatype KernelError = NotReady | ForeignDomain | StaleVersion | CasbinFailed | BadRequest

  /** The domain column of a rule, by section; a rule of an unknown section has none. */
  function DomainOf(r: Rule): string {
    if r.ptype == "p" then r.v[1] else if r.ptype == "g" then r.v[2] else ""
  }

  /** Rules of an unknown section never reach the store. */
  function Loaded(rules: seq<Rule>): set<Rule> {
    set r | r in rules && Sectioned(r)
  }

  function Add(rules: set<Rule>, r: Rule): set<Rule> {
    if Sectioned(r) then rules + {r} else rules
  }

  /** Adding a present rule or removing an absent one changes nothing. */
  function Step(rules: set<Rule>, c: PolicyChange): set<Rule> {
    match c.op
    case ChangeAdd => Add(rules, c.rule)
    case ChangeRemove => rules - {c.rule}
    case ChangeUpdate => Add(rules - {c.oldRule}, c.rule)
  }

  function Steps(rules: set<Rule>, cs: seq<PolicyChange>): set<Rule> {
    if cs == [] then rules else Step(Steps(rules, cs[..|cs| - 1]), cs[|cs| - 1])
  }

  /** Every rule an exact delta adds is kept when only rules of the two sections are committed. */
  lemma SectionedAddsLoad(before: set<Rule>, d: Delta, after: set<Rule>)
    requires ExactDelta(before, d, after) && AllSectioned(after)
    ensures Loaded(d.adds) == Elements(d.adds)
  {
    forall r | r in Elements(d.adds)
      ensures Sectioned(r)
    {
      assert r in after;
    }
  }

  lemma ElementsNext(xs: seq<Rule>, n: nat)
    requires 0 < n <= |xs|
    ensures Elements(xs[..n]) == Elements(xs[..n - 1]) + {xs[n - 1]}
  {
    assert xs[..n] == xs[..n - 1] + [xs[n - 1]];
  }

  /** The rules after the first `n` arrived changes. */
  ghost function AfterArrived(rules: set<Rule>, d: Delta, n: nat): set<Rule>
    requires n <= |d.adds| + |d.removes|
  {
    if n <= |d.adds| then rules + Loaded(d.adds[..n]) else (rules + Loaded(d.adds)) - Elements(d.removes[..n - |d.adds|])
  }

  lemma AfterOneMore(rules: set<Rule>, d: Delta, n: nat)
    requires 0 < n <= |d.adds| + |d.removes|
    ensures AfterArrived(rules, d, n) == Step(AfterArrived(rules, d, n - 1), Arrived(d, n - 1))
  {
    if n <= |d.adds| {
      ElementsNext(d.adds, n);
    } else {
      var m := n - |d.adds|;
      ElementsNext(d.removes, m);
      assert d.adds[..|d.adds|] == d.adds;
      assert m == 1 ==> Elements(d.removes[..0]) == {};
    }
  }

  lemma {:induction false} ArrivedEffect(rules: set<Rule>, d: Delta, k: KernelDelta, n: nat)
    requires IsArrival(d, k) && n <= |k.policyChanges|
    ensures Steps(rules, k.policyChanges[..n]) == AfterArrived(rules, d, n)
  {
    if n > 0 {
      ArrivedEffect(rules, d, k, n - 1);
      assert k.policyChanges[..n][..n - 1] == k.policyChanges[..n - 1];
      AfterOneMore(rules, d, n);
    }
  }

  /** Applying a decoded delta adds its adds and then removes its removes; for an exact delta that is the committed result. */
  lemma WireKeepsRuleEffect(before: set<Rule>, d: Delta, k: KernelDelta)
    requires IsDecoding(EncodeDelta(d), k)
    ensures k.version == d.version && k.dataChanges == d.changes
    ensures Steps(before, k.policyChanges) == (before + Loaded(d.adds)) - Elements(d.removes)
    ensures forall after | ExactDelta(before, d, after) && AllSectioned(after) :: Steps(before, k.policyChanges) == after
  {
    EncodedDecodes(d);
    ArrivedEffect(before, d, k, |k.policyChanges|);
    assert k.policyChanges[..|k.policyChanges|] == k.policyChanges;
    assert d.removes[..|d.removes|] == d.removes && d.adds[..|d.adds|] == d.adds;
    if d.removes == [] {
      assert Elements(d.removes) == {};
    }
    forall after | ExactDelta(before, d, after) && AllSectioned(after)
      ensures (before + Loaded(d.adds)) - Elements(d.removes) == after
    {
      SectionedAddsLoad(before, d, after);
      OrderDoesNotMatter(before, d, after);
    }
  }

  predicate InDomain(domain: string, c: PolicyChange) {
    DomainOf(c.rule) == domain && (c.op == ChangeUpdate ==> DomainOf(c.oldRule) == domain)
  }

  /** Projected rules carry their domain where the kernel looks for it, whatever the section. */
  lemma DomainColumns(member: string, role: string, p: Permission, effect: string, domain: string)
    ensures DomainOf(GroupingRule(member, role, domain)) == domain && DomainOf(PermissionRule(role, domain, p, effect)) == domain
    ensures Sectioned(GroupingRule(member, role, domain)) && Sectioned(PermissionRule(role, domain, p, effect))
  {
  }

  /** Every rule of an application's projection is at home in its domain. */
  lemma ProjectedIsHome(t: Tables, domain: string)
    ensures forall r | r in Project(t, domain) :: DomainOf(r) == domain && Sectioned(r)
  {
  }

  /** What arrives of a committed delta is never foreign to the application's kernel. */
  lemma CommittedDeltaIsHome(d: Delta, k: KernelDelta, t: Tables, t': Tables, domain: string)
    requires IsDecoding(EncodeDelta(d), k)
    requires Elements(d.adds) <= Project(t', domain) && Elements(d.removes) <= Project(t, domain)
    ensures forall i | 0 <= i < |k.policyChanges| ::
      && InDomain(domain, k.policyChanges[i]) && k.policyChanges[i].op != ChangeUpdate
      && var r := k.policyChanges[i].rule; (r.ptype == "p" && r.v[1] == domain) || (r.ptype == "g" && r.v[2] == domain)
  {
    EncodedDecodes(d);
    ProjectedIsHome(t, domain);
    ProjectedIsHome(t', domain);
    hide Project, IsDecoding, EncodeDelta;
    forall i | 0 <= i < |k.policyChanges|
      ensures k.policyChanges[i].op != ChangeUpdate && DomainOf(k.policyChanges[i].rule) == domain && Sectioned(k.policyChanges[i].rule)
    {
      assert k.policyChanges[i] == Arrived(d, i);
      assert k.policyChanges[i].rule in Elements(d.adds) || k.policyChanges[i].rule in Elements(d.removes);
    }
  }

  type Request = (string, string, string, string)

  ghost predicate Answer(rules: set<Rule>, q: Request) {
    Decide(rules, q.1, q.0, q.2, q.3)
  }

  /** The matcher, rule by rule. */
  method Evaluate(rules: set<Rule>, q: Request) returns (ok: bool)
    ensures ok == Answer(rules, q)
  {
    var links := Links(rules, q.1);
    var allowed, denied := false, false;
    var todo := rules;
    while todo != {}
      invariant todo <= rules
      invariant allowed <==> exists r :: r in rules - todo && Matches(rules, r, q.1, q.0, q.2, q.3) && r.v[4] == ALLOW
      invariant denied <==> exists r :: r in rules - todo && Matches(rules, r, q.1, q.0, q.2, q.3) && r.v[4] == DENY
      decreases todo
    {
      var r: Rule :| r in todo;
      ghost var seen := rules - todo;
      todo := todo - {r};
      assert rules - todo == seen + {r};
      if r.ptype == "p" && r.v[1] == q.1 && r.v[2] == q.2 && r.v[3] == q.3 {
        var unlinked := CheckNoCycle(links, r.v[0], q.0);
        assert Matches(rules, r, q.1, q.0, q.2, q.3) <==> !unlinked;
        allowed := allowed || (!unlinked && r.v[4] == ALLOW);
        denied := denied || (!unlinked && r.v[4] == DENY);
      }
    }
    assert rules - todo == rules;
    ok := allowed && !denied;
  }

  /** The two sections of a snapshot. */
  method Sections(rules: seq<Rule>) returns (pRules: set<Rule>, gRules: set<Rule>)
    ensures pRules + gRules == Loaded(rules)
  {
    pRules, gRules := {}, {};
    for i := 0 to |rules|
      invariant pRules + gRules == Loaded(rules[..i])
    {
      assert rules[..i + 1] == rules[..i] + [rules[i]];
      assert Loaded(rules[..i + 1]) == Loaded(rules[..i]) + if Sectioned(rules[i]) then {rules[i]} else {};
      if rules[i].ptype == "p" {
        pRules := pRules + {rules[i]};
      } else if rules[i].ptype == "g" {
        gRules := gRules + {rules[i]};
      }
    }
    assert rules[..|rules|] == rules;
  }

  method HasForeign(rules: seq<Rule>, domain: string) returns (foreign: bool)
    ensures foreign <==> exists r :: r in rules && DomainOf(r) != domain
    ensures !foreign ==> forall r | r in Loaded(rules) :: DomainOf(r) == domain
  {
    for i := 0 to |rules|
      invariant forall j :: 0 <= j < i ==> DomainOf(rules[j]) == domain
    {
      if DomainOf(rules[i]) != domain {
        return true;
      }
    }
    foreign := false;
  }

  /** The rules of a projection load as they are, and a rule of another domain shows. */
  lemma SnapshotsOfProjections(rules: seq<Rule>, domain: string)
    ensures forall t: Tables | Elements(rules) <= Project(t, domain) ::
      (forall r | r in rules :: DomainOf(r) == domain) && Loaded(rules) == Elements(rules)
    ensures forall member, role, other | GroupingRule(member, role, other) in rules :: DomainOf(GroupingRule(member, role, other)) == other
    ensures forall role, other, p, effect | PermissionRule(role, other, p, effect) in rules :: DomainOf(PermissionRule(role, other, p, effect)) == other
  {
    forall t: Tables | Elements(rules) <= Project(t, domain)
      ensures (forall r | r in rules :: DomainOf(r) == domain) && Loaded(rules) == Elements(rules)
    {
      ProjectedIsHome(t, domain);
      hide Project;
      assert forall r | r in rules :: r in Elements(rules);
    }
  }

  class Kernel {
    const domain: string
    var rules: set<Rule>
    var version: nat
    var ready: bool
    const table: Table
    const cache: BoundedCache<Request>

    constructor (domain: string, parse: Parser)
      ensures Valid() && this.domain == domain && rules == {} && version == 0 && !ready
      ensures fresh(table) && fresh(cache) && fresh(cache.ll) && table.parse == parse && cache.capacity == 1024
    {
      this.domain := domain;
      rules, version, ready := {}, 0, false;
      table := new Table(parse);
      cache := new BoundedCache<Request>(1024);
    }

    /** While ready, every cached decision is the one the current rules give. */
    ghost predicate Valid()
      reads this, cache, cache.ll
    {
      && cache.Valid()
      && (forall r | r in rules :: DomainOf(r) == domain)
      && (ready ==> CacheIsFresh())
    }

    ghost predicate CacheIsFresh()
      reads this, cache, cache.ll
      requires cache.Valid()
    {
      forall q | q in cache.Keys() :: cache.Values()[q] == Answer(rules, q)
    }

    /** Clears the store and adds the two sections, each with one call when it is not empty. */
    method LoadSections(rs: seq<Rule>, calls: nat) returns (ok: bool, left: nat)
      requires forall r | r in Loaded(rs) :: DomainOf(r) == domain
      modifies this`rules
      ensures forall r | r in rules :: DomainOf(r) == domain
      ensures ok ==> rules == Loaded(rs) && calls - 2 <= left <= calls
      ensures calls >= 2 ==> ok
    {
      hide Loaded, DomainOf;
      rules, left := {}, calls;
      var pRules, gRules := Sections(rs);
      if pRules != {} {
        if left == 0 {
          return false, left;
        }
        left := left - 1;
        rules := rules + pRules;
      }
      if gRules != {} {
        if left == 0 {
          return false, left;
        }
        left := left - 1;
        rules := rules + gRules;
      }
      ok := true;
    }

    /**
     Rebuilds everything from a snapshot. A foreign rule is refused up front and nothing changes;
     once rebuilding has begun, a failing call leaves the kernel not ready. At most `calls` store calls succeed.
     */
    method ApplySnapshot(s: KernelSnapshot, calls: nat) returns (r: Result<(), KernelError>)
      requires Valid()
      modifies this, table, cache
      ensures Valid() && (cache.ll == old(cache.ll) || cache.ll == [])
      ensures (exists x :: x in s.rules && DomainOf(x) != domain) <==> r == Failure(ForeignDomain)
      ensures r == Failure(ForeignDomain) ==> unchanged(this) && unchanged(table)
      ensures r.Failure? && r != Failure(ForeignDomain) ==> !ready && version == old(version)
      ensures r.Success? ==> ready && version == s.version && rules == Loaded(s.rules) && table.byRes == Rebuilt(table.parse, s.policies)
      ensures calls >= 3 ==> r.Success? || r == Failure(ForeignDomain)
      ensures forall t: Tables | Elements(s.rules) <= Project(t, domain) ::
        r != Failure(ForeignDomain) && (r.Success? ==> rules == Elements(s.rules)) && (calls >= 3 ==> r.Success?)
      ensures forall member, role, other | other != domain && GroupingRule(member, role, other) in s.rules :: r == Failure(ForeignDomain)
      ensures forall role, other, p, effect | other != domain && PermissionRule(role, other, p, effect) in s.rules :: r == Failure(ForeignDomain)
    {
      SnapshotsOfProjections(s.rules, domain);
      hide Answer, Loaded, Rebuilt, Indexes, NoRepeat, Project, DomainOf, GroupingRule, PermissionRule;
      var foreign := HasForeign(s.rules, domain);
      if foreign {
        return Failure(ForeignDomain);
      }
      var loaded, left := LoadSections(s.rules, calls);
      if !loaded {
        ready := false;
        return Failure(CasbinFailed);
      }
      table.ApplySnapshot(s.policies);
      if left == 0 {
        ready := false;
        return Failure(CasbinFailed);
      }
      cache.Clear();
      version, ready := s.version, true;
      return Success(());
    }

    method ApplyPolicyChange(c: PolicyChange)
      requires InDomain(domain, c) && forall r | r in rules :: DomainOf(r) == domain
      modifies this`rules
      ensures rules == Step(old(rules), c) && forall r | r in rules :: DomainOf(r) == domain
      ensures c.op == ChangeRemove ==> rules == old(rules) - {c.rule}
      ensures c.rule.ptype == "p" || c.rule.ptype == "g" ==>
        && (c.op == ChangeAdd ==> rules == old(rules) + {c.rule})
        && (c.op == ChangeUpdate ==> rules == (old(rules) - {c.oldRule}) + {c.rule})
    {
      match c.op
      case ChangeAdd =>
        if Sectioned(c.rule) {
          rules := rules + {c.rule};
        }
      case ChangeRemove => rules := rules - {c.rule};
      case ChangeUpdate =>
        rules := rules - {c.oldRule};
        if Sectioned(c.rule) {
          rules := rules + {c.rule};
        }
    }

    /**
     Applies one delta. A version that is not newer and a foreign rule are refused up front and nothing changes;
     later failures leave the kernel not ready. A success moves the version and clears the cache, but never makes a kernel ready.
     */
    method ApplyDelta(d: KernelDelta, calls: nat) returns (r: Result<(), KernelError>)
      requires Valid()
      modifies this, table, cache
      ensures Valid() && (cache.ll == old(cache.ll) || cache.ll == [])
      ensures d.version <= old(version) <==> r == Failure(StaleVersion)
      ensures r == Failure(StaleVersion) || r == Failure(ForeignDomain) ==> unchanged(this) && unchanged(table)
      ensures d.version > old(version) ==>
        (r == Failure(ForeignDomain) <==> exists i :: 0 <= i < |d.policyChanges| && !InDomain(domain, d.policyChanges[i]))
      ensures d.version > old(version) ==> forall i | 0 <= i < |d.policyChanges| :: var x := d.policyChanges[i].rule;
        (x.ptype == "p" && x.v[1] != domain) || (x.ptype == "g" && x.v[2] != domain) ==> r == Failure(ForeignDomain)
      ensures d.version > old(version) ==> forall i | 0 <= i < |d.policyChanges| && d.policyChanges[i].op == ChangeUpdate ::
        var x := d.policyChanges[i].oldRule;
        (x.ptype == "p" && x.v[1] != domain) || (x.ptype == "g" && x.v[2] != domain) ==> r == Failure(ForeignDomain)
      ensures r == Failure(CasbinFailed) ==> !ready && version == old(version)
      ensures r.Failure? ==> r.error in {StaleVersion, ForeignDomain, CasbinFailed}
      ensures r.Success? ==> ready == old(ready) && version == d.version && rules == Steps(old(rules), d.policyChanges)
      ensures r.Success? ==> table.byRes == Changes(table.parse, old(table.byRes), d.dataChanges)
      ensures calls > |d.policyChanges| ==> r != Failure(CasbinFailed)
    {
      if d.version <= version {
        return Failure(StaleVersion);
      }
      for i := 0 to |d.policyChanges|
        invariant forall j :: 0 <= j < i ==> InDomain(domain, d.policyChanges[j])
      {
        if !InDomain(domain, d.policyChanges[i]) {
          return Failure(ForeignDomain);
        }
      }
      hide Answer, Steps, Changes;
      var enough := ApplyPolicyChanges(d.policyChanges, calls);
      if !enough {
        ready := false;
        return Failure(CasbinFailed);
      }
      ApplyDataChanges(d.dataChanges);
      if calls == |d.policyChanges| {
        ready := false;
        return Failure(CasbinFailed);
      }
      cache.Clear();
      version := d.version;
      return Success(());
    }

    /** Applies rule changes in order, as far as store calls succeed. */
    method ApplyPolicyChanges(cs: seq<PolicyChange>, calls: nat) returns (enough: bool)
      requires (forall r | r in rules :: DomainOf(r) == domain) && forall i :: 0 <= i < |cs| ==> InDomain(domain, cs[i])
      modifies this`rules
      ensures forall r | r in rules :: DomainOf(r) == domain
      ensures (enough <==> |cs| <= calls) && (enough ==> rules == Steps(old(rules), cs))
    {
      for i := 0 to |cs|
        invariant i <= calls && rules == Steps(old(rules), cs[..i])
        invariant forall r | r in rules :: DomainOf(r) == domain
      {
        if i == calls {
          return false;
        }
        assert cs[..i + 1][..i] == cs[..i];
        ApplyPolicyChange(cs[i]);
      }
      assert cs[..|cs|] == cs;
      enough := true;
    }

    method ApplyDataChanges(cs: seq<DataPolicyChange>)
      modifies table
      ensures table.byRes == Changes(table.parse, old(table.byRes), cs)
    {
      for i := 0 to |cs|
        invariant table.byRes == Changes(table.parse, old(table.byRes), cs[..i])
      {
        assert cs[..i + 1][..i] == cs[..i];
        table.ApplyChange(cs[i]);
      }
      assert cs[..|cs|] == cs;
    }

    /** A decision from the cache, or a fresh one that is then cached. */
    method CachedDecision(q: Request) returns (ok: bool)
      requires Valid() && ready
      modifies cache, cache.ll
      ensures Valid() && ok == Answer(rules, q) && unchanged(this)
      ensures forall el :: el in cache.ll ==> el in old(cache.ll) || fresh(el)
    {
      hide Answer, Touch, NoRepeat, Indexes;
      ghost var before := cache.Keys();
      TouchWithin(before, q, cache.capacity);
      var hit := cache.Get(q);
      if hit.Some? {
        return hit.value;
      }
      ok := Evaluate(rules, q);
      cache.Set(q, ok);
    }

    /** Refuses before the first snapshot and for another domain; otherwise answers as the current rules do. */
    method Enforce(q: Request) returns (r: Result<bool, KernelError>)
      requires Valid()
      modifies cache, cache.ll
      ensures Valid() && unchanged(this)
      ensures r == if !ready then Failure(NotReady) else if q.1 != domain then Failure(ForeignDomain) else Success(Answer(rules, q))
      ensures forall el :: el in cache.ll ==> el in old(cache.ll) || fresh(el)
    {
      if !ready {
        return Failure(NotReady);
      }
      if q.1 != domain {
        return Failure(ForeignDomain);
      }
      var ok := CachedDecision(q);
      return Success(ok);
    }

    /**
     Answers the rows in order, up to the first malformed one. A row of another domain is answered with false,
     where the single call would report it.
     */
    method BatchEnforce(rows: seq<seq<string>>) returns (results: seq<bool>, error: Option<KernelError>)
      requires Valid()
      modifies cache, cache.ll
      ensures Valid() && unchanged(this)
      ensures !ready ==> results == [] && error == Some(NotReady)
      ensures ready && error.None? ==> |results| == |rows|
      ensures ready && error.Some? ==> error == Some(BadRequest) && |results| < |rows| && |rows[|results|]| != 4
      ensures forall i :: 0 <= i < |results| ==>
        i < |rows| && |rows[i]| == 4 && results[i] == Answer(rules, (rows[i][0], rows[i][1], rows[i][2], rows[i][3]))
      ensures forall i :: 0 <= i < |results| && rows[i][1] != domain ==> !results[i]
    {
      results, error := [], None;
      if !ready {
        return [], Some(NotReady);
      }
      ghost var first := cache.ll;
      for i := 0 to |rows|
        invariant Valid() && ready && unchanged(this) && |results| == i
        invariant forall el :: el in cache.ll ==> el in first || fresh(el)
        invariant forall j :: 0 <= j < i ==>
          |rows[j]| == 4 && results[j] == Answer(rules, (rows[j][0], rows[j][1], rows[j][2], rows[j][3]))
        invariant forall j :: 0 <= j < i && rows[j][1] != domain ==> !results[j]
      {
        var row := rows[i];
        if |row| != 4 {
          return results, Some(BadRequest);
        }
        var ok := CachedDecision((row[0], row[1], row[2], row[3]));
        ForeignIsDenied(rules, domain, (row[0], row[1], row[2], row[3]));
        results := results + [ok];
      }
    }
  }

  lemma ForeignIsDenied(rules: set<Rule>, domain: string, q: Request)
    requires forall r | r in rules :: DomainOf(r) == domain
    ensures q.1 != domain ==> !Answer(rules, q)
  {
  }
}
