/** The casbin matcher over a rule set, and what its answers mean in terms of the business tables. */
module Enforcement {

  import opened Graph
  import opened Rules
  import opened Tables
  import opened Projection

  /** The role links of a domain, read from its grouping rules. */
  function Links(rules: set<Rule>, domain: string): set<Edge<string>> {
    set r | r in rules && r.ptype == "g" && r.v[2] == domain :: Edge(r.v[0], r.v[1])
  }

  ghost predicate Matches(rules: set<Rule>, r: Rule, domain: string, sub: string, obj: string, act: string) {
    && r.ptype == "p" && r.v[1] == domain && r.v[2] == obj && r.v[3] == act
    && Reach(Links(rules, domain), sub, r.v[0])
  }

  ghost predicate SomeMatch(rules: set<Rule>, domain: string, sub: string, obj: string, act: string, effect: string) {
    exists r :: r in rules && Matches(rules, r, domain, sub, obj, act) && r.v[4] == effect
  }

  /** Some matching rule allows and none denies. */
  ghost predicate Decide(rules: set<Rule>, domain: string, sub: string, obj: string, act: string) {
    SomeMatch(rules, domain, sub, obj, act, ALLOW) && !SomeMatch(rules, domain, sub, obj, act, DENY)
  }

  // ---------------------------------------------------------------- meaning in the tables

  /** The user is bound to a role that is, or inherits, `role`. */
  ghost predicate Holds(t: Tables, user: string, role: string) {
    exists b :: b in t.bindings && b.user == user && Reach(t.inherits, b.role, role)
  }

  ghost predicate Granted(t: Tables, user: string, obj: string, act: string, effect: string) {
    exists g :: g in t.grants && Holds(t, user, g.role) && t.grants[g] == effect
                && g.permission in t.permissions
                && t.permissions[g.permission].resource == obj && t.permissions[g.permission].action == act
  }

  ghost predicate TablesAllow(t: Tables, user: string, obj: string, act: string) {
    Granted(t, user, obj, act, ALLOW) && !Granted(t, user, obj, act, DENY)
  }

  /**
   Reading user ids and role codes as one kind of name, as the matcher does, gives `user` no role that the tables
   do not: whenever a name on the way is a role code too, the bindings under that name lead only to held roles.
   */
  ghost predicate NamesHarmless(t: Tables, user: string) {
    && (user in t.roles ==> Holds(t, user, user))
    && forall b | b in t.bindings && b.user in t.roles && Holds(t, user, b.user) :: Holds(t, user, b.role)
  }

  ghost function BindingEdges(t: Tables): set<Edge<string>> {
    set b | b in t.bindings :: Edge(b.user, b.role)
  }

  lemma ProjectedLinks(t: Tables, domain: string)
    requires WellFormed(t)
    ensures Links(Project(t, domain), domain) == BindingEdges(t) + t.inherits
  {
    var rules := Project(t, domain);
    forall e | e in BindingEdges(t) + t.inherits
      ensures e in Links(rules, domain)
    {
      var r := GroupingRule(e.src, e.dst, domain);
      if e in t.inherits {
        assert r in InheritanceRules(t, domain);
      } else {
        var b :| b in t.bindings && e == Edge(b.user, b.role);
        assert r in BindingRules(t, domain);
      }
      assert r in rules && r.ptype == "g" && r.v[2] == domain;
    }
    forall e | e in Links(rules, domain)
      ensures e in BindingEdges(t) + t.inherits
    {
      var r :| r in rules && r.ptype == "g" && r.v[2] == domain && e == Edge(r.v[0], r.v[1]);
      if r in InheritanceRules(t, domain) {
        var i :| i in t.inherits && r == GroupingRule(i.src, i.dst, domain);
        assert e == i;
      } else {
        var b :| b in t.bindings && r == GroupingRule(b.user, b.role, domain);
        assert e == Edge(b.user, b.role);
      }
    }
  }

  lemma HeldIsLinked(t: Tables, user: string, role: string)
    requires Holds(t, user, role)
    ensures Reach(BindingEdges(t) + t.inherits, user, role)
  {
    var all := BindingEdges(t) + t.inherits;
    var b :| b in t.bindings && b.user == user && Reach(t.inherits, b.role, role);
    ReachMonotone(t.inherits, all, b.role, role);
    assert Edge(b.user, b.role) in BindingEdges(t);
    ReachEdge(all, user, b.role);
    ReachTransitive(all, user, b.role, role);
  }

  lemma HeldIsRole(t: Tables, user: string, role: string)
    requires WellFormed(t) && Holds(t, user, role)
    ensures role in t.roles
  {
    var b :| b in t.bindings && b.user == user && Reach(t.inherits, b.role, role);
    ClosedSetConfines(t.inherits, t.roles.Keys, b.role, role);
  }

  lemma HoldsMore(t: Tables, user: string, role: string, parent: string)
    requires Holds(t, user, role) && Edge(role, parent) in t.inherits
    ensures Holds(t, user, parent)
  {
    var b :| b in t.bindings && b.user == user && Reach(t.inherits, b.role, role);
    ReachEdge(t.inherits, role, parent);
    ReachTransitive(t.inherits, b.role, role, parent);
  }

  /** The user and the held roles are closed under the links when the names are harmless. */
  lemma HeldStepsStay(t: Tables, user: string, n: string, m: string)
    requires WellFormed(t) && NamesHarmless(t, user) && (n == user || Holds(t, user, n))
    requires Edge(n, m) in BindingEdges(t) + t.inherits
    ensures Holds(t, user, m)
  {
    if Edge(n, m) in t.inherits {
      HoldsMore(t, user, n, m);
    } else {
      var b :| b in t.bindings && Edge(n, m) == Edge(b.user, b.role);
      if n == user {
        ReachSelf(t.inherits, m);
      } else {
        HeldIsRole(t, user, n);
      }
    }
  }

  lemma LinkedIsHeld(t: Tables, user: string, role: string)
    requires WellFormed(t) && NamesHarmless(t, user) && role in t.roles
    requires Reach(BindingEdges(t) + t.inherits, user, role)
    ensures Holds(t, user, role)
  {
    var all := BindingEdges(t) + t.inherits;
    var held := set x | x in t.roles.Keys + {user} && (x == user || Holds(t, user, x));
    forall n, m | n in held && Edge(n, m) in all
      ensures m in held
    {
      HeldStepsStay(t, user, n, m);
      HeldIsRole(t, user, m);
    }
    ClosedSetConfines(all, held, user, role);
  }

  /** The links reach exactly the held roles if and only if the names are harmless for the user. */
  lemma LinkedIffHolds(t: Tables, user: string)
    requires WellFormed(t)
    ensures NamesHarmless(t, user) <==>
      forall role | role in t.roles :: Reach(BindingEdges(t) + t.inherits, user, role) <==> Holds(t, user, role)
  {
    var all := BindingEdges(t) + t.inherits;
    forall role | Holds(t, user, role)
      ensures Reach(all, user, role)
    {
      HeldIsLinked(t, user, role);
    }
    if NamesHarmless(t, user) {
      forall role | role in t.roles && Reach(all, user, role)
        ensures Holds(t, user, role)
      {
        LinkedIsHeld(t, user, role);
      }
    } else if user in t.roles && !Holds(t, user, user) {
      ReachSelf(all, user);
    } else {
      var b :| b in t.bindings && b.user in t.roles && Holds(t, user, b.user) && !Holds(t, user, b.role);
      assert Edge(b.user, b.role) in all;
      ReachEdge(all, b.user, b.role);
      ReachTransitive(all, user, b.user, b.role);
      assert b.role in t.roles;
    }
  }

  lemma ProjectedPermissionRule(t: Tables, domain: string, r: Rule) returns (g: Grant)
    requires r in Project(t, domain) && r.ptype == "p"
    ensures g in t.grants && g.role in t.roles && g.permission in t.permissions
    ensures r == PermissionRule(g.role, domain, t.permissions[g.permission], t.grants[g])
  {
    assert r in PermissionRules(t, domain);
    g :| g in t.grants && g.role in t.roles && g.permission in t.permissions &&
      r == PermissionRule(g.role, domain, t.permissions[g.permission], t.grants[g]);
  }

  lemma MatchIsGranted(t: Tables, domain: string, user: string, obj: string, act: string, effect: string)
    requires WellFormed(t) && NamesHarmless(t, user)
    requires SomeMatch(Project(t, domain), domain, user, obj, act, effect)
    ensures Granted(t, user, obj, act, effect)
  {
    var rules := Project(t, domain);
    var r :| r in rules && Matches(rules, r, domain, user, obj, act) && r.v[4] == effect;
    var g := ProjectedPermissionRule(t, domain, r);
    ProjectedLinks(t, domain);
    LinkedIsHeld(t, user, g.role);
    assert Holds(t, user, g.role);
  }

  /** A grant on a role that the links reach is a matching rule. */
  lemma LinkedGrantMatches(t: Tables, domain: string, user: string, g: Grant)
    requires WellFormed(t) && g in t.grants && Reach(BindingEdges(t) + t.inherits, user, g.role)
    ensures SomeMatch(Project(t, domain), domain, user, t.permissions[g.permission].resource, t.permissions[g.permission].action, t.grants[g])
  {
    var rules := Project(t, domain);
    var r := PermissionRule(g.role, domain, t.permissions[g.permission], t.grants[g]);
    assert r in PermissionRules(t, domain);
    ProjectedLinks(t, domain);
    assert Matches(rules, r, domain, user, r.v[2], r.v[3]);
  }

  lemma GrantedIsMatch(t: Tables, domain: string, user: string, obj: string, act: string, effect: string)
    requires WellFormed(t) && Granted(t, user, obj, act, effect)
    ensures SomeMatch(Project(t, domain), domain, user, obj, act, effect)
  {
    var g :| g in t.grants && Holds(t, user, g.role) && t.grants[g] == effect
      && g.permission in t.permissions
      && t.permissions[g.permission].resource == obj && t.permissions[g.permission].action == act;
    HeldIsLinked(t, user, g.role);
    LinkedGrantMatches(t, domain, user, g);
  }

  /** The matcher over the projected rules gives the answer the tables give. */
  ghost predicate AnswersAgree(t: Tables, domain: string, user: string, obj: string, act: string) {
    Decide(Project(t, domain), domain, user, obj, act) <==> TablesAllow(t, user, obj, act)
  }

  /**
   When the names are harmless for the user, the matcher over the projected rules gives the answer the tables give:
   some role the user holds has an allow grant on the resource and action, and none has a deny grant.
   */
  lemma DecideMeansTablesAllow(t: Tables, domain: string, user: string, obj: string, act: string)
    requires WellFormed(t) && NamesHarmless(t, user)
    ensures AnswersAgree(t, domain, user, obj, act)
  {
    forall effect
      ensures SomeMatch(Project(t, domain), domain, user, obj, act, effect) <==> Granted(t, user, obj, act, effect)
    {
      if SomeMatch(Project(t, domain), domain, user, obj, act, effect) {
        MatchIsGranted(t, domain, user, obj, act, effect);
      }
      if Granted(t, user, obj, act, effect) {
        GrantedIsMatch(t, domain, user, obj, act, effect);
      }
    }
  }

  /** The same roles, inheritance and bindings with other permissions and grants. */
  function WithGrants(t: Tables, permissions: map<string, Permission>, grants: map<Grant, string>): Tables {
    t.(permissions := permissions, grants := grants)
  }

  /** With these roles, inheritance and bindings the answers agree whatever is granted. */
  ghost predicate AlwaysAgrees(t: Tables, domain: string, user: string) {
    forall permissions, grants, obj, act | WellFormed(WithGrants(t, permissions, grants)) ::
      AnswersAgree(WithGrants(t, permissions, grants), domain, user, obj, act)
  }

  lemma HoldsIgnoresGrants(t: Tables, permissions: map<string, Permission>, grants: map<Grant, string>, user: string)
    ensures NamesHarmless(WithGrants(t, permissions, grants), user) <==> NamesHarmless(t, user)
    ensures forall role :: Holds(WithGrants(t, permissions, grants), user, role) <==> Holds(t, user, role)
  {
  }

  /** A role that the links reach but the user does not hold: one allow grant on it makes the answers differ. */
  lemma OneGrantDiffers(t: Tables, domain: string, user: string, role: string)
    requires WellFormed(t) && role in t.roles && Reach(BindingEdges(t) + t.inherits, user, role) && !Holds(t, user, role)
    ensures !AlwaysAgrees(t, domain, user)
  {
    var p, g := Permission("doc", "read", "api", "Read", "", MANUAL), Grant(role, "doc:read");
    var permissions, grants := map["doc:read" := p], map[g := ALLOW];
    var t' := WithGrants(t, permissions, grants);
    assert WellFormed(t') && BindingEdges(t') == BindingEdges(t);
    HoldsIgnoresGrants(t, permissions, grants, user);
    LinkedGrantMatches(t', domain, user, g);
    if SomeMatch(Project(t', domain), domain, user, "doc", "read", DENY) {
      var r :| r in Project(t', domain) && Matches(Project(t', domain), r, domain, user, "doc", "read") && r.v[4] == DENY;
      var h := ProjectedPermissionRule(t', domain, r);
      assert false;
    }
    assert !AnswersAgree(t', domain, user, "doc", "read");
  }

  /** Whatever is granted, the matcher answers as the tables do if and only if the names are harmless for the user. */
  lemma AgreesIffHarmless(t: Tables, domain: string, user: string)
    requires WellFormed(t)
    ensures AlwaysAgrees(t, domain, user) <==> NamesHarmless(t, user)
  {
    if NamesHarmless(t, user) {
      forall permissions, grants, obj, act | WellFormed(WithGrants(t, permissions, grants))
        ensures AnswersAgree(WithGrants(t, permissions, grants), domain, user, obj, act)
      {
        HoldsIgnoresGrants(t, permissions, grants, user);
        DecideMeansTablesAllow(WithGrants(t, permissions, grants), domain, user, obj, act);
      }
    } else {
      LinkedIffHolds(t, user);
      var role :| role in t.roles && !(Reach(BindingEdges(t) + t.inherits, user, role) <==> Holds(t, user, role));
      if Holds(t, user, role) {
        HeldIsLinked(t, user, role);
      }
      OneGrantDiffers(t, domain, user, role);
    }
  }

  /** No user id is a role code: the names are then harmless for every user. */
  lemma NamesApartAreHarmless(t: Tables, user: string)
    requires (forall b | b in t.bindings :: b.user !in t.roles) && user !in t.roles
    ensures NamesHarmless(t, user)
  {
  }

  /** A new deny grant on a held role refuses the permission, whatever else is granted. */
  lemma NewDenyGrantDenies(t: Tables, t': Tables, role: string, permission: string, user: string)
    requires permission in t.permissions && t' == t.(grants := t.grants[Grant(role, permission) := "deny"]) && Holds(t', user, role)
    ensures !TablesAllow(t', user, t.permissions[permission].resource, t.permissions[permission].action)
  {
    var g := Grant(role, permission);
    assert g in t'.grants && t'.grants[g] == DENY;
  }

  /** A new allow grant on a held role gives the permission unless some held role is denied it. */
  lemma NewAllowGrantAllows(t: Tables, t': Tables, role: string, permission: string, user: string)
    requires permission in t.permissions && t' == t.(grants := t.grants[Grant(role, permission) := "allow"]) && Holds(t', user, role)
    ensures var p := t.permissions[permission];
      TablesAllow(t', user, p.resource, p.action) <==> !Granted(t', user, p.resource, p.action, "deny")
  {
    var g := Grant(role, permission);
    assert g in t'.grants && t'.grants[g] == ALLOW;
  }

  /** A bound user holds the role and everything it inherits. */
  lemma BoundHolds(t: Tables, user: string, role: string)
    requires Binding(user, role) in t.bindings
    ensures forall parent | Reach(t.inherits, role, parent) :: Holds(t, user, parent)
    ensures Holds(t, user, role)
  {
    ReachSelf(t.inherits, role);
    assert Binding(user, role).user == user;
  }

  /** A user without bindings holds nothing. */
  lemma UnboundHoldsNothing(t: Tables, user: string)
    requires forall b | b in t.bindings :: b.user != user
    ensures forall role :: !Holds(t, user, role)
    ensures forall obj, act :: !TablesAllow(t, user, obj, act)
  {
  }

  /** A user id equal to a role code is taken for the role: such a user is allowed what the role is granted. */
  lemma RoleNamedUserIsAllowed(domain: string) returns (t: Tables, user: string)
    ensures WellFormed(t) && t.bindings == {} && user in t.roles
    ensures Decide(Project(t, domain), domain, user, "doc", "read") && !TablesAllow(t, user, "doc", "read")
  {
    user := "admin";
    var p := Permission("doc", "read", "api", "Read", "", MANUAL);
    var g := Grant("admin", "doc:read");
    t := Tables(map["doc:read" := p], map["admin" := Role("Admin", "", MANUAL)], map[g := ALLOW], {}, {}, map[], 1);
    var rules := Project(t, domain);
    var r := PermissionRule("admin", domain, p, ALLOW);
    assert r in PermissionRules(t, domain) by {
      assert g in t.grants;
    }
    ReachSelf(Links(rules, domain), user);
    assert Matches(rules, r, domain, user, "doc", "read");
    forall q | q in rules
      ensures q.v[4] != DENY
    {
      assert q in PermissionRules(t, domain);
    }
  }
}
