/** Casbin rules projected from the business tables, and the inheritance cycle check. */
module Projection {

  import opened Graph
  import opened Rules
  import opened Tables

  function PermissionRule(role: string, domain: string, p: Permission, effect: string): Rule {
    Line("p", [role, domain, p.resource, p.action, effect, ""])
  }

  function GroupingRule(member: string, role: string, domain: string): Rule {
    Line("g", [member, role, domain, "", "", ""])
  }

  ghost function PermissionRules(t: Tables, domain: string): set<Rule> {
    set g | g in t.grants && g.role in t.roles && g.permission in t.permissions ::
      PermissionRule(g.role, domain, t.permissions[g.permission], t.grants[g])
  }

  ghost function BindingRules(t: Tables, domain: string): set<Rule> {
    set b | b in t.bindings && b.role in t.roles :: GroupingRule(b.user, b.role, domain)
  }

  ghost function InheritanceRules(t: Tables, domain: string): set<Rule> {
    set e | e in t.inherits && e.src in t.roles && e.dst in t.roles :: GroupingRule(e.src, e.dst, domain)
  }

  /** The rules the tables stand for. */
  ghost function Project(t: Tables, domain: string): set<Rule> {
    PermissionRules(t, domain) + BindingRules(t, domain) + InheritanceRules(t, domain)
  }

  lemma ElementsAppend<T>(s: seq<T>, x: T)
    ensures Elements(s + [x]) == Elements(s) + {x}
  {
  }

  /** The rows of role_permission joined with their roles and permissions. */
  method AppendPermissionRules(before: seq<Rule>, t: Tables, domain: string) returns (rules: seq<Rule>)
    ensures Elements(rules) == Elements(before) + PermissionRules(t, domain)
  {
    rules := before;
    var grants := set g | g in t.grants && g.role in t.roles && g.permission in t.permissions;
    var todo := grants;
    while todo != {}
      invariant todo <= grants
      invariant Elements(rules) == Elements(before) +
        set g | g in grants - todo :: PermissionRule(g.role, domain, t.permissions[g.permission], t.grants[g])
      decreases todo
    {
      var g :| g in todo;
      ElementsAppend(rules, PermissionRule(g.role, domain, t.permissions[g.permission], t.grants[g]));
      assert grants - (todo - {g}) == (grants - todo) + {g};
      todo := todo - {g};
      rules := rules + [PermissionRule(g.role, domain, t.permissions[g.permission], t.grants[g])];
    }
  }

  /** The rows of user_role_binding joined with their roles. */
  method AppendBindingRules(before: seq<Rule>, t: Tables, domain: string) returns (rules: seq<Rule>)
    ensures Elements(rules) == Elements(before) + BindingRules(t, domain)
  {
    rules := before;
    var bindings := set b | b in t.bindings && b.role in t.roles;
    var todo := bindings;
    while todo != {}
      invariant todo <= bindings
      invariant Elements(rules) == Elements(before) + set b | b in bindings - todo :: GroupingRule(b.user, b.role, domain)
      decreases todo
    {
      var b :| b in todo;
      ElementsAppend(rules, GroupingRule(b.user, b.role, domain));
      assert bindings - (todo - {b}) == (bindings - todo) + {b};
      todo := todo - {b};
      rules := rules + [GroupingRule(b.user, b.role, domain)];
    }
  }

  /** The rows of role_inheritance joined with their two roles. */
  method AppendInheritanceRules(before: seq<Rule>, t: Tables, domain: string) returns (rules: seq<Rule>)
    ensures Elements(rules) == Elements(before) + InheritanceRules(t, domain)
  {
    rules := before;
    var edges := set e | e in t.inherits && e.src in t.roles && e.dst in t.roles;
    var todo := edges;
    while todo != {}
      invariant todo <= edges
      invariant Elements(rules) == Elements(before) + set e | e in edges - todo :: GroupingRule(e.src, e.dst, domain)
      decreases todo
    {
      var e :| e in todo;
      ElementsAppend(rules, GroupingRule(e.src, e.dst, domain));
      assert edges - (todo - {e}) == (edges - todo) + {e};
      todo := todo - {e};
      rules := rules + [GroupingRule(e.src, e.dst, domain)];
    }
  }

  /** Reads the three joins one after the other and appends one rule a row. */
  method ProjectApp(t: Tables, domain: string) returns (rules: seq<Rule>)
    ensures Elements(rules) == Project(t, domain)
  {
    hide PermissionRules, BindingRules, InheritanceRules;
    rules := AppendPermissionRules([], t, domain);
    rules := AppendBindingRules(rules, t, domain);
    rules := AppendInheritanceRules(rules, t, domain);
  }

  // ---------------------------------------------------------------- cycle check

  function Successors(adj: map<string, seq<string>>, n: string): seq<string> {
    if n in adj then adj[n] else []
  }

  ghost predicate Represents(adj: map<string, seq<string>>, edges: set<Edge<string>>) {
    forall c, p :: p in Successors(adj, c) <==> Edge(c, p) in edges
  }

  /** The adjacency lists of an edge set, child to parents. */
  method BuildAdjacency(edges: set<Edge<string>>) returns (adj: map<string, seq<string>>)
    ensures Represents(adj, edges)
  {
    adj := map[];
    var todo := edges;
    while todo != {}
      invariant todo <= edges
      invariant Represents(adj, edges - todo)
      decreases todo
    {
      var e :| e in todo;
      ghost var before := edges - todo;
      todo := todo - {e};
      adj := adj[e.src := Successors(adj, e.src) + [e.dst]];
      assert edges - todo == before + {e};
    }
  }

  /** Depth-first search for one role, with the visited set shared by all its calls. */
  class Search {
    const adj: map<string, seq<string>>
    const target: string
    var visited: set<string>

    constructor (adj: map<string, seq<string>>, target: string)
      ensures this.adj == adj && this.target == target && visited == {}
    {
      this.adj := adj;
      this.target := target;
      visited := {};
    }

    ghost predicate Expanded(n: string)
      reads this
    {
      forall m :: m in Successors(adj, n) ==> m in visited
    }

    /** On failure every role this call marked has all its parents marked, and the target is not marked. */
    method Dfs(n: string, ghost edges: set<Edge<string>>, ghost universe: set<string>) returns (found: bool)
      requires Represents(adj, edges) && visited <= universe && n in universe && ClosedUnder(edges, universe)
      requires target !in visited
      modifies this
      ensures found ==> Reach(edges, n, target)
      ensures old(visited) <= visited <= universe && target !in visited
      ensures !found ==> n in visited && forall m :: m in visited - old(visited) ==> Expanded(m)
      decreases |universe - visited|
    {
      if n == target {
        ReachSelf(edges, n);
        return true;
      }
      if n in visited {
        return false;
      }
      visited := visited + {n};
      assert universe - visited == (universe - old(visited)) - {n};
      var next := Successors(adj, n);
      for i := 0 to |next|
        invariant old(visited) + {n} <= visited <= universe && target !in visited
        invariant forall j :: 0 <= j < i ==> next[j] in visited
        invariant forall m :: m in visited - old(visited) - {n} ==> Expanded(m)
      {
        assert next[i] in next;
        assert Edge(n, next[i]) in edges;
        SubsetCount(universe - visited, universe - old(visited) - {n});
        ghost var before := visited;
        assert forall m :: m in before - old(visited) - {n} ==> forall x :: x in Successors(adj, m) ==> x in before;
        var deeper := Dfs(next[i], edges, universe);
        if deeper {
          ReachEdge(edges, n, next[i]);
          ReachTransitive(edges, n, next[i], target);
          return true;
        }
      }
      return false;
    }
  }

  /** Refuses the edge child -> parent exactly when the parent already reaches the child. */
  method CheckNoCycle(inherits: set<Edge<string>>, child: string, parent: string) returns (ok: bool)
    ensures ok <==> !Reach(inherits, parent, child)
    ensures Acyclic(inherits) ==> (ok <==> Acyclic(inherits + {Edge(child, parent)}))
  {
    if Acyclic(inherits) {
      AcyclicAfterAdding(inherits, Edge(child, parent));
    }
    if child == parent {
      ReachSelf(inherits, child);
      return false;
    }
    var adj := BuildAdjacency(inherits);
    var search := new Search(adj, child);
    ghost var universe := (set e | e in inherits :: e.src) + (set e | e in inherits :: e.dst) + {parent};
    assert ClosedUnder(inherits, universe) by {
      forall n, m | n in universe && Edge(n, m) in inherits
        ensures m in universe
      {
        assert Edge(n, m).dst == m;
      }
    }
    var cycle := search.Dfs(parent, inherits, universe);
    if !cycle && Reach(inherits, parent, child) {
      assert ClosedUnder(inherits, search.visited) by {
        forall n, m | n in search.visited && Edge(n, m) in inherits
          ensures m in search.visited
        {
          assert search.Expanded(n);
          assert m in Successors(adj, n);
        }
      }
      ClosedSetConfines(inherits, search.visited, parent, child);
      assert false;
    }
    return !cycle;
  }
}
