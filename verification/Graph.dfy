/** Reachability over a finite edge set, and what adding one edge does to cycles. */
module Graph {

  datatype Edge<T> = Edge(src: T, dst: T)

  ghost predicate IsPath<T(!new)>(edges: set<Edge<T>>, p: seq<T>) {
    |p| > 0 && forall i :: 0 <= i < |p| - 1 ==> Edge(p[i], p[i + 1]) in edges
  }

  ghost predicate Joins<T(!new)>(edges: set<Edge<T>>, p: seq<T>, a: T, b: T) {
    IsPath(edges, p) && p[0] == a && p[|p| - 1] == b
  }

  /** `b` can be reached from `a` in zero or more steps. */
  ghost predicate Reach<T(!new)>(edges: set<Edge<T>>, a: T, b: T) {
    exists p: seq<T> :: Joins(edges, p, a, b)
  }

  ghost predicate Acyclic<T(!new)>(edges: set<Edge<T>>) {
    forall n, m :: Edge(n, m) in edges ==> !Reach(edges, m, n)
  }

  ghost predicate ClosedUnder<T(!new)>(edges: set<Edge<T>>, s: set<T>) {
    forall n, m :: n in s && Edge(n, m) in edges ==> m in s
  }

  lemma ReachSelf<T(!new)>(edges: set<Edge<T>>, a: T)
    ensures Reach(edges, a, a)
  {
    assert Joins(edges, [a], a, a);
  }

  lemma ReachEdge<T(!new)>(edges: set<Edge<T>>, a: T, b: T)
    requires Edge(a, b) in edges
    ensures Reach(edges, a, b)
  {
    assert Joins(edges, [a, b], a, b);
  }

  lemma ReachTransitive<T(!new)>(edges: set<Edge<T>>, a: T, b: T, c: T)
    requires Reach(edges, a, b) && Reach(edges, b, c)
    ensures Reach(edges, a, c)
  {
    var p :| Joins(edges, p, a, b);
    var q :| Joins(edges, q, b, c);
    var r := p + q[1..];
    forall i | 0 <= i < |r| - 1
      ensures Edge(r[i], r[i + 1]) in edges
    {
      if i >= |p| - 1 {
        assert r[i] == q[i - (|p| - 1)] && r[i + 1] == q[i + 1 - (|p| - 1)];
      }
    }
    assert Joins(edges, r, a, c);
  }

  lemma ReachMonotone<T(!new)>(edges: set<Edge<T>>, more: set<Edge<T>>, a: T, b: T)
    requires edges <= more && Reach(edges, a, b)
    ensures Reach(more, a, b)
  {
    var p :| Joins(edges, p, a, b);
    assert Joins(more, p, a, b);
  }

  /** The first step of a path that goes anywhere. */
  lemma ReachFirst<T(!new)>(edges: set<Edge<T>>, a: T, b: T) returns (m: T)
    requires Reach(edges, a, b) && a != b
    ensures Edge(a, m) in edges && Reach(edges, m, b)
  {
    var p :| Joins(edges, p, a, b);
    m := p[1];
    assert Edge(p[0], p[1]) in edges;
    assert forall i :: 0 <= i < |p[1..]| - 1 ==> Edge(p[1..][i], p[1..][i + 1]) == Edge(p[i + 1], p[i + 2]);
    assert Joins(edges, p[1..], m, b);
  }

  lemma {:induction false} PathStays<T(!new)>(edges: set<Edge<T>>, s: set<T>, p: seq<T>)
    requires ClosedUnder(edges, s) && IsPath(edges, p) && p[0] in s
    ensures p[|p| - 1] in s
  {
    if |p| > 1 {
      assert Edge(p[0], p[1]) in edges;
      assert forall i :: 0 <= i < |p[1..]| - 1 ==> Edge(p[1..][i], p[1..][i + 1]) == Edge(p[i + 1], p[i + 2]);
      PathStays(edges, s, p[1..]);
    }
  }

  lemma ClosedSetConfines<T(!new)>(edges: set<Edge<T>>, s: set<T>, a: T, b: T)
    requires ClosedUnder(edges, s) && a in s && Reach(edges, a, b)
    ensures b in s
  {
    var p :| Joins(edges, p, a, b);
    PathStays(edges, s, p);
  }

  /** A path through one new edge splits into old paths around it. */
  lemma {:induction false} SplitPath<T(!new)>(edges: set<Edge<T>>, e: Edge<T>, p: seq<T>)
    requires IsPath(edges + {e}, p)
    ensures Reach(edges, p[0], p[|p| - 1]) || (Reach(edges, p[0], e.src) && Reach(edges, e.dst, p[|p| - 1]))
  {
    if |p| == 1 {
      ReachSelf(edges, p[0]);
    } else {
      var rest := p[1..];
      assert forall i :: 0 <= i < |rest| - 1 ==> Edge(rest[i], rest[i + 1]) == Edge(p[i + 1], p[i + 2]);
      SplitPath(edges, e, rest);
      assert Edge(p[0], p[1]) in edges + {e};
      if Edge(p[0], p[1]) in edges {
        ReachEdge(edges, p[0], p[1]);
        if Reach(edges, p[1], p[|p| - 1]) {
          ReachTransitive(edges, p[0], p[1], p[|p| - 1]);
        } else {
          ReachTransitive(edges, p[0], p[1], e.src);
        }
      } else {
        ReachSelf(edges, e.src);
      }
    }
  }

  /** Adding an edge keeps a graph acyclic exactly when its end does not already reach its start. */
  lemma AcyclicAfterAdding<T(!new)>(edges: set<Edge<T>>, e: Edge<T>)
    requires Acyclic(edges)
    ensures Acyclic(edges + {e}) <==> !Reach(edges, e.dst, e.src)
  {
    var more := edges + {e};
    if Reach(edges, e.dst, e.src) {
      ReachMonotone(edges, more, e.dst, e.src);
      assert Edge(e.src, e.dst) in more;
    } else {
      forall n, m | Edge(n, m) in more
        ensures !Reach(more, m, n)
      {
        if p :| Joins(more, p, m, n) {
          SplitPath(edges, e, p);
          if Edge(n, m) in edges {
            ReachEdge(edges, n, m);
            if !Reach(edges, m, n) {
              ReachTransitive(edges, e.dst, n, m);
              ReachTransitive(edges, e.dst, m, e.src);
            }
          }
        }
      }
    }
  }

  lemma AcyclicSubset<T(!new)>(edges: set<Edge<T>>, fewer: set<Edge<T>>)
    requires Acyclic(edges) && fewer <= edges
    ensures Acyclic(fewer)
  {
    forall n, m | Edge(n, m) in fewer
      ensures !Reach(fewer, m, n)
    {
      if Reach(fewer, m, n) {
        ReachMonotone(fewer, edges, m, n);
      }
    }
  }

  lemma PathSegment<T(!new)>(edges: set<Edge<T>>, p: seq<T>, i: nat, j: nat)
    requires IsPath(edges, p) && i <= j < |p|
    ensures Reach(edges, p[i], p[j])
  {
    var q := p[i..j + 1];
    assert forall k :: 0 <= k < |q| - 1 ==> Edge(q[k], q[k + 1]) == Edge(p[i + k], p[i + k + 1]);
    assert Joins(edges, q, p[i], p[j]);
  }

  /** A path in an acyclic graph never visits a node twice, so the number of nodes bounds it. */
  lemma AcyclicPathBounded<T(!new)>(edges: set<Edge<T>>, nodes: set<T>, p: seq<T>)
    requires Acyclic(edges) && IsPath(edges, p) && p[0] in nodes && ClosedUnder(edges, nodes)
    ensures |p| <= |nodes|
  {
    var seen := set i | 0 <= i < |p| :: p[i];
    forall i | 0 <= i < |p|
      ensures p[i] in nodes
    {
      assert forall j :: 0 <= j < |p[..i + 1]| - 1 ==> Edge(p[..i + 1][j], p[..i + 1][j + 1]) == Edge(p[j], p[j + 1]);
      PathStays(edges, nodes, p[..i + 1]);
    }
    forall i, j | 0 <= i < j < |p|
      ensures p[i] != p[j]
    {
      PathSegment(edges, p, i + 1, j);
      assert Edge(p[i], p[i + 1]) in edges;
    }
    DistinctCount(p);
    assert seen <= nodes;
    SubsetCount(seen, nodes);
  }

  lemma {:induction false} DistinctCount<T(!new)>(p: seq<T>)
    requires forall i, j :: 0 <= i < j < |p| ==> p[i] != p[j]
    ensures |set i | 0 <= i < |p| :: p[i]| == |p|
  {
    var all := set i | 0 <= i < |p| :: p[i];
    if p != [] {
      var q := p[..|p| - 1];
      DistinctCount(q);
      var fewer := set i | 0 <= i < |q| :: q[i];
      assert all == fewer + {p[|p| - 1]};
    }
  }

  lemma {:induction false} SubsetCount<T(!new)>(a: set<T>, b: set<T>)
    requires a <= b
    ensures |a| <= |b|
  {
    if x :| x in a {
      SubsetCount(a - {x}, b - {x});
    }
  }
}
