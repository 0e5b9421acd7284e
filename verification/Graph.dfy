/** Directed graphs of module names: paths, reachability, strong components. */
module Graph {

  /** For each module, the modules it imports. */
  type Edges = map<string, set<string>>

  /** Every import target is itself a module of the graph. */
  ghost predicate TargetsKnown(g: Edges) {
    forall v :: v in g ==> g[v] <= g.Keys
  }

  ghost predicate Path(g: Edges, p: seq<string>) {
    && p != []
    && (forall i :: 0 <= i < |p| ==> p[i] in g)
    && (forall i :: 0 <= i < |p| - 1 ==> p[i + 1] in g[p[i]])
  }

  ghost predicate PathFromTo(g: Edges, p: seq<string>, u: string, v: string) {
    Path(g, p) && p[0] == u && p[|p| - 1] == v
  }

  ghost predicate Reach(g: Edges, u: string, v: string) {
    exists p :: PathFromTo(g, p, u, v)
  }

  ghost predicate Mutual(g: Edges, u: string, v: string) {
    Reach(g, u, v) && Reach(g, v, u)
  }

  /** The strongly connected component of v. */
  ghost function Scc(g: Edges, v: string): set<string> {
    set w | w in g && Mutual(g, v, w)
  }

  /** A closed walk of at least one edge. */
  ghost predicate Cycle(g: Edges, p: seq<string>) {
    Path(g, p) && |p| >= 2 && p[0] == p[|p| - 1]
  }

  ghost predicate Acyclic(g: Edges) {
    forall p :: !Cycle(g, p)
  }

  /** The edge u -> v is the first edge of some directed cycle. */
  ghost predicate OnCycle(g: Edges, u: string, v: string) {
    exists p :: Cycle(g, p) && p[0] == u && p[1] == v
  }

  // ---------------------------------------------------------------- reachability

  lemma ReachSelf(g: Edges, u: string)
    requires u in g
    ensures Reach(g, u, u)
  {
    assert PathFromTo(g, [u], u, u);
  }

  lemma ReachEdge(g: Edges, u: string, v: string)
    requires u in g && v in g && v in g[u]
    ensures Reach(g, u, v)
  {
    assert PathFromTo(g, [u, v], u, v);
  }

  lemma ReachTrans(g: Edges, u: string, v: string, w: string)
    requires Reach(g, u, v) && Reach(g, v, w)
    ensures Reach(g, u, w)
  {
    var p :| PathFromTo(g, p, u, v);
    var q :| PathFromTo(g, q, v, w);
    assert PathFromTo(g, p + q[1..], u, w);
  }

  /** A walk that starts inside a set and ends outside it crosses the border on some edge. */
  lemma Crossing(g: Edges, inside: set<string>, u: string, w: string) returns (a: string, b: string)
    requires Reach(g, u, w) && u in inside && w !in inside
    ensures a in inside && b !in inside && a in g && b in g && b in g[a]
    ensures Reach(g, u, a) && Reach(g, b, w)
  {
    var p :| PathFromTo(g, p, u, w);
    var i := 0;
    while p[i + 1] in inside
      invariant 0 <= i < |p| - 1 && p[i] in inside
      decreases |p| - i
    {
      i := i + 1;
    }
    a, b := p[i], p[i + 1];
    assert PathFromTo(g, p[..i + 1], u, a);
    assert PathFromTo(g, p[i + 1..], b, w);
  }

  lemma SccShared(g: Edges, u: string, v: string)
    requires Mutual(g, u, v)
    ensures Scc(g, u) == Scc(g, v)
  {
    forall w | w in g
      ensures Mutual(g, u, w) <==> Mutual(g, v, w)
    {
      if Mutual(g, u, w) {
        ReachTrans(g, v, u, w);
        ReachTrans(g, w, u, v);
      }
      if Mutual(g, v, w) {
        ReachTrans(g, u, v, w);
        ReachTrans(g, w, v, u);
      }
    }
  }

  // ---------------------------------------------------------------- cycles

  /** An edge lies on a cycle exactly when its head reaches back to its tail. */
  lemma OnCycleIffReachBack(g: Edges, u: string, v: string)
    requires u in g && v in g && v in g[u]
    ensures OnCycle(g, u, v) <==> Reach(g, v, u)
  {
    if OnCycle(g, u, v) {
      var p :| Cycle(g, p) && p[0] == u && p[1] == v;
      assert PathFromTo(g, p[1..], v, u);
    }
    if Reach(g, v, u) {
      var q :| PathFromTo(g, q, v, u);
      var p := [u] + q;
      assert Cycle(g, p) && p[0] == u && p[1] == v;
    }
  }

  /** A component is cyclic when it has a second member or its member imports itself. */
  ghost predicate Looped(g: Edges, v: string)
    requires v in g
  {
    |Scc(g, v)| > 1 || v in g[v]
  }

  lemma SecondMember(s: set<string>, v: string)
    requires v in s
    ensures |s| > 1 <==> exists w :: w in s && w != v
  {
    assert s == {v} + (s - {v});
    if |s| > 1 {
      var w :| w in s - {v};
    }
  }

  lemma LoopedIffOnCycle(g: Edges, v: string)
    requires TargetsKnown(g) && v in g
    ensures Looped(g, v) <==> exists p :: Cycle(g, p) && p[0] == v
  {
    ReachSelf(g, v);
    SecondMember(Scc(g, v), v);
    if v in g[v] {
      assert Cycle(g, [v, v]) && [v, v][0] == v;
    } else if |Scc(g, v)| > 1 {
      var w :| w in Scc(g, v) && w != v;
      var p :| PathFromTo(g, p, v, w);
      var q :| PathFromTo(g, q, w, v);
      var c := p + q[1..];
      assert Cycle(g, c) && c[0] == v;
    }
    if exists p :: Cycle(g, p) && p[0] == v {
      var p :| Cycle(g, p) && p[0] == v;
      if p[1] != v {
        assert PathFromTo(g, p[1..], p[1], v);
        ReachEdge(g, v, p[1]);
        assert p[1] in Scc(g, v);
      }
    }
  }
}
