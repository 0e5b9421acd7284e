/** The cycles check of the architectural gate: a ratchet over the imports that lie on cycles. */
module CycleGate {
  import opened CycleReports
  import opened Graph
  import opened ImportCycles
  import opened Ordering

  type Import = (string, string)

  predicate ImportLess(a: Import, b: Import) {
    if a.0 != b.0 then StringLess(a.0, b.0) else StringLess(a.1, b.1)
  }

  lemma ImportOrder()
    ensures StrictTotal(ImportLess)
  {
    StringOrder();
  }

  /** The imports inside a reported component. */
  function CyclicEdges(g: Edges, components: seq<seq<string>>): set<Import> {
    set c, owner, target | c in components && owner in c && owner in g && target in g[owner] && target in c :: (owner, target)
  }

  lemma CyclicEdgesExact(g: Edges, components: seq<seq<string>>, u: string, v: string)
    requires TargetsKnown(g) && IsCycleReport(g, components)
    ensures (u, v) in CyclicEdges(g, components) <==> u in g && v in g[u] && OnCycle(g, u, v)
  {
    if u in g && v in g[u] {
      InsideIffOnCycle(g, components, u, v);
    }
  }

  /** The violations the gate reports; it passes when there are none. */
  method CyclesCheck(edges: Edges, recorded: set<Import>) returns (violations: seq<Import>)
    requires TargetsKnown(edges)
    ensures Increasing(ImportLess, violations)
    ensures forall u, v :: (u, v) in violations <==>
      u in edges && v in edges[u] && OnCycle(edges, u, v) && (u, v) !in recorded
  {
    var components := FindImportCycles(edges);
    ImportOrder();
    violations := Listing(ImportLess, CyclicEdges(edges, components) - recorded);
    forall u, v
      ensures (u, v) in violations <==> u in edges && v in edges[u] && OnCycle(edges, u, v) && (u, v) !in recorded
    {
      CyclicEdgesExact(edges, components, u, v);
    }
  }

  /** The check passes. */
  ghost predicate Passes(g: Edges, recorded: set<Import>) {
    forall u, v :: u in g && v in g[u] && OnCycle(g, u, v) ==> (u, v) in recorded
  }

  /** The import graph without the recorded imports. */
  function Without(g: Edges, recorded: set<Import>): Edges {
    map u | u in g :: set v | v in g[u] && (u, v) !in recorded
  }

  lemma PathWithout(g: Edges, recorded: set<Import>, p: seq<string>)
    requires Path(Without(g, recorded), p)
    ensures Path(g, p)
  {
  }

  /** A passing gate: the recorded imports are all that keeps the package from being acyclic. */
  lemma PassingIsAcyclic(g: Edges, recorded: set<Import>)
    requires TargetsKnown(g) && Passes(g, recorded)
    ensures Acyclic(Without(g, recorded))
  {
    forall p
      ensures !Cycle(Without(g, recorded), p)
    {
      if Cycle(Without(g, recorded), p) {
        PathWithout(g, recorded, p);
        assert p[1] in Without(g, recorded)[p[0]];
        assert OnCycle(g, p[0], p[1]);
      }
    }
  }

  /** The converse fails: breaking every cycle is not enough, every import on a cycle must be recorded. */
  lemma AcyclicIsNotPassing()
    ensures exists g: Edges, recorded ::
      TargetsKnown(g) && Acyclic(Without(g, recorded)) && !Passes(g, recorded)
  {
    var g: Edges := map["a" := {"b"}, "b" := {"a"}];
    var recorded: set<Import> := {("a", "b")};
    var rest := Without(g, recorded);
    assert ("b", "a") !in recorded;
    assert rest["a"] == {};
    forall p | Path(rest, p) && |p| >= 2
      ensures p[0] == "b" && p[1] == "a" && |p| == 2
    {
      forall i | 0 <= i < |p| - 1
        ensures p[i] == "b"
      {
        assert p[i + 1] in rest[p[i]];
      }
      assert p[0 + 1] in rest[p[0]];
    }
    var c := ["b", "a", "b"];
    assert Cycle(g, c) && c[0] == "b" && c[1] == "a";
    assert OnCycle(g, "b", "a");
  }

  // ---------------------------------------------------------------- the ratchet lets acyclic growth through

  function With(g: Edges, u: string, v: string): Edges
    requires u in g
  {
    g[u := g[u] + {v}]
  }

  lemma ReachWith(g: Edges, u: string, v: string, a: string, b: string)
    requires u in g && Reach(g, a, b)
    ensures Reach(With(g, u, v), a, b)
  {
    var p :| PathFromTo(g, p, a, b);
    assert PathFromTo(With(g, u, v), p, a, b);
  }

  /** A new import whose target cannot reach back to its owner puts no import on a cycle. */
  lemma NewEdgeReach(g: Edges, u: string, v: string, a: string, b: string)
    requires TargetsKnown(g) && u in g && v in g && !Reach(g, v, u)
    requires a in g && b in With(g, u, v)[a] && Reach(With(g, u, v), b, a)
    ensures b in g[a] && Reach(g, b, a)
  {
    var h := With(g, u, v);
    var beyond := set w | w in g && Reach(g, v, w);
    ReachSelf(g, v);
    BeyondClosed(g, u, v);
    var p :| PathFromTo(h, p, b, a);
    if b in beyond {
      StaysBeyond(g, u, v, p, |p| - 1);
      assert a in beyond && a != u;
      assert forall i :: 0 <= i < |p| - 1 ==> p[i + 1] in g[p[i]];
    } else {
      assert a !in beyond;
      NeverBeyond(g, u, v, p, 0);
      assert forall i :: 0 <= i < |p| - 1 ==> p[i + 1] in g[p[i]];
    }
    assert PathFromTo(g, p, b, a);
  }

  lemma BeyondClosed(g: Edges, u: string, v: string)
    requires TargetsKnown(g) && u in g && v in g && !Reach(g, v, u)
    ensures forall w, x :: w in g && Reach(g, v, w) && x in With(g, u, v)[w] ==> w != u && x in g[w] && Reach(g, v, x)
  {
    forall w, x | w in g && Reach(g, v, w) && x in With(g, u, v)[w]
      ensures w != u && x in g[w] && Reach(g, v, x)
    {
      ReachEdge(g, w, x);
      ReachTrans(g, v, w, x);
    }
  }

  lemma {:induction false} StaysBeyond(g: Edges, u: string, v: string, p: seq<string>, n: nat)
    requires TargetsKnown(g) && u in g && v in g && !Reach(g, v, u)
    requires Path(With(g, u, v), p) && Reach(g, v, p[0]) && n < |p|
    ensures forall i :: 0 <= i <= n ==> p[i] in g && Reach(g, v, p[i]) && p[i] != u
  {
    BeyondClosed(g, u, v);
    if n > 0 {
      StaysBeyond(g, u, v, p, n - 1);
      assert p[n - 1 + 1] in With(g, u, v)[p[n - 1]];
      assert p[n] in g;
      assert Reach(g, v, p[n]);
    }
  }

  lemma {:induction false} NeverBeyond(g: Edges, u: string, v: string, p: seq<string>, n: nat)
    requires TargetsKnown(g) && u in g && v in g && !Reach(g, v, u)
    requires Path(With(g, u, v), p) && n < |p| && !Reach(g, v, p[|p| - 1])
    ensures forall i :: n <= i < |p| ==> p[i] in g && !Reach(g, v, p[i])
    ensures forall i :: n <= i < |p| - 1 ==> p[i + 1] in g[p[i]]
    decreases |p| - n
  {
    if n < |p| - 1 {
      NeverBeyond(g, u, v, p, n + 1);
      BeyondClosed(g, u, v);
      ReachSelf(g, v);
      assert p[n + 1] in With(g, u, v)[p[n]];
    }
  }

  /** The ratchet: adding an import that closes no cycle never breaks a passing gate. */
  lemma AcyclicGrowthPasses(g: Edges, recorded: set<Import>, u: string, v: string)
    requires TargetsKnown(g) && u in g && v in g && !Reach(g, v, u)
    ensures Passes(With(g, u, v), recorded) <==> Passes(g, recorded)
  {
    var h := With(g, u, v);
    forall a, b | a in g && b in h[a]
      ensures OnCycle(h, a, b) <==> b in g[a] && OnCycle(g, a, b)
    {
      OnCycleIffReachBack(h, a, b);
      if OnCycle(h, a, b) {
        NewEdgeReach(g, u, v, a, b);
        OnCycleIffReachBack(g, a, b);
      }
      if b in g[a] && OnCycle(g, a, b) {
        OnCycleIffReachBack(g, a, b);
        ReachWith(g, u, v, b, a);
      }
    }
  }
}
