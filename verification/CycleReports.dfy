/** The import-cycle report as a whole (`find_architectural_import_cycles`): the loop over all modules, and what the report
    says about the graph. */
module CycleReports {
  import opened Graph
  import opened ImportCycles
  import opened Ordering

  lemma NothingOpen(g: Edges, s: Frontier)
    requires Inv(g, s, {})
    ensures s.stack == []
  {
    if s.stack != [] {
      OpenNeedsGray(g, s, {}, s.stack[0]);
    }
  }

  lemma SearchStarts(g: Edges)
    requires TargetsKnown(g)
    ensures Inv(g, Frontier(map[], []), {}) && Reported(g, Frontier(map[], []), [])
  {
  }

  /** A finished search has reported exactly the cyclic components. */
  lemma ReportComplete(g: Edges, s: Frontier, components: seq<seq<string>>, r: seq<seq<string>>)
    requires Inv(g, s, {}) && g.Keys <= s.index.Keys && Reported(g, s, components)
    requires Increasing(ListLess, r) && forall c :: c in r <==> c in components
    ensures IsCycleReport(g, r)
  {
    NothingOpen(g, s);
    forall v | v in g && Looped(g, v)
      ensures ListedIn(g, v, r)
    {
      assert s.Settled(v);
      assert ListedIn(g, v, components);
    }
    forall c | c in r
      ensures exists v :: v in g && Looped(g, v) && Lists(g, v, c)
    {
      assert ListsSettled(g, s, c);
    }
  }

  method FindImportCycles(edges: Edges) returns (r: seq<seq<string>>)
    requires TargetsKnown(edges)
    ensures IsCycleReport(edges, r)
  {
    hide Inv, Reported, Reach, Extends, Witnessed, BoundsEdges, Increasing;
    var search := new CycleSearch(edges);
    SearchStarts(edges);
    assert search.Now() == Frontier(map[], []);
    var roots := SortedNames(edges.Keys);
    for i := 0 to |roots|
      invariant fresh(search) && search.edges == edges
      invariant search.Consistent() && Inv(edges, search.Now(), {})
      invariant forall w :: w in roots[..i] ==> w in search.index
    {
      var vertex := roots[i];
      if vertex !in search.index {
        ghost var before := search.Now();
        search.Visit(vertex, {});
        NumbersStay(before, search.Now());
      }
    }
    assert edges.Keys <= search.index.Keys;
    r := SortedComponents(search.components, edges, search.Now());
    ReportComplete(edges, search.Now(), search.components, r);
  }

  lemma NumbersStay(s: Frontier, t: Frontier)
    requires Extends(s, t)
    ensures forall u :: u in s.index ==> u in t.index
  {
  }

  /** `sorted` of the list of components. */
  method SortedComponents(components: seq<seq<string>>, ghost g: Edges, ghost s: Frontier) returns (r: seq<seq<string>>)
    requires Reported(g, s, components)
    ensures Increasing(ListLess, r)
    ensures forall c :: c in r <==> c in components
  {
    ListOrder();
    TotalIsWeak(ListLess);
    SortOfDistinct(ListLess, components);
    r := SortBy(ListLess, components);
  }

  // ---------------------------------------------------------------- what the report means

  /** There is only one such report: no visiting order can change the result. */
  lemma ReportIsUnique(g: Edges, r1: seq<seq<string>>, r2: seq<seq<string>>)
    requires IsCycleReport(g, r1) && IsCycleReport(g, r2)
    ensures r1 == r2
  {
    forall c
      ensures c in r1 <==> c in r2
    {
      if c in r1 {
        SharedEntry(g, r1, r2, c);
      }
      if c in r2 {
        SharedEntry(g, r2, r1, c);
      }
    }
    ListOrder();
    IncreasingIsUnique(ListLess, r1, r2);
  }

  lemma SharedEntry(g: Edges, r1: seq<seq<string>>, r2: seq<seq<string>>, c: seq<string>)
    requires IsCycleReport(g, r1) && IsCycleReport(g, r2) && c in r1
    ensures c in r2
  {
    var v :| v in g && Looped(g, v) && Lists(g, v, c);
    assert ListedIn(g, v, r2);
    var d :| d in r2 && Lists(g, v, d);
    StringOrder();
    IncreasingIsUnique(StringLess, c, d);
  }

  /** No module is in two reported components. */
  lemma ReportIsDisjoint(g: Edges, r: seq<seq<string>>, i: nat, j: nat, x: string)
    requires IsCycleReport(g, r) && i < |r| && j < |r|
    requires x in r[i] && x in r[j]
    ensures i == j
  {
    assert r[i] in r && r[j] in r;
    var u :| u in g && Looped(g, u) && Lists(g, u, r[i]);
    var v :| v in g && Looped(g, v) && Lists(g, v, r[j]);
    SccShared(g, u, x);
    SccShared(g, v, x);
    StringOrder();
    IncreasingIsUnique(StringLess, r[i], r[j]);
    ListOrder();
  }

  /** The report is empty exactly for an acyclic import graph. */
  lemma EmptyIffAcyclic(g: Edges, r: seq<seq<string>>)
    requires TargetsKnown(g) && IsCycleReport(g, r)
    ensures r == [] <==> Acyclic(g)
  {
    if !Acyclic(g) {
      var p :| Cycle(g, p);
      LoopedIffOnCycle(g, p[0]);
      assert ListedIn(g, p[0], r);
    }
    if r != [] {
      assert r[0] in r;
      var v :| v in g && Looped(g, v) && Lists(g, v, r[0]);
      LoopedIffOnCycle(g, v);
    }
  }

  /** An import is inside one reported component exactly when it lies on some directed cycle. */
  lemma InsideIffOnCycle(g: Edges, r: seq<seq<string>>, u: string, v: string)
    requires TargetsKnown(g) && IsCycleReport(g, r) && u in g && v in g[u]
    ensures (exists c :: c in r && u in c && v in c) <==> OnCycle(g, u, v)
  {
    OnCycleIffReachBack(g, u, v);
    ReachEdge(g, u, v);
    if exists c :: c in r && u in c && v in c {
      var c :| c in r && u in c && v in c;
      var w :| w in g && Looped(g, w) && Lists(g, w, c);
      ReachTrans(g, v, w, u);
    }
    if Reach(g, v, u) {
      ReachSelf(g, u);
      assert {u, v} <= Scc(g, u);
      SecondMember(Scc(g, u), u);
      assert ListedIn(g, u, r);
      var c :| c in r && Lists(g, u, c);
      assert u in c && v in c;
    }
  }
}
