/** The depth-first search for import cycles (`find_architectural_import_cycles`).

    The search is Tarjan's: one recursive visit per module, a number and a low link per
    module, one stack of modules whose component is still open.  `gray` below is the set of
    modules whose visit has started and not finished, i.e. the recursion itself. */
module ImportCycles {
  import opened Ordering
  import opened Graph

  /** The part of the search state the invariant speaks of. */
  datatype Frontier = Frontier(index: map<string, nat>, stack: seq<string>) {
    /** Numbered and no longer on the stack: its component is complete. */
    predicate Settled(v: string) {
      v in index && v !in stack
    }
  }

  ghost predicate Numbered(g: Edges, s: Frontier) {
    && TargetsKnown(g)
    && s.index.Keys <= g.Keys
    && (forall v :: v in s.index ==> s.index[v] < |s.index|)
  }

  ghost predicate StackOrdered(s: Frontier) {
    && (forall v :: v in s.stack ==> v in s.index)
    && (forall i, j :: 0 <= i < j < |s.stack| ==> s.index[s.stack[i]] < s.index[s.stack[j]])
  }

  ghost predicate Below(s: Frontier, x: string, y: string) {
    x in s.index && y in s.index && s.index[x] <= s.index[y]
  }

  ghost predicate Anchored(g: Edges, s: Frontier, gray: set<string>, y: string) {
    exists x :: x in gray && Below(s, x, y) && Reach(g, y, x)
  }

  /** A finished visit has looked at all its imports. */
  ghost predicate Explored(g: Edges, s: Frontier, gray: set<string>) {
    forall v, w :: v in s.index && v !in gray && v in g && w in g[v] ==> w in s.index
  }

  /** Nothing leads from a settled module back to an open one. */
  ghost predicate SettledClosed(g: Edges, s: Frontier) {
    forall v, w :: s.Settled(v) && v in g && w in g[v] ==> s.Settled(w)
  }

  /** An unfinished module reaches everything above it on the stack. */
  ghost predicate GrayReachUp(g: Edges, s: Frontier, gray: set<string>) {
    forall x, y :: x in gray && y in s.stack && Below(s, x, y) ==> Reach(g, x, y)
  }

  /** What holds of the search whenever no assignment is half done. */
  ghost predicate Inv(g: Edges, s: Frontier, gray: set<string>) {
    && Numbered(g, s)
    && StackOrdered(s)
    && (forall v :: v in gray ==> v in s.stack)
    && Explored(g, s, gray)
    && SettledClosed(g, s)
    && GrayReachUp(g, s, gray)
    // every module on the stack reaches back to some unfinished module below it
    && (forall y {:trigger Anchored(g, s, gray, y)} :: y in s.stack ==> Anchored(g, s, gray, y))
  }

  /** c is the sorted list of v's strong component. */
  ghost predicate Lists(g: Edges, v: string, c: seq<string>) {
    Increasing(StringLess, c) && (forall w :: w in c <==> w in Scc(g, v))
  }

  ghost predicate ListedIn(g: Edges, v: string, components: seq<seq<string>>) {
    exists c :: c in components && Lists(g, v, c)
  }

  ghost predicate ListsSettled(g: Edges, s: Frontier, c: seq<string>) {
    exists v :: s.Settled(v) && v in g && Looped(g, v) && Lists(g, v, c)
  }

  /** The components reported so far are the cyclic components of the settled modules, once each. */
  ghost predicate Reported(g: Edges, s: Frontier, components: seq<seq<string>>) {
    && (forall v {:trigger ListedIn(g, v, components)} ::
          s.Settled(v) && v in g && Looped(g, v) ==> ListedIn(g, v, components))
    && (forall c {:trigger ListsSettled(g, s, c)} :: c in components ==> ListsSettled(g, s, c))
    && Distinct(components)
  }

  /** What the search promises: the cyclic strong components, each as its sorted list, in sorted order. */
  ghost predicate IsCycleReport(g: Edges, r: seq<seq<string>>) {
    && Increasing(ListLess, r)
    && (forall v {:trigger ListedIn(g, v, r)} :: v in g && Looped(g, v) ==> ListedIn(g, v, r))
    && (forall c :: c in r ==> exists v :: v in g && Looped(g, v) && Lists(g, v, c))
  }

  // ---------------------------------------------------------------- how the frontier grows

  /** The search never forgets: numbers stay, and old modules keep their place on or off the stack. */
  ghost predicate Extends(s: Frontier, t: Frontier) {
    && s.index.Keys <= t.index.Keys
    && (forall u :: u in s.index ==> t.index[u] == s.index[u])
    && s.stack <= t.stack
    && (forall u :: u in s.index ==> (u in t.stack <==> u in s.stack))
  }

  /** `low` bounds every edge that leads from the part of the stack above `base` into `base`,
      not counting edges of v to modules outside `seen`. */
  ghost predicate BoundsEdges(g: Edges, t: Frontier, base: seq<string>, v: string, seen: set<string>, low: nat) {
    forall a, b :: a in t.stack && a !in base && a in g && b in g[a] && b in base && b in t.index && (a != v || b in seen)
      ==> low <= t.index[b]
  }

  /** `low` is the number of some module that v reaches. */
  ghost predicate Witnessed(g: Edges, t: Frontier, v: string, low: nat) {
    exists y :: y in t.stack && y in t.index && t.index[y] == low && Reach(g, v, y)
  }

  function Push(s: Frontier, v: string): Frontier {
    Frontier(s.index[v := |s.index|], s.stack + [v])
  }

  lemma PushNumbers(g: Edges, s: Frontier, v: string)
    requires Numbered(g, s) && StackOrdered(s) && v in g && v !in s.index
    ensures Numbered(g, Push(s, v)) && StackOrdered(Push(s, v)) && Extends(s, Push(s, v))
    ensures forall u :: Push(s, v).Settled(u) <==> s.Settled(u)
  {
  }

  lemma PushReaches(g: Edges, s: Frontier, gray: set<string>, v: string)
    requires Numbered(g, s) && StackOrdered(s) && v in g && v !in s.index
    requires forall x :: x in gray ==> x in s.stack && Reach(g, x, v)
    requires GrayReachUp(g, s, gray)
    ensures GrayReachUp(g, Push(s, v), gray + {v})
  {
    var t := Push(s, v);
    ReachSelf(g, v);
    forall x, y | x in gray + {v} && y in t.stack && Below(t, x, y)
      ensures Reach(g, x, y)
    {
      if y != v {
        assert Below(s, x, y);
      }
    }
  }

  lemma PushAnchors(g: Edges, s: Frontier, gray: set<string>, v: string, y: string)
    requires Numbered(g, s) && v in g && v !in s.index
    requires y == v || Anchored(g, s, gray, y)
    ensures Anchored(g, Push(s, v), gray + {v}, y)
  {
    var t := Push(s, v);
    if y == v {
      ReachSelf(g, v);
      assert Below(t, v, v);
    } else {
      var x :| x in gray && Below(s, x, y) && Reach(g, y, x);
      assert Below(t, x, y);
    }
  }

  lemma PushKeepsInv(g: Edges, s: Frontier, gray: set<string>, v: string)
    requires Inv(g, s, gray) && v in g && v !in s.index
    requires forall x :: x in gray ==> Reach(g, x, v)
    ensures Inv(g, Push(s, v), gray + {v}) && Extends(s, Push(s, v))
    ensures forall u :: Push(s, v).Settled(u) <==> s.Settled(u)
  {
    PushNumbers(g, s, v);
    PushReaches(g, s, gray, v);
    forall y | y in Push(s, v).stack
      ensures Anchored(g, Push(s, v), gray + {v}, y)
    {
      assert y != v ==> Anchored(g, s, gray, y);
      PushAnchors(g, s, gray, v, y);
    }
  }

  lemma GrayReaches(g: Edges, s: Frontier, gray: set<string>, v: string, t: string)
    requires Inv(g, s, gray) && v in gray && t in g[v]
    requires forall x :: x in gray ==> Below(s, x, v)
    ensures forall x :: x in gray ==> Reach(g, x, t)
  {
    ReachEdge(g, v, t);
    forall x | x in gray
      ensures Reach(g, x, t)
    {
      ReachTrans(g, x, v, t);
    }
  }

  // ---------------------------------------------------------------- the end of a visit

  /** The setting at the end of the loop over v's imports: `base` is the stack v was pushed on. */
  ghost predicate VisitDone(g: Edges, t: Frontier, gray: set<string>, v: string, base: seq<string>, low: nat) {
    && v in g && v in t.index && v !in gray
    && Inv(g, t, gray + {v})
    && base + [v] <= t.stack
    && (forall x :: x in gray ==> x in base)
    && (forall w :: w in g[v] ==> w in t.index)
    && low <= t.index[v]
    && Witnessed(g, t, v, low)
    && BoundsEdges(g, t, base, v, g[v], low)
  }

  /** The stack above v's base: v and everything numbered after it. */
  ghost predicate Above(t: Frontier, base: seq<string>, y: string) {
    y in t.stack && y !in base
  }

  lemma BaseIsBelow(t: Frontier, v: string, base: seq<string>)
    requires StackOrdered(t) && base + [v] <= t.stack
    ensures v in t.index && Above(t, base, v)
    ensures forall y :: y in base ==> y in t.stack && y in t.index
    ensures forall y :: y in t.stack ==> (y in base <==> t.index[y] < t.index[v])
    ensures StackOrdered(Frontier(t.index, base))
  {
    assert t.stack[|base|] == v;
    assert v in t.stack;
    forall i | 0 <= i < |base|
      ensures t.stack[i] == base[i]
    {
      assert (base + [v])[i] == base[i];
    }
    forall y | y in t.stack
      ensures y in base <==> t.index[y] < t.index[v]
    {
      var j :| 0 <= j < |t.stack| && t.stack[j] == y;
      assert j < |base| ==> base[j] == y;
    }
  }

  lemma SettledStays(g: Edges, t: Frontier, b: string, goal: string)
    requires SettledClosed(g, t) && t.Settled(b) && Reach(g, b, goal)
    ensures t.Settled(goal)
  {
    if !t.Settled(goal) {
      var settled := set y | y in t.index && t.Settled(y);
      forall c, d | c in settled && c in g && d in g[c]
        ensures d in settled
      {
        assert t.Settled(c) && t.Settled(d);
      }
      var c, d := Crossing(g, settled, b, goal);
    }
  }

  /** No walk that returns to the stack's upper part leaves that part. */
  lemma NoEscape(g: Edges, t: Frontier, gray: set<string>, v: string, base: seq<string>, u: string, w: string, goal: string)
    requires v in t.index && VisitDone(g, t, gray, v, base, t.index[v])
    requires Above(t, base, u) && Reach(g, u, w) && Reach(g, w, goal) && goal in t.stack
    ensures Above(t, base, w)
  {
    BaseIsBelow(t, v, base);
    if !Above(t, base, w) {
      var inside := set y | y in t.stack && Above(t, base, y);
      var a, b := Crossing(g, inside, u, w);
      ReachTrans(g, b, w, goal);
      if t.Settled(b) {
        SettledStays(g, t, b, goal);
      }
    }
  }

  /** When the low link is v's own number, the stack above v's base is v's strong component. */
  lemma SegmentIsComponent(g: Edges, t: Frontier, gray: set<string>, v: string, base: seq<string>)
    requires v in t.index && VisitDone(g, t, gray, v, base, t.index[v])
    ensures forall w :: w in Scc(g, v) <==> Above(t, base, w)
  {
    BaseIsBelow(t, v, base);
    ReachSelf(g, v);
    forall w | Above(t, base, w)
      ensures w in Scc(g, v)
    {
      assert Below(t, v, w);
      assert Anchored(g, t, gray + {v}, w);
      var x :| x in gray + {v} && Below(t, x, w) && Reach(g, w, x);
      ReachSelf(g, x);
      NoEscape(g, t, gray, v, base, w, x, x);
      assert x == v;
    }
    forall w | w in Scc(g, v)
      ensures Above(t, base, w)
    {
      NoEscape(g, t, gray, v, base, v, w, v);
    }
  }

  lemma PopSettles(g: Edges, t: Frontier, gray: set<string>, v: string, base: seq<string>)
    requires v in t.index && VisitDone(g, t, gray, v, base, t.index[v])
    ensures SettledClosed(g, Frontier(t.index, base))
  {
    BaseIsBelow(t, v, base);
    var s := Frontier(t.index, base);
    forall a, b | s.Settled(a) && a in g && b in g[a]
      ensures s.Settled(b)
    {
      if t.Settled(a) {
        assert t.Settled(b);
      } else {
        assert b in t.index && b !in base;
      }
    }
  }

  lemma PopAnchors(g: Edges, t: Frontier, gray: set<string>, v: string, base: seq<string>, y: string)
    requires v in t.index && Anchored(g, t, gray + {v}, y) && y in t.index && t.index[y] < t.index[v]
    ensures Anchored(g, Frontier(t.index, base), gray, y)
  {
  }

  lemma PopReaches(g: Edges, t: Frontier, gray: set<string>, v: string, base: seq<string>)
    requires GrayReachUp(g, t, gray + {v}) && (forall y :: y in base ==> y in t.stack)
    ensures GrayReachUp(g, Frontier(t.index, base), gray)
  {
  }

  lemma PopExplores(g: Edges, t: Frontier, gray: set<string>, v: string, base: seq<string>)
    requires Explored(g, t, gray + {v}) && v in g
    requires forall w :: w in g[v] ==> w in t.index
    ensures Explored(g, Frontier(t.index, base), gray)
  {
  }

  /** Popping that component leaves a good state for the caller. */
  lemma PopKeepsInv(g: Edges, t: Frontier, gray: set<string>, v: string, base: seq<string>)
    requires v in t.index && VisitDone(g, t, gray, v, base, t.index[v])
    ensures Inv(g, Frontier(t.index, base), gray)
  {
    hide Reach, Explored, SettledClosed, GrayReachUp, BoundsEdges, Witnessed, Anchored;
    BaseIsBelow(t, v, base);
    PopExplores(g, t, gray, v, base);
    PopSettles(g, t, gray, v, base);
    PopReaches(g, t, gray, v, base);
    forall y | y in base
      ensures Anchored(g, Frontier(t.index, base), gray, y)
    {
      assert Anchored(g, t, gray + {v}, y);
      PopAnchors(g, t, gray, v, base, y);
    }
  }

  lemma StayAnchors(g: Edges, t: Frontier, gray: set<string>, v: string, x0: string, y: string)
    requires Anchored(g, t, gray + {v}, y)
    requires x0 in gray && Below(t, x0, v) && Reach(g, v, x0)
    ensures Anchored(g, t, gray, y)
  {
    var x :| x in gray + {v} && Below(t, x, y) && Reach(g, y, x);
    if x == v {
      ReachTrans(g, y, v, x0);
      assert Below(t, x0, y);
    }
  }

  lemma OlderAnchor(g: Edges, t: Frontier, gray: set<string>, v: string, y0: string) returns (x0: string)
    requires Anchored(g, t, gray + {v}, y0) && y0 in t.index && v in t.index && t.index[y0] < t.index[v]
    requires Reach(g, v, y0)
    ensures x0 in gray && Below(t, x0, v) && Reach(g, v, x0)
  {
    x0 :| x0 in gray + {v} && Below(t, x0, y0) && Reach(g, y0, x0);
    ReachTrans(g, v, y0, x0);
  }

  lemma LessGray(g: Edges, t: Frontier, gray: set<string>, v: string)
    requires Explored(g, t, gray + {v}) && GrayReachUp(g, t, gray + {v})
    requires v in g && forall w :: w in g[v] ==> w in t.index
    ensures Explored(g, t, gray) && GrayReachUp(g, t, gray)
  {
  }

  /** A low link below v's number anchors everything above v's base to an older unfinished module. */
  lemma StayKeepsInv(g: Edges, t: Frontier, gray: set<string>, v: string, y0: string)
    requires Inv(g, t, gray + {v}) && v in g && v in t.index && v !in gray
    requires forall w :: w in g[v] ==> w in t.index
    requires y0 in t.stack && y0 in t.index && t.index[y0] < t.index[v] && Reach(g, v, y0)
    ensures Inv(g, t, gray)
  {
    LessGray(g, t, gray, v);
    assert Anchored(g, t, gray + {v}, y0);
    var x0 := OlderAnchor(g, t, gray, v, y0);
    forall y | y in t.stack
      ensures Anchored(g, t, gray, y)
    {
      assert Anchored(g, t, gray + {v}, y);
      StayAnchors(g, t, gray, v, x0, y);
    }
  }

  lemma NotReportedYet(g: Edges, t: Frontier, v: string, components: seq<seq<string>>, c: seq<string>)
    requires SettledClosed(g, t) && v in g && v in t.stack && Lists(g, v, c)
    requires Reported(g, t, components)
    ensures c !in components
  {
    if c in components {
      assert ListsSettled(g, t, c);
      var u :| t.Settled(u) && u in g && Looped(g, u) && Lists(g, u, c);
      ReachSelf(g, v);
      assert v in Scc(g, v);
      SettledStays(g, t, u, v);
    }
  }

  lemma StillListed(g: Edges, t: Frontier, s: Frontier, c: seq<string>)
    requires ListsSettled(g, t, c)
    requires forall u :: t.Settled(u) ==> s.Settled(u)
    ensures ListsSettled(g, s, c)
  {
  }

  lemma ListedShared(g: Edges, v: string, u: string, c: seq<string>, components: seq<seq<string>>)
    requires Scc(g, u) == Scc(g, v) && Lists(g, v, c) && c in components
    ensures ListedIn(g, u, components)
  {
  }

  /** The popped component is new, so adding it when cyclic keeps the report exact. */
  lemma PopKeepsReport(g: Edges, t: Frontier, gray: set<string>, v: string, base: seq<string>,
                       components: seq<seq<string>>, c: seq<string>)
    requires v in t.index && VisitDone(g, t, gray, v, base, t.index[v])
    requires Reported(g, t, components) && Lists(g, v, c)
    ensures Reported(g, Frontier(t.index, base), if Looped(g, v) then components + [c] else components)
  {
    BaseIsBelow(t, v, base);
    SegmentIsComponent(g, t, gray, v, base);
    NotReportedYet(g, t, v, components, c);
    var s := Frontier(t.index, base);
    var r := if Looped(g, v) then components + [c] else components;
    assert s.Settled(v);
    forall u | s.Settled(u) && u in g && Looped(g, u)
      ensures ListedIn(g, u, r)
    {
      if u in t.stack {
        assert Above(t, base, u);
        MemberShares(g, v, u);
        ListedShared(g, v, u, c, r);
      } else {
        assert t.Settled(u) && ListedIn(g, u, components);
      }
    }
    forall d | d in r
      ensures ListsSettled(g, s, d)
    {
      if d in components {
        assert ListsSettled(g, t, d);
        StillListed(g, t, s, d);
      }
    }
    AppendDistinct(components, c);
  }

  lemma MemberShares(g: Edges, v: string, u: string)
    requires TargetsKnown(g) && v in g && u in Scc(g, v)
    ensures Scc(g, u) == Scc(g, v) && (Looped(g, u) <==> Looped(g, v))
  {
    SccShared(g, v, u);
    ReachSelf(g, u);
    ReachSelf(g, v);
    SecondMember(Scc(g, v), u);
    SecondMember(Scc(g, v), v);
    assert u in Scc(g, v) && v in Scc(g, v);
  }

  // ---------------------------------------------------------------- the loop over one module's imports

  function Min(a: nat, b: nat): nat {
    if b < a then b else a
  }

  /** During the visit of v, which began in state s: `seen` are the imports already handled. */
  ghost predicate Visiting(g: Edges, s: Frontier, t: Frontier, gray: set<string>, v: string, seen: set<string>, low: nat) {
    && v in g && v !in s.index && v in t.index && v !in gray
    && (forall x :: x in gray ==> x in s.stack)
    && Inv(g, t, gray + {v})
    && Extends(Push(s, v), t)
    && t.index[v] == |s.index|
    && low <= t.index[v]
    && Witnessed(g, t, v, low)
    && BoundsEdges(g, t, s.stack, v, seen, low)
    && (forall w :: w in seen ==> w in t.index)
  }

  lemma VisitStarts(g: Edges, s: Frontier, gray: set<string>, v: string)
    requires Inv(g, s, gray) && v in g && v !in s.index
    requires forall x :: x in gray ==> Reach(g, x, v)
    ensures Visiting(g, s, Push(s, v), gray, v, {}, |s.index|)
  {
    PushKeepsInv(g, s, gray, v);
    ReachSelf(g, v);
    var t := Push(s, v);
    assert t.index[v] == |s.index|;
    assert forall a :: a in t.stack && a !in s.stack ==> a == v;
  }

  /** An import already numbered: its number counts only while it is on the stack. */
  lemma OldImport(g: Edges, s: Frontier, t: Frontier, gray: set<string>, v: string, seen: set<string>, low: nat, w: string)
    requires Visiting(g, s, t, gray, v, seen, low)
    requires w in g[v] && w in t.index
    ensures Visiting(g, s, t, gray, v, seen + {w}, if w in t.stack then Min(low, t.index[w]) else low)
  {
    ReachEdge(g, v, w);
    PrefixMembers(s.stack + [v], t.stack);
  }

  lemma WitnessVia(g: Edges, t: Frontier, v: string, w: string, low: nat)
    requires Reach(g, v, w) && Witnessed(g, t, w, low)
    ensures Witnessed(g, t, v, low)
  {
    var y :| y in t.stack && y in t.index && t.index[y] == low && Reach(g, w, y);
    ReachTrans(g, v, w, y);
  }

  lemma BoundsAfter(g: Edges, s: Frontier, t: Frontier, u: Frontier, v: string, seen: set<string>, low: nat, w: string, lowW: nat)
    requires Extends(t, u) && Numbered(g, t) && StackOrdered(t)
    requires (forall x :: x in s.stack ==> x in t.stack)
    requires v in t.stack && w in g && w !in t.index
    requires BoundsEdges(g, t, s.stack, v, seen, low)
    requires BoundsEdges(g, u, t.stack, w, g[w], lowW)
    ensures BoundsEdges(g, u, s.stack, v, seen + {w}, Min(low, lowW))
  {
  }

  /** An import visited just now. */
  lemma NewImport(g: Edges, s: Frontier, t: Frontier, u: Frontier, gray: set<string>, v: string, seen: set<string>, low: nat,
                  w: string, lowW: nat)
    requires Visiting(g, s, t, gray, v, seen, low)
    requires w in g[v] && w in g && w !in t.index
    requires Inv(g, u, gray + {v}) && Extends(t, u)
    requires w in u.index && u.index[w] == |t.index|
    requires if w in u.stack then Witnessed(g, u, w, lowW) else lowW == u.index[w]
    requires BoundsEdges(g, u, t.stack, w, g[w], lowW)
    ensures Visiting(g, s, u, gray, v, seen + {w}, Min(low, lowW))
  {
    ReachEdge(g, v, w);
    ExtendsTrans(Push(s, v), t, u);
    PrefixMembers(s.stack + [v], t.stack);
    BoundsAfter(g, s, t, u, v, seen, low, w, lowW);
    if lowW < low {
      WitnessVia(g, u, v, w, lowW);
    } else {
      KeepsWitness(g, t, u, v, low);
    }
  }

  lemma PrefixMembers(a: seq<string>, b: seq<string>)
    requires a <= b
    ensures forall x :: x in a ==> x in b
  {
  }

  lemma ExtendsTrans(s: Frontier, t: Frontier, u: Frontier)
    requires Extends(s, t) && Extends(t, u)
    ensures Extends(s, u)
  {
  }

  lemma KeepsWitness(g: Edges, t: Frontier, u: Frontier, v: string, low: nat)
    requires Extends(t, u) && Witnessed(g, t, v, low)
    ensures Witnessed(g, u, v, low)
  {
  }

  lemma AccessTo(g: Edges, s: Frontier, t: Frontier, gray: set<string>, v: string, seen: set<string>, low: nat, w: string)
    requires Visiting(g, s, t, gray, v, seen, low) && w in g[v]
    requires Inv(g, s, gray)
    ensures w in g && Inv(g, t, gray + {v})
    ensures forall x :: x in gray + {v} ==> Reach(g, x, w)
  {
    hide Reach, Witnessed, BoundsEdges, Anchored, Explored, SettledClosed, GrayReachUp;
    GrayIsBelow(s, t, gray, v);
    GrayReaches(g, t, gray + {v}, v, w);
  }

  lemma GrayIsBelow(s: Frontier, t: Frontier, gray: set<string>, v: string)
    requires (forall x :: x in gray ==> x in s.stack) && StackOrdered(s)
    requires (forall u :: u in s.index ==> s.index[u] < |s.index|) && v in t.index && t.index[v] == |s.index|
    requires forall u :: u in s.index ==> u in t.index && t.index[u] == s.index[u]
    ensures forall x :: x in gray + {v} ==> Below(t, x, v)
  {
  }

  lemma VisitGrows(g: Edges, s: Frontier, t: Frontier, gray: set<string>, v: string, seen: set<string>, low: nat)
    requires Visiting(g, s, t, gray, v, seen, low)
    ensures s.index.Keys + {v} <= t.index.Keys <= g.Keys && v !in s.index
    ensures low <= t.index[v]
  {
  }

  /** Only which modules are settled matters to the report. */
  lemma SameSettled(g: Edges, s: Frontier, t: Frontier, components: seq<seq<string>>)
    requires Reported(g, s, components)
    requires forall u :: t.Settled(u) <==> s.Settled(u)
    ensures Reported(g, t, components)
  {
    forall v | t.Settled(v) && v in g && Looped(g, v)
      ensures ListedIn(g, v, components)
    {
      assert s.Settled(v);
    }
    forall c | c in components
      ensures ListsSettled(g, t, c)
    {
      assert ListsSettled(g, s, c);
      StillListed(g, s, t, c);
    }
  }

  lemma PushSettles(g: Edges, s: Frontier, v: string, gray: set<string>, components: seq<seq<string>>)
    requires Inv(g, s, gray) && v in g && v !in s.index && Reported(g, s, components)
    ensures Reported(g, Push(s, v), components)
  {
    PushNumbers(g, s, v);
    SameSettled(g, s, Push(s, v), components);
  }

  /** `sorted` of a set of names. */
  method SortedNames(names: set<string>) returns (r: seq<string>)
    ensures Increasing(StringLess, r)
    ensures forall x :: x in r <==> x in names
  {
    StringOrder();
    r := Listing(StringLess, names);
  }

  /** `sorted` of a list of different names. */
  method SortedList(names: seq<string>) returns (r: seq<string>)
    requires Distinct(names)
    ensures Increasing(StringLess, r)
    ensures forall x :: x in r <==> x in names
  {
    StringOrder();
    TotalIsWeak(StringLess);
    SortOfDistinct(StringLess, names);
    r := SortBy(StringLess, names);
  }

  lemma {:induction false} DistinctLength(s: seq<string>, c: set<string>)
    requires Distinct(s) && forall x :: x in s <==> x in c
    ensures |s| == |c|
  {
    if s != [] {
      assert s[0] in c;
      forall x
        ensures x in s[1..] <==> x in c - {s[0]}
      {
        assert s == [s[0]] + s[1..];
      }
      DistinctLength(s[1..], c - {s[0]});
    } else {
      assert c == {};
    }
  }

  lemma LoopedByLength(g: Edges, v: string, component: seq<string>, names: seq<string>)
    requires v in g && Distinct(component) && Lists(g, v, names)
    requires forall x :: x in names <==> x in component
    ensures Looped(g, v) <==> |component| > 1 || v in g[v]
  {
    DistinctLength(component, Scc(g, v));
  }

  lemma VisitEnds(g: Edges, s: Frontier, t: Frontier, gray: set<string>, v: string, low: nat)
    requires v in g && Visiting(g, s, t, gray, v, g[v], low)
    ensures VisitDone(g, t, gray, v, s.stack, low)
  {
  }

  lemma PushedExtends(s: Frontier, t: Frontier, v: string)
    requires v !in s.index && Extends(Push(s, v), t)
    ensures Extends(s, t)
  {
  }

  /** The visit ends with v's component still open. */
  lemma EndOpen(g: Edges, s: Frontier, t: Frontier, gray: set<string>, v: string, low: nat)
    requires v in g && Visiting(g, s, t, gray, v, g[v], low) && low != t.index[v]
    ensures Inv(g, t, gray) && Extends(s, t)
    ensures t.index[v] == |s.index| && v in t.stack
    ensures Witnessed(g, t, v, low) && BoundsEdges(g, t, s.stack, v, g[v], low)
  {
    var y0 :| y0 in t.stack && y0 in t.index && t.index[y0] == low && Reach(g, v, y0);
    StayKeepsInv(g, t, gray, v, y0);
    PrefixMembers(s.stack + [v], t.stack);
    PushedExtends(s, t, v);
  }

  lemma SettledExtends(s: Frontier, t: Frontier, v: string)
    requires v !in s.index && v in t.index && Extends(Push(s, v), t)
    ensures Extends(s, Frontier(t.index, s.stack))
  {
  }

  /** The visit ends by settling v's component. */
  lemma EndSettled(g: Edges, s: Frontier, t: Frontier, gray: set<string>, v: string)
    requires v in g && v in t.index && Visiting(g, s, t, gray, v, g[v], t.index[v])
    requires Inv(g, s, gray)
    ensures Inv(g, Frontier(t.index, s.stack), gray) && Extends(s, Frontier(t.index, s.stack))
    ensures t.index[v] == |s.index| && v !in s.stack
    ensures BoundsEdges(g, Frontier(t.index, s.stack), s.stack, v, g[v], t.index[v])
  {
    VisitEnds(g, s, t, gray, v, t.index[v]);
    hide Reach, Witnessed, Anchored, Explored, SettledClosed, GrayReachUp, VisitDone;
    PopKeepsInv(g, t, gray, v, s.stack);
    SettledExtends(s, t, v);
  }

  lemma OrderedIsDistinct(s: Frontier)
    requires StackOrdered(s)
    ensures Distinct(s.stack)
  {
  }

  lemma TopOfStack(t: Frontier, base: seq<string>, popped: seq<string>)
    requires Distinct(t.stack) && t.stack == base + popped
    ensures forall x :: x in popped <==> Above(t, base, x)
  {
    forall x
      ensures x in popped <==> Above(t, base, x)
    {
      if x in popped {
        var j :| 0 <= j < |popped| && popped[j] == x;
        assert t.stack[|base| + j] == x;
        assert forall i :: 0 <= i < |base| ==> t.stack[i] == base[i];
      }
    }
  }

  /** The list popped off the stack is v's strong component. */
  lemma PoppedComponent(g: Edges, s: Frontier, t: Frontier, gray: set<string>, v: string, popped: seq<string>, c: seq<string>)
    requires v in g && v in t.index && Visiting(g, s, t, gray, v, g[v], t.index[v])
    requires t.stack == s.stack + popped && Increasing(StringLess, c)
    requires forall x :: x in c <==> x in popped
    ensures Lists(g, v, c)
  {
    VisitEnds(g, s, t, gray, v, t.index[v]);
    assert StackOrdered(t);
    hide Reach, Witnessed, BoundsEdges, Inv, Visiting, VisitDone;
    SegmentIsComponent(g, t, gray, v, s.stack);
    OrderedIsDistinct(t);
    TopOfStack(t, s.stack, popped);
  }

  /** Before the pop, the stack is distinct and v sits on its base. */
  lemma ReadyToPop(g: Edges, s: Frontier, t: Frontier, gray: set<string>, v: string, low: nat)
    requires v in g && Visiting(g, s, t, gray, v, g[v], low)
    ensures s.stack + [v] <= t.stack && Distinct(t.stack)
  {
    OrderedIsDistinct(t);
  }

  // ---------------------------------------------------------------- the search

  class CycleSearch {
    const edges: Edges
    var index: map<string, nat>
    var low: map<string, nat>
    var stack: seq<string>
    var active: set<string>
    var components: seq<seq<string>>

    constructor (edges: Edges)
      ensures this.edges == edges
      ensures index == map[] && low == map[] && stack == [] && active == {} && components == []
    {
      this.edges := edges;
      index, low, stack, active, components := map[], map[], [], {}, [];
    }

    ghost function Now(): Frontier
      reads this
    {
      Frontier(index, stack)
    }

    ghost predicate Consistent()
      reads this
    {
      && (forall u :: u in low <==> u in index)
      && (forall u :: u in active <==> u in stack)
      && Reported(edges, Now(), components)
    }

    /** Pops the stack down to and including `vertex`. */
    method PopComponent(vertex: string, ghost base: seq<string>) returns (component: seq<string>)
      requires base + [vertex] <= stack && Distinct(stack)
      requires forall u :: u in active <==> u in stack
      modifies this`stack, this`active
      ensures stack == base
      ensures forall u :: u in active <==> u in stack
      ensures Distinct(component)
      ensures forall x :: x in component <==> x in old(stack)[|base|..]
    {
      component := [];
      assert stack[|base|] == vertex;
      while true
        invariant |base| < |stack| && stack <= old(stack)
        invariant forall u :: u in active <==> u in stack
        invariant Distinct(component)
        invariant forall x :: x in component <==> x in old(stack)[|stack|..]
        decreases |stack|
      {
        var target := stack[|stack| - 1];
        assert old(stack)[|stack| - 1..] == [target] + old(stack)[|stack|..];
        assert target !in stack[..|stack| - 1];
        assert target !in old(stack)[|stack|..];
        AppendDistinct(component, target);
        stack := stack[..|stack| - 1];
        active := active - {target};
        component := component + [target];
        if target == vertex {
          break;
        }
      }
    }

    /** The end of a visit whose low link is its own number: pop the component and report it. */
    method Settle(vertex: string, ghost before: Frontier, ghost gray: set<string>)
      requires Consistent() && Inv(edges, before, gray)
      requires vertex in edges && vertex in index
      requires Visiting(edges, before, Now(), gray, vertex, edges[vertex], index[vertex])
      modifies this`stack, this`active, this`components
      ensures Consistent() && stack == before.stack
    {
      hide Inv, Visiting, Extends, BoundsEdges, Witnessed, Reported, Reach, VisitDone, Increasing, Looped, Lists, Distinct;
      ghost var t := Now();
      ReadyToPop(edges, before, t, gray, vertex, index[vertex]);
      var component := PopComponent(vertex, before.stack);
      var names := SortedList(component);
      assert t.stack == before.stack + t.stack[|before.stack|..];
      PoppedComponent(edges, before, t, gray, vertex, t.stack[|before.stack|..], names);
      VisitEnds(edges, before, t, gray, vertex, index[vertex]);
      PopKeepsReport(edges, t, gray, vertex, before.stack, components, names);
      LoopedByLength(edges, vertex, component, names);
      if |component| > 1 || vertex in edges[vertex] {
        components := components + [names];
      }
      assert Now() == Frontier(t.index, before.stack);
    }

    /** One import of `vertex`: visit it if it is new, else take its number while it is open. */
    method Import(vertex: string, target: string, ghost before: Frontier, ghost gray: set<string>, ghost seen: set<string>)
      requires Consistent() && vertex in edges && vertex in index && target in edges[vertex]
      requires Inv(edges, before, gray)
      requires Visiting(edges, before, Now(), gray, vertex, seen, low[vertex])
      modifies this
      ensures Consistent() && vertex in index && vertex in low
      ensures Visiting(edges, before, Now(), gray, vertex, seen + {target}, low[vertex])
      ensures forall u :: u in old(low) && u != vertex ==> u in low && low[u] == old(low)[u]
      decreases edges.Keys - index.Keys, 1
    {
      hide Inv, Visiting, Extends, BoundsEdges, Witnessed, Reported, Reach;
      ghost var t := Now();
      ghost var lowBefore := low[vertex];
      VisitGrows(edges, before, t, gray, vertex, seen, lowBefore);
      if target !in index {
        AccessTo(edges, before, t, gray, vertex, seen, lowBefore, target);
        Visit(target, gray + {vertex});
        NewImport(edges, before, t, Now(), gray, vertex, seen, lowBefore, target, low[target]);
        ghost var u := Now();
        VisitGrows(edges, before, u, gray, vertex, seen + {target}, Min(low[vertex], low[target]));
        low := low[vertex := Min(low[vertex], low[target])];
        assert Now() == u;
      } else {
        OldImport(edges, before, t, gray, vertex, seen, lowBefore, target);
        if target in active {
          low := low[vertex := Min(low[vertex], index[target])];
        }
        assert Now() == t;
      }
    }

    /** The start of a visit: number `vertex` and put it on the stack. */
    method Open(vertex: string, ghost gray: set<string>)
      requires Consistent() && Inv(edges, Now(), gray)
      requires vertex in edges && vertex !in index
      requires forall x :: x in gray ==> Reach(edges, x, vertex)
      modifies this
      ensures Consistent() && vertex in index && vertex in low && vertex !in old(low)
      ensures Visiting(edges, old(Now()), Now(), gray, vertex, {}, low[vertex])
      ensures forall u :: u in old(low) ==> u in low && low[u] == old(low)[u]
    {
      hide Inv, Visiting, Extends, BoundsEdges, Witnessed, Reported, Reach;
      ghost var before := Now();
      VisitStarts(edges, before, gray, vertex);
      PushSettles(edges, before, vertex, gray, components);
      index, low := index[vertex := |index|], low[vertex := |index|];
      stack := stack + [vertex];
      active := active + {vertex};
      assert Now() == Push(before, vertex);
    }

    /** One visit: numbers `vertex` and everything newly reached from it, and settles each
        strong component that is complete. */
    method Visit(vertex: string, ghost gray: set<string>)
      requires Consistent() && Inv(edges, Now(), gray)
      requires vertex in edges && vertex !in index
      requires forall x :: x in gray ==> Reach(edges, x, vertex)
      modifies this
      ensures Consistent() && Inv(edges, Now(), gray)
      ensures Extends(old(Now()), Now())
      ensures forall u :: u in old(low) ==> u in low && low[u] == old(low)[u]
      ensures vertex in index && vertex in low && index[vertex] == |old(index)|
      ensures if vertex in stack then Witnessed(edges, Now(), vertex, low[vertex]) else low[vertex] == index[vertex]
      ensures BoundsEdges(edges, Now(), old(stack), vertex, edges[vertex], low[vertex])
      decreases edges.Keys - index.Keys, 0
    {
      hide Inv, Visiting, Extends, BoundsEdges, Witnessed, Reported, Reach, Increasing, Consistent;
      ghost var before := Now();
      Open(vertex, gray);
      var targets := SortedNames(edges[vertex]);
      ghost var seen := {};
      for i := 0 to |targets|
        invariant Consistent() && vertex in index && vertex in low
        invariant Visiting(edges, before, Now(), gray, vertex, seen, low[vertex])
        invariant forall u :: u in old(low) ==> u in low && low[u] == old(low)[u]
        invariant forall w :: w in seen <==> w in targets[..i]
      {
        VisitGrows(edges, before, Now(), gray, vertex, seen, low[vertex]);
        Import(vertex, targets[i], before, gray, seen);
        seen := seen + {targets[i]};
      }
      assert seen == edges[vertex];
      ghost var t := Now();
      VisitGrows(edges, before, t, gray, vertex, seen, low[vertex]);
      if low[vertex] == index[vertex] {
        EndSettled(edges, before, t, gray, vertex);
        Settle(vertex, before, gray);
        assert Now() == Frontier(t.index, before.stack);
      } else {
        EndOpen(edges, before, t, gray, vertex, low[vertex]);
      }
    }
  }

  lemma OpenNeedsGray(g: Edges, s: Frontier, gray: set<string>, y: string)
    requires Inv(g, s, gray) && y in s.stack
    ensures exists x :: x in gray
  {
    assert Anchored(g, s, gray, y);
  }
}
