/** The reachability report of the call-graph tool (the `chain` search of `scripts/audit/callgraph.py`): a breadth-first
    search that prints each function the first time it is called on the way. */
module CallChain {
  import opened Ordering

  /** The callees of each function; a callee need not be a function of the package itself. */
  type Calls = map<string, set<string>>

  function Out(g: Calls, f: string): set<string> {
    if f in g then g[f] else {}
  }

  /** A call chain of k calls leads from the root to f. */
  ghost predicate Steps(g: Calls, root: string, k: nat, f: string) {
    if k == 0 then f == root else exists w :: Steps(g, root, k - 1, w) && f in Out(g, w)
  }

  /** The length of the shortest chain of at least one call. */
  ghost predicate Distance(g: Calls, root: string, f: string, k: nat) {
    k >= 1 && Steps(g, root, k, f) && forall j :: 1 <= j < k ==> !Steps(g, root, j, f)
  }

  /** Some chain of calls leads to f. */
  ghost predicate Called(g: Calls, root: string, f: string) {
    exists k: nat :: k >= 1 && Steps(g, root, k, f)
  }

  // ---------------------------------------------------------------- the state of the search

  type Level = map<string, nat>

  /** Every function seen is at its distance. */
  ghost predicate Exact(g: Calls, root: string, level: Level) {
    forall f :: f in level ==> Distance(g, root, f, level[f])
  }

  /** Everything within d calls has been seen. */
  ghost predicate Covered(g: Calls, root: string, level: Level, d: nat) {
    forall k: nat, f :: 1 <= k <= d && Steps(g, root, k, f) ==> f in level
  }

  /** The callees of the functions taken from the queue have been seen. */
  ghost predicate Closed(g: Calls, level: Level, popped: set<string>) {
    forall w :: w in popped ==> Out(g, w) <= level.Keys
  }

  /** A queued function with its depth: the root at 0 to begin with, any other at its level. */
  ghost predicate At(root: string, level: Level, f: string, d: nat) {
    (f == root && d == 0) || (f in level && level[f] == d)
  }

  /** The queue is in order of depth, and spans at most two of them. */
  ghost predicate InOrder(root: string, level: Level, q: seq<string>, depth: seq<nat>) {
    && |q| == |depth|
    && (forall i :: 0 <= i < |q| ==> At(root, level, q[i], depth[i]))
    && (forall i, j :: 0 <= i <= j < |q| ==> depth[i] <= depth[j] <= depth[0] + 1)
  }

  /** Whatever has been seen, and the root to begin with, is queued at its depth or has been taken. */
  ghost predicate Pending(root: string, level: Level, popped: set<string>, q: seq<string>, depth: seq<nat>)
    requires |q| == |depth|
  {
    forall w, d :: At(root, level, w, d) ==> w in popped || exists i :: 0 <= i < |q| && q[i] == w && depth[i] == d
  }

  /** The printed lines: each function seen once, below a caller one level up. */
  ghost predicate Tree(g: Calls, root: string, level: Level, printed: seq<(string, string)>) {
    && (forall i, j :: 0 <= i < j < |printed| ==> printed[i].1 != printed[j].1)
    && (forall f :: f in level <==> exists e :: e in printed && e.1 == f)
    && (forall e :: e in printed ==>
         && e.1 in Out(g, e.0) && e.1 in level
         && (if level[e.1] == 1 then e.0 == root else e.0 in level && level[e.1] == level[e.0] + 1))
  }

  // ---------------------------------------------------------------- one discovery

  lemma DistanceNext(g: Calls, root: string, level: Level, n: string, d: nat, f: string)
    requires Exact(g, root, level) && Covered(g, root, level, d) && At(root, level, n, d)
    requires f in Out(g, n) && f !in level
    ensures Distance(g, root, f, d + 1)
  {
  }

  lemma Discovered(g: Calls, root: string, level: Level, n: string, d: nat, f: string)
    requires Exact(g, root, level) && Covered(g, root, level, d) && At(root, level, n, d)
    requires f in Out(g, n) && f !in level
    ensures Exact(g, root, level[f := d + 1]) && Covered(g, root, level[f := d + 1], d)
  {
    DistanceNext(g, root, level, n, d, f);
    hide Distance, Steps;
  }

  lemma QueuedNext(root: string, level: Level, q: seq<string>, depth: seq<nat>, d: nat, f: string)
    requires InOrder(root, level, q, depth) && (forall i :: 0 <= i < |q| ==> d <= depth[i] <= d + 1) && f !in level
    ensures InOrder(root, level[f := d + 1], q + [f], depth + [d + 1])
  {
  }

  lemma TreeNext(g: Calls, root: string, level: Level, printed: seq<(string, string)>, n: string, d: nat, f: string)
    requires Tree(g, root, level, printed) && At(root, level, n, d) && f in Out(g, n) && f !in level
    requires forall w :: w in level ==> level[w] >= 1
    ensures Tree(g, root, level[f := d + 1], printed + [(n, f)])
  {
    var more := printed + [(n, f)];
    var level1 := level[f := d + 1];
    forall w
      ensures w in level1 <==> exists e :: e in more && e.1 == w
    {
      if w == f {
        assert (n, f) in more;
      } else if w in level {
        var e :| e in printed && e.1 == w;
        assert e in more;
      }
    }
    forall i | 0 <= i < |printed|
      ensures printed[i].1 != f
    {
      assert printed[i] in printed;
    }
  }

  lemma ExactPositive(g: Calls, root: string, level: Level)
    requires Exact(g, root, level)
    ensures forall w :: w in level ==> level[w] >= 1
  {
  }

  lemma PendingNext(root: string, level: Level, popped: set<string>, q: seq<string>, depth: seq<nat>, d: nat, f: string)
    requires |q| == |depth| && Pending(root, level, popped, q, depth) && f !in level
    ensures Pending(root, level[f := d + 1], popped, q + [f], depth + [d + 1])
  {
    var q1, depth1, level1 := q + [f], depth + [d + 1], level[f := d + 1];
    forall w, e | At(root, level1, w, e) && w !in popped
      ensures exists i :: 0 <= i < |q1| && q1[i] == w && depth1[i] == e
    {
      if At(root, level, w, e) {
        var i :| 0 <= i < |q| && q[i] == w && depth[i] == e;
        assert q1[i] == w && depth1[i] == e;
      } else {
        assert q1[|q|] == w && depth1[|q|] == e;
      }
    }
  }

  /** The search while the callees of n, at depth d, are gone through. */
  ghost predicate Searching(g: Calls, root: string, n: string, d: nat, popped: set<string>, level: Level, q: seq<string>,
                            depth: seq<nat>, printed: seq<(string, string)>)
  {
    && Exact(g, root, level) && Covered(g, root, level, d) && At(root, level, n, d)
    && InOrder(root, level, q, depth) && (forall i :: 0 <= i < |q| ==> d <= depth[i] <= d + 1)
    && Closed(g, level, popped) && Pending(root, level, popped + {n}, q, depth)
    && Tree(g, root, level, printed)
  }

  lemma SearchingNext(g: Calls, root: string, n: string, d: nat, popped: set<string>, level: Level, q: seq<string>,
                      depth: seq<nat>, printed: seq<(string, string)>, f: string)
    requires Searching(g, root, n, d, popped, level, q, depth, printed) && f in Out(g, n) && f !in level
    ensures Searching(g, root, n, d, popped, level[f := d + 1], q + [f], depth + [d + 1], printed + [(n, f)])
  {
    hide Exact, Covered, Tree, Pending, InOrder, Closed, At, Out;
    OrderLength(root, level, q, depth);
    ExactPositive(g, root, level);
    Discovered(g, root, level, n, d, f);
    QueuedNext(root, level, q, depth, d, f);
    PendingNext(root, level, popped + {n}, q, depth, d, f);
    TreeNext(g, root, level, printed, n, d, f);
    ClosedNext(g, level, popped, f, d + 1);
    StaysAt(root, level, n, d, f, d + 1);
  }

  lemma OrderLength(root: string, level: Level, q: seq<string>, depth: seq<nat>)
    requires InOrder(root, level, q, depth)
    ensures |q| == |depth|
  {
  }

  lemma ClosedNext(g: Calls, level: Level, popped: set<string>, f: string, d: nat)
    requires Closed(g, level, popped)
    ensures Closed(g, level[f := d], popped)
  {
  }

  lemma StaysAt(root: string, level: Level, n: string, d: nat, f: string, k: nat)
    requires At(root, level, n, d) && f !in level
    ensures At(root, level[f := k], n, d)
  {
  }

  method Callees(g: Calls, n: string) returns (callees: seq<string>)
    ensures Elements(callees) == Out(g, n)
  {
    StringOrder();
    callees := Listing(StringLess, Out(g, n));
  }

  /** The callees of one function, in name order: what is new is printed, recorded and queued. */
  method Expand(g: Calls, root: string, n: string, seen0: set<string>, q0: seq<string>, printed0: seq<(string, string)>,
                ghost d: nat, ghost popped: set<string>, ghost level0: Level, ghost depth0: seq<nat>)
    returns (seen: set<string>, q: seq<string>, printed: seq<(string, string)>, ghost level: Level, ghost depth: seq<nat>)
    requires seen0 == level0.Keys && Searching(g, root, n, d, popped, level0, q0, depth0, printed0)
    ensures seen == level.Keys && Searching(g, root, n, d, popped, level, q, depth, printed)
    ensures seen == seen0 + Out(g, n) && (seen != seen0 || q == q0)
  {
    hide Searching, Out;
    seen, q, printed, level, depth := seen0, q0, printed0, level0, depth0;
    var callees := Callees(g, n);
    for i := 0 to |callees|
      invariant seen == level.Keys && Searching(g, root, n, d, popped, level, q, depth, printed)
      invariant seen == seen0 + Elements(callees[..i]) && (seen != seen0 || q == q0)
    {
      var f := callees[i];
      assert f in Elements(callees);
      ElementsNext(callees, i);
      if f !in seen {
        SearchingNext(g, root, n, d, popped, level, q, depth, printed, f);
        assert f in seen + {f} && f !in seen0;
        seen, printed, q := seen + {f}, printed + [(n, f)], q + [f];
        level, depth := level[f := d + 1], depth + [d + 1];
      }
    }
    assert callees[..|callees|] == callees;
  }

  lemma ElementsNext(s: seq<string>, i: nat)
    requires i < |s|
    ensures Elements(s[..i + 1]) == Elements(s[..i]) + {s[i]}
  {
  }

  // ---------------------------------------------------------------- the search

  /** Between two functions. */
  ghost predicate Paused(g: Calls, root: string, popped: set<string>, level: Level, q: seq<string>, depth: seq<nat>,
                         printed: seq<(string, string)>)
  {
    && Exact(g, root, level) && InOrder(root, level, q, depth) && Tree(g, root, level, printed)
    && Closed(g, level, popped) && Pending(root, level, popped, q, depth)
    && (q != [] ==> Covered(g, root, level, depth[0]))
  }

  lemma Begun(g: Calls, root: string)
    ensures Paused(g, root, {}, map[], [root], [0], [])
  {
  }

  /** Taking the head of the queue. */
  lemma Popped(g: Calls, root: string, popped: set<string>, level: Level, q: seq<string>, depth: seq<nat>,
               printed: seq<(string, string)>)
    requires Paused(g, root, popped, level, q, depth, printed) && q != []
    ensures |depth| == |q| && Searching(g, root, q[0], depth[0], popped, level, q[1..], depth[1..], printed)
  {
  }

  /** Once everything queued is deeper than d, everything within d + 1 calls has been seen. */
  lemma DeeperCovered(g: Calls, root: string, popped: set<string>, level: Level, q: seq<string>, depth: seq<nat>, d: nat)
    requires Exact(g, root, level) && Covered(g, root, level, d) && Closed(g, level, popped)
    requires |q| == |depth| && Pending(root, level, popped, q, depth) && forall i :: 0 <= i < |q| ==> depth[i] > d
    ensures Covered(g, root, level, d + 1)
  {
    forall k: nat, f | 1 <= k <= d + 1 && Steps(g, root, k, f)
      ensures f in level
    {
      if k == d + 1 {
        var w :| Steps(g, root, d, w) && f in Out(g, w);
        Taken(g, root, popped, level, q, depth, d, w);
      }
    }
  }

  lemma Taken(g: Calls, root: string, popped: set<string>, level: Level, q: seq<string>, depth: seq<nat>, d: nat, w: string)
    requires Exact(g, root, level) && Covered(g, root, level, d) && Steps(g, root, d, w)
    requires |q| == |depth| && Pending(root, level, popped, q, depth) && forall i :: 0 <= i < |q| ==> depth[i] > d
    ensures w in popped
  {
    if d == 0 {
      assert At(root, level, w, 0);
    } else {
      assert Distance(g, root, w, level[w]);
      assert At(root, level, w, level[w]);
    }
  }

  /** A function's callees are all seen; the next head may be one level deeper. */
  lemma Resumed(g: Calls, root: string, n: string, d: nat, popped: set<string>, level: Level, q: seq<string>,
                depth: seq<nat>, printed: seq<(string, string)>)
    requires Searching(g, root, n, d, popped, level, q, depth, printed) && Out(g, n) <= level.Keys
    ensures Paused(g, root, popped + {n}, level, q, depth, printed)
  {
    hide Exact, Covered, Tree, Pending;
    if q != [] && depth[0] == d + 1 {
      DeeperCovered(g, root, popped + {n}, level, q, depth, d);
    }
  }

  /** With nothing queued, everything has been seen. */
  lemma {:induction false} AllSeen(g: Calls, root: string, popped: set<string>, level: Level, d: nat)
    requires Exact(g, root, level) && Closed(g, level, popped) && Pending(root, level, popped, [], [])
    ensures Covered(g, root, level, d)
  {
    if d > 0 {
      AllSeen(g, root, popped, level, d - 1);
      DeeperCovered(g, root, popped, level, [], [], d - 1);
    }
  }

  /** Every function that a chain of calls leads to from the root is printed exactly once, below a caller on a shortest
      chain to it, and nothing else is printed. */
  ghost predicate ShortestChains(g: Calls, root: string, printed: seq<(string, string)>) {
    exists level: Level ::
      Tree(g, root, level, printed) && Exact(g, root, level) && forall f :: f in level <==> Called(g, root, f)
  }

  /** The search. */
  method Chain(g: Calls, root: string) returns (printed: seq<(string, string)>)
    ensures ShortestChains(g, root, printed)
  {
    hide Exact, Covered, InOrder, Tree, Closed, Pending, Searching, Paused, ShortestChains, Out;
    var seen, q := {}, [root];
    printed := [];
    ghost var level: Level, depth: seq<nat> := map[], [0];
    ghost var popped := {};
    ghost var all := set c, f | c in g && f in g[c] :: f;
    Begun(g, root);
    while q != []
      invariant seen == level.Keys <= all && |q| == |depth|
      invariant Paused(g, root, popped, level, q, depth, printed)
      decreases all - seen, |q|
    {
      Popped(g, root, popped, level, q, depth, printed);
      var n := q[0];
      ghost var d := depth[0];
      ghost var before := seen;
      seen, q, printed, level, depth := Expand(g, root, n, seen, q[1..], printed, d, popped, level, depth[1..]);
      Resumed(g, root, n, d, popped, level, q, depth, printed);
      PausedLengths(g, root, popped + {n}, level, q, depth, printed);
      popped := popped + {n};
      OutWithin(g, n, all);
      Shrinks(all, before, seen);
    }
    Finished(g, root, popped, level, printed);
  }

  lemma OutWithin(g: Calls, n: string, all: set<string>)
    requires forall c, f :: c in g && f in g[c] ==> f in all
    ensures Out(g, n) <= all
  {
  }

  lemma Shrinks(all: set<string>, before: set<string>, seen: set<string>)
    requires before <= seen <= all
    ensures before != seen ==> all - seen < all - before
  {
  }

  lemma PausedLengths(g: Calls, root: string, popped: set<string>, level: Level, q: seq<string>, depth: seq<nat>,
                      printed: seq<(string, string)>)
    requires Paused(g, root, popped, level, q, depth, printed)
    ensures |q| == |depth|
  {
  }

  lemma Finished(g: Calls, root: string, popped: set<string>, level: Level, printed: seq<(string, string)>)
    requires Paused(g, root, popped, level, [], [], printed)
    ensures ShortestChains(g, root, printed)
  {
    hide Steps, Pending, Closed;
    forall f
      ensures f in level <==> Called(g, root, f)
    {
      if Called(g, root, f) {
        var k: nat :| k >= 1 && Steps(g, root, k, f);
        AllSeen(g, root, popped, level, k);
      }
      if f in level {
        assert Distance(g, root, f, level[f]);
      }
    }
  }

  // ---------------------------------------------------------------- in the terms of the calls

  /** A chain of calls: each function is called by the one before it. */
  ghost predicate IsChain(g: Calls, p: seq<string>) {
    p != [] && forall i :: 0 <= i < |p| - 1 ==> p[i] in g && p[i + 1] in g[p[i]]
  }

  /** So many steps lead to a function exactly if a chain of so many calls does. */
  lemma {:induction false} StepsIff(g: Calls, root: string, k: nat, f: string)
    ensures Steps(g, root, k, f) <==> exists p :: IsChain(g, p) && |p| == k + 1 && p[0] == root && p[k] == f
  {
    if k == 0 {
      assert IsChain(g, [root]);
    } else {
      if Steps(g, root, k, f) {
        var w :| Steps(g, root, k - 1, w) && f in Out(g, w);
        StepsIff(g, root, k - 1, w);
        var p :| IsChain(g, p) && |p| == k && p[0] == root && p[k - 1] == w;
        assert IsChain(g, p + [f]);
      }
      if p :| IsChain(g, p) && |p| == k + 1 && p[0] == root && p[k] == f {
        var w := p[k - 1];
        assert w in g && p[k - 1 + 1] in g[w];
        assert IsChain(g, p[..k]) && |p[..k]| == k && p[..k][0] == root && p[..k][k - 1] == w;
        StepsIff(g, root, k - 1, w);
        assert Steps(g, root, k - 1, w) && f in Out(g, w);
      }
    }
  }

  /** Exactly the functions at the end of some chain of calls from the root are printed. */
  lemma CalledIff(g: Calls, root: string, f: string)
    ensures Called(g, root, f) <==> exists p :: IsChain(g, p) && |p| >= 2 && p[0] == root && p[|p| - 1] == f
  {
    hide Steps;
    if Called(g, root, f) {
      var k: nat :| k >= 1 && Steps(g, root, k, f);
      StepsIff(g, root, k, f);
    }
    if p :| IsChain(g, p) && |p| >= 2 && p[0] == root && p[|p| - 1] == f {
      StepsIff(g, root, |p| - 1, f);
    }
  }
}
