/** Directed reachability: walks, closures and the level sets of a bounded traversal. */
module Reach {
  import opened Ids

  /** Edges as (source, child) pairs: taint flows from the source to the child. */
  type Edges = set<(Id, Id)>

  function Children(e: Edges, u: Id): set<Id> {
    set p | p in e && p.0 == u :: p.1
  }

  function ChildrenOf(e: Edges, s: set<Id>): set<Id> {
    set p | p in e && p.0 in s :: p.1
  }

  function Targets(e: Edges): set<Id> {
    set p | p in e :: p.1
  }

  /** `p` lists the nodes visited after `a` on a walk that ends in `b`; the walk has |p| edges. */
  ghost predicate Walk(e: Edges, a: Id, p: seq<Id>, b: Id)
    decreases |p|
  {
    if p == [] then a == b else (a, p[0]) in e && Walk(e, p[0], p[1..], b)
  }

  ghost predicate Reaches(e: Edges, a: Id, b: Id) {
    exists p :: Walk(e, a, p, b)
  }

  ghost predicate ReachedFrom(e: Edges, roots: set<Id>, b: Id) {
    exists a :: a in roots && Reaches(e, a, b)
  }

  ghost predicate Closed(e: Edges, s: set<Id>) {
    forall u, v :: u in s && (u, v) in e ==> v in s
  }

  /** Everything reachable from the roots over any number of edges. */
  ghost function Closure(e: Edges, roots: set<Id>): set<Id> {
    set b | b in roots + Targets(e) && ReachedFrom(e, roots, b)
  }

  // ---- Walks ----

  lemma {:induction false} WalkJoin(e: Edges, a: Id, p: seq<Id>, b: Id, q: seq<Id>, c: Id)
    requires Walk(e, a, p, b) && Walk(e, b, q, c)
    ensures Walk(e, a, p + q, c)
    decreases |p|
  {
    if p == [] {
      assert p + q == q;
    } else {
      WalkJoin(e, p[0], p[1..], b, q, c);
      assert (p + q)[1..] == p[1..] + q;
    }
  }

  lemma {:induction false} WalkSplitLast(e: Edges, a: Id, p: seq<Id>, b: Id) returns (u: Id)
    requires Walk(e, a, p, b) && p != []
    ensures Walk(e, a, p[..|p| - 1], u) && (u, b) in e
    decreases |p|
  {
    if |p| == 1 {
      u := a;
    } else {
      u := WalkSplitLast(e, p[0], p[1..], b);
      assert p[1..][..|p| - 2] == p[..|p| - 1][1..];
    }
  }

  lemma {:induction false} WalkStaysIn(e: Edges, s: set<Id>, a: Id, p: seq<Id>, b: Id)
    requires Walk(e, a, p, b) && Closed(e, s) && a in s
    ensures b in s
    decreases |p|
  {
    if p != [] {
      WalkStaysIn(e, s, p[0], p[1..], b);
    }
  }

  lemma ReachesTransitive(e: Edges, a: Id, b: Id, c: Id)
    requires Reaches(e, a, b) && Reaches(e, b, c)
    ensures Reaches(e, a, c)
  {
    var p :| Walk(e, a, p, b);
    var q :| Walk(e, b, q, c);
    WalkJoin(e, a, p, b, q, c);
  }

  lemma ReachesEdge(e: Edges, a: Id, b: Id)
    requires (a, b) in e
    ensures Reaches(e, a, b)
  {
    assert Walk(e, b, [b][1..], b);
    assert Walk(e, a, [b], b);
  }

  lemma ReachesSelf(e: Edges, a: Id)
    ensures Reaches(e, a, a)
  {
    assert Walk(e, a, [], a);
  }

  // ---- The closure is the least closed set above the roots ----

  lemma ClosureContainsReached(e: Edges, roots: set<Id>, b: Id)
    ensures b in Closure(e, roots) <==> ReachedFrom(e, roots, b)
  {
    if ReachedFrom(e, roots, b) {
      var a :| a in roots && Reaches(e, a, b);
      var p :| Walk(e, a, p, b);
      if p != [] {
        var u := WalkSplitLast(e, a, p, b);
        assert b in Targets(e);
      }
    }
  }

  lemma ClosureIsClosed(e: Edges, roots: set<Id>)
    ensures roots <= Closure(e, roots) && Closed(e, Closure(e, roots))
  {
    forall r | r in roots ensures r in Closure(e, roots) {
      ReachesSelf(e, r);
    }
    forall u, v | u in Closure(e, roots) && (u, v) in e ensures v in Closure(e, roots) {
      var a :| a in roots && Reaches(e, a, u);
      ReachesEdge(e, u, v);
      ReachesTransitive(e, a, u, v);
      ClosureContainsReached(e, roots, v);
    }
  }

  lemma ClosureIsLeast(e: Edges, roots: set<Id>, s: set<Id>)
    requires roots <= s && Closed(e, s)
    ensures Closure(e, roots) <= s
  {
    forall b | b in Closure(e, roots) ensures b in s {
      var a :| a in roots && Reaches(e, a, b);
      var p :| Walk(e, a, p, b);
      WalkStaysIn(e, s, a, p, b);
    }
  }

  /** A set above the roots is the closure exactly when it is closed and contained in the closure. */
  lemma ClosureIsUnique(e: Edges, roots: set<Id>, s: set<Id>)
    requires roots <= s <= Closure(e, roots)
    ensures Closed(e, s) <==> s == Closure(e, roots)
  {
    ClosureIsClosed(e, roots);
    if Closed(e, s) { ClosureIsLeast(e, roots, s); }
  }

  lemma ClosureMonotone(e: Edges, f: Edges, r: set<Id>, q: set<Id>)
    requires e <= f && r <= q
    ensures Closure(e, r) <= Closure(f, q)
  {
    ClosureIsClosed(f, q);
    ClosureIsLeast(e, r, Closure(f, q));
  }

  lemma ClosureUnion(e: Edges, r: set<Id>, q: set<Id>)
    ensures Closure(e, r + q) == Closure(e, r) + Closure(e, q)
  {
    ClosureIsClosed(e, r);
    ClosureIsClosed(e, q);
    ClosureIsLeast(e, r + q, Closure(e, r) + Closure(e, q));
    ClosureMonotone(e, e, r, r + q);
    ClosureMonotone(e, e, q, r + q);
  }

  lemma ClosureOfClosed(e: Edges, s: set<Id>)
    ensures Closed(e, s) <==> Closure(e, s) == s
  {
    ClosureIsClosed(e, s);
    ClosureIsUnique(e, s, s);
  }

  lemma ClosureHasSource(e: Edges, root: Id, n: Id)
    requires n in Closure(e, {root}) && n != root
    ensures exists u :: u in Closure(e, {root}) && (u, n) in e
  {
    var p :| Walk(e, root, p, n);
    var u := WalkSplitLast(e, root, p, n);
    assert Reaches(e, root, u);
    ClosureContainsReached(e, {root}, u);
  }

  // ---- Level sets ----

  /** What a traversal that stops after k levels has seen. */
  ghost function Within(e: Edges, roots: set<Id>, k: nat): set<Id> {
    if k == 0 then roots else Within(e, roots, k - 1) + ChildrenOf(e, Within(e, roots, k - 1))
  }

  lemma WalkStep(e: Edges, a: Id, p: seq<Id>, u: Id, b: Id)
    requires Walk(e, a, p, u) && (u, b) in e
    ensures Walk(e, a, p + [b], b)
  {
    assert Walk(e, b, [b][1..], b);
    WalkJoin(e, a, p, u, [b], b);
  }

  lemma {:induction false} WithinHasShortWalk(e: Edges, roots: set<Id>, k: nat, b: Id) returns (a: Id, p: seq<Id>)
    requires b in Within(e, roots, k)
    ensures a in roots && Walk(e, a, p, b) && |p| <= k
  {
    if b in roots {
      a, p := b, [];
    } else if b in Within(e, roots, k - 1) {
      a, p := WithinHasShortWalk(e, roots, k - 1, b);
    } else {
      var u :| u in Within(e, roots, k - 1) && (u, b) in e;
      a, p := WithinHasShortWalk(e, roots, k - 1, u);
      WalkStep(e, a, p, u, b);
      p := p + [b];
    }
  }

  lemma {:induction false} ShortWalkIsWithin(e: Edges, roots: set<Id>, k: nat, a: Id, p: seq<Id>, b: Id)
    requires a in roots && Walk(e, a, p, b) && |p| <= k
    ensures b in Within(e, roots, k)
    decreases k
  {
    if p == [] {
      WithinGrows(e, roots, 0, k);
    } else {
      var u := WalkSplitLast(e, a, p, b);
      ShortWalkIsWithin(e, roots, k - 1, a, p[..|p| - 1], u);
      assert (u, b).1 == b;
    }
  }

  /** Level k holds exactly the nodes reached by a walk of at most k edges. */
  lemma WithinAreShortWalks(e: Edges, roots: set<Id>, k: nat, b: Id)
    ensures b in Within(e, roots, k) <==> exists a, p :: a in roots && Walk(e, a, p, b) && |p| <= k
  {
    if b in Within(e, roots, k) {
      var a, p := WithinHasShortWalk(e, roots, k, b);
    }
    if a, p :| a in roots && Walk(e, a, p, b) && |p| <= k {
      ShortWalkIsWithin(e, roots, k, a, p, b);
    }
  }

  lemma {:induction false} WithinGrows(e: Edges, roots: set<Id>, j: nat, k: nat)
    requires j <= k
    ensures Within(e, roots, j) <= Within(e, roots, k)
  {
    if j < k { WithinGrows(e, roots, j, k - 1); }
  }

  lemma ChildrenStayIn(e: Edges, s: set<Id>, t: set<Id>)
    requires s <= t && Closed(e, t)
    ensures s + ChildrenOf(e, s) <= t
  {
    forall v | v in ChildrenOf(e, s) ensures v in t {
      var p :| p in e && p.0 in s && p.1 == v;
      assert (p.0, v) in e;
    }
  }

  lemma {:induction false} WithinInsideClosure(e: Edges, roots: set<Id>, k: nat)
    ensures roots <= Within(e, roots, k) <= Closure(e, roots)
  {
    hide Closure, Targets;
    ClosureIsClosed(e, roots);
    if k > 0 {
      WithinInsideClosure(e, roots, k - 1);
      ChildrenStayIn(e, Within(e, roots, k - 1), Closure(e, roots));
    }
  }

  /** The depth bound loses nothing exactly when no edge leaves the last level. */
  lemma BoundIsExact(e: Edges, roots: set<Id>, k: nat)
    ensures Within(e, roots, k) == Closure(e, roots) <==> Closed(e, Within(e, roots, k))
  {
    WithinInsideClosure(e, roots, k);
    ClosureIsUnique(e, roots, Within(e, roots, k));
  }

  lemma {:induction false} ClosedLevelStops(e: Edges, roots: set<Id>, j: nat, k: nat)
    requires j <= k && Closed(e, Within(e, roots, j))
    ensures Within(e, roots, k) == Within(e, roots, j)
  {
    hide Closed, ChildrenOf;
    if j < k {
      ClosedLevelStops(e, roots, j, k - 1);
      ChildrenStayIn(e, Within(e, roots, j), Within(e, roots, j));
    }
  }

  /** An open set misses one of its children. */
  lemma OpenLevel(e: Edges, w: set<Id>) returns (v: Id)
    requires !Closed(e, w)
    ensures v in ChildrenOf(e, w) && v !in w
  {
    var a, b :| a in w && (a, b) in e && b !in w;
    v := b;
    assert (a, b).1 == v;
  }

  /** Until it is closed, every level adds at least one node. */
  lemma {:induction false} LevelsGrowUntilClosed(e: Edges, roots: set<Id>, k: nat)
    requires roots != {}
    ensures Closed(e, Within(e, roots, k)) || |Within(e, roots, k)| >= k + |roots|
  {
    hide Closed, ChildrenOf;
    if k > 0 {
      LevelsGrowUntilClosed(e, roots, k - 1);
      var w := Within(e, roots, k - 1);
      if Closed(e, w) {
        ClosedLevelStops(e, roots, k - 1, k);
      } else {
        var v := OpenLevel(e, w);
        SubsetSize(w + {v}, Within(e, roots, k));
      }
    }
  }

  lemma {:induction false} SubsetSize<T>(s: set<T>, t: set<T>)
    requires s <= t
    ensures |s| <= |t|
    ensures |s| == |t| ==> s == t
  {
    if s != {} {
      var x :| x in s;
      SubsetSize(s - {x}, t - {x});
    }
  }

  /** Walks shorten: with at most k + 1 nodes in play the bound k cuts nothing off. */
  lemma BoundSuffices(e: Edges, root: Id, nodes: set<Id>, k: nat)
    requires Targets(e) <= nodes
    requires |nodes + {root}| <= k + 1
    ensures Within(e, {root}, k) == Closure(e, {root})
  {
    LevelsGrowUntilClosed(e, {root}, k);
    var w := Within(e, {root}, k);
    WithinInsideClosure(e, {root}, k);
    assert w <= nodes + {root};
    SubsetSize(w, nodes + {root});
    assert w == nodes + {root} ==> Closed(e, w) by {
      assert forall u, v :: (u, v) in e ==> (u, v).1 in Targets(e);
    }
    BoundIsExact(e, {root}, k);
  }
}
