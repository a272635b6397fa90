/** The bounded traversals against the unbounded in-memory one. */
module Traversals {
  import opened Ids
  import opened Reach
  import opened Records
  import opened BlastRadius
  import opened CoversGap
  import opened SqliteBackend
  import opened Repairs

  /** The result every SQL traversal is proved to return. */
  ghost function BoundedBlast(dag: Dag, root: Id, bound: nat): seq<Id> {
    SortedIds(Within(EdgesOf(dag), {root}, bound))
  }

  /** The bound is harmless exactly when no edge leaves the last level that is searched. */
  lemma BoundedIsBlast(dag: Dag, root: Id, bound: nat)
    ensures BoundedBlast(dag, root, bound) == SortedIds(Blast(dag, root)) <==>
      Closed(EdgesOf(dag), Within(EdgesOf(dag), {root}, bound))
  {
    hide EdgesOf, Closure, Closed, Within;
    var e := EdgesOf(dag);
    BoundIsExact(e, {root}, bound);
    SortedIdsAreCanonical(Within(e, {root}, bound), Blast(dag, root));
  }

  /** Walks shorten to simple paths: with at most bound + 1 nodes the bounded traversal is the unbounded one. */
  lemma SmallGraphsAreExact(dag: Dag, root: Id, bound: nat)
    requires |dag.Keys + {root}| <= bound + 1
    ensures BoundedBlast(dag, root, bound) == SortedIds(Blast(dag, root))
  {
    hide EdgesOf, Closure, Within, Targets;
    TableEdges(dag);
    BoundSuffices(EdgesOf(dag), root, dag.Keys, bound);
  }

  // ---- A chain one node longer than the bound allows ----

  predicate Linked(chain: seq<Id>, i: int, u: Id, v: Id) {
    0 <= i < |chain| - 1 && chain[i] == u && chain[i + 1] == v
  }

  /** The edges of the graph link the listed nodes one after the other, and nothing else. */
  ghost predicate IsChain(e: Edges, chain: seq<Id>) {
    && NoDuplicates(chain)
    && forall u, v :: (u, v) in e <==> exists i :: Linked(chain, i, u, v)
  }

  lemma OnlyLink(e: Edges, chain: seq<Id>, j: nat, u: Id)
    requires IsChain(e, chain) && j < |chain| && (u, chain[j]) in e
    ensures j > 0 && u == chain[j - 1]
  {
    var i :| Linked(chain, i, u, chain[j]);
    assert i + 1 == j;
  }

  lemma HasLink(e: Edges, chain: seq<Id>, j: nat)
    requires IsChain(e, chain) && 0 < j < |chain|
    ensures (chain[j - 1], chain[j]) in e
  {
    assert Linked(chain, j - 1, chain[j - 1], chain[j]);
  }

  lemma Distinct(e: Edges, chain: seq<Id>, j: nat)
    requires IsChain(e, chain) && j < |chain|
    ensures chain[j] == chain[0] <==> j == 0
  {
  }

  lemma ChainChildren(e: Edges, chain: seq<Id>, w: set<Id>, j: nat)
    requires IsChain(e, chain) && j < |chain|
    ensures chain[j] in ChildrenOf(e, w) <==> j > 0 && chain[j - 1] in w
  {
    hide IsChain;
    var v := chain[j];
    if j > 0 && chain[j - 1] in w {
      HasLink(e, chain, j);
      assert (chain[j - 1], v).1 in ChildrenOf(e, w);
    }
    if v in ChildrenOf(e, w) {
      var p :| p in e && p.0 in w && p.1 == v;
      assert (p.0, v) in e;
      OnlyLink(e, chain, j, p.0);
    }
  }

  lemma {:induction false} ChainLevels(e: Edges, chain: seq<Id>, k: nat, j: nat)
    requires IsChain(e, chain) && j < |chain|
    ensures chain[j] in Within(e, {chain[0]}, k) <==> j <= k
    decreases k
  {
    hide IsChain, ChildrenOf;
    if k == 0 {
      Distinct(e, chain, j);
    } else {
      ChainLevels(e, chain, k - 1, j);
      ChainChildren(e, chain, Within(e, {chain[0]}, k - 1), j);
      if j > 0 { ChainLevels(e, chain, k - 1, j - 1); }
    }
  }

  /** On a chain of bound + 2 nodes the last one is missed, so the limit on the number of nodes cannot be raised. */
  lemma BoundIsTight(dag: Dag, chain: seq<Id>, bound: nat)
    requires IsChain(EdgesOf(dag), chain) && |chain| == bound + 2
    ensures BoundedBlast(dag, chain[0], bound) != SortedIds(Blast(dag, chain[0]))
  {
    hide EdgesOf, Closure, Within, SortedIds, IsChain;
    var e := EdgesOf(dag);
    ChainLevels(e, chain, bound, bound);
    ChainLevels(e, chain, bound, bound + 1);
    HasLink(e, chain, bound + 1);
    BoundedIsBlast(dag, chain[0], bound);
  }

  // ---- Affected compactions ----

  /** The compactions the SQL backends judge: a CARRIED row whose parent is in the closure. */
  ghost predicate JudgedBySql(dag: Dag, c: set<Id>, n: Id) {
    n in dag && exists u :: u in c && u in ParentSet(dag[n]) && RecordedClass(dag[n], u) == Carried
  }

  lemma PairedIsUniform(p: Payload, u: Id)
    requires PairedPayload(p) && u in ParentSet(p)
    ensures RecordedClass(p, u) == Carried <==> IsCarried(p)
  {
    CarriedIsRecorded(p, u);
    if IsCarried(p) {
      FirstClassFinds(p.parents, u);
    }
  }

  /**
   * When compactions carry exactly what they cover, both ways of finding the affected ones agree on every
   * node but the root, which SQL lists too when it sits on a cycle.
   */
  lemma AffectedAgree(st: Store, root: Id, n: Id)
    requires Filed(st) && Paired(st.dag)
    ensures n in BlastSearch(st, root).carried <==> n != root && JudgedBySql(st.dag, Blast(st.dag, root), n)
  {
    hide SearchFrom, PairedPayload, IsCarried, RecordedClass, Closure;
    var e := EdgesOf(st.dag);
    AffectedMeaning(st, root, n);
    ClosureIsClosed(e, {root});
    if n in Blast(st.dag, root) && n != root && n in st.dag && IsCarried(st.dag[n]) {
      ClosureHasSource(e, root, n);
      var u :| u in Closure(e, {root}) && (u, n) in e;
      EdgeMeaning(st.dag, u, n);
      PairedSource(st.dag[n], u);
      CarriedIsParent(st.dag[n], u);
      PairedIsUniform(st.dag[n], u);
    }
    if JudgedBySql(st.dag, Blast(st.dag, root), n) {
      var u :| u in Blast(st.dag, root) && u in ParentSet(st.dag[n]) && RecordedClass(st.dag[n], u) == Carried;
      EdgeMeaning(st.dag, u, n);
      PairedIsUniform(st.dag[n], u);
    }
  }

  lemma CarriedIsParent(p: Payload, u: Id)
    requires CarriedFrom(p, u)
    ensures u in ParentSet(p)
  {
  }

  // ---- The interval gap in SQL ----

  function Reversed(e: Edges): Edges {
    set p | p in e :: (p.1, p.0)
  }

  lemma {:induction false} WalkReversed(e: Edges, roots: set<Id>, a: Id, p: seq<Id>, c: Id)
    requires Walk(e, a, p, c) && c in roots
    ensures a in Closure(Reversed(e), roots)
    decreases |p|
  {
    hide Closure;
    ClosureIsClosed(Reversed(e), roots);
    if p != [] {
      WalkReversed(e, roots, p[0], p[1..], c);
      assert ((a, p[0]).1, (a, p[0]).0) in Reversed(e);
    }
  }

  /** The queries start from the committed covers and follow every row of the edge table, COVERS rows too. */
  ghost function GapQuery(dag: Dag, covers: set<Id>): set<Id> {
    var seeds := covers * dag.Keys;
    Closure(EdgesOf(dag), seeds) * Closure(Reversed(EdgesOf(dag)), seeds) - seeds
  }

  lemma ReversedMeaning(e: Edges, roots: set<Id>, x: Id)
    ensures x in Closure(Reversed(e), roots) <==> exists c :: c in roots && Reaches(e, x, c)
  {
    if c :| c in roots && Reaches(e, x, c) {
      var p :| Walk(e, x, p, c);
      WalkReversed(e, roots, x, p, c);
    }
    if x in Closure(Reversed(e), roots) {
      var a :| a in roots && Reaches(Reversed(e), a, x);
      var p :| Walk(Reversed(e), a, p, x);
      WalkBack(e, a, p, x);
    }
  }

  lemma {:induction false} WalkBack(e: Edges, a: Id, p: seq<Id>, x: Id)
    requires Walk(Reversed(e), a, p, x)
    ensures Reaches(e, x, a)
    decreases |p|
  {
    if p == [] {
      ReachesSelf(e, a);
    } else {
      WalkBack(e, p[0], p[1..], x);
      assert (p[0], a) in e;
      ReachesEdge(e, p[0], a);
      ReachesTransitive(e, x, p[0], a);
    }
  }

  /** On any graph SQL finds the nodes that lie, over edges of either kind, between two committed covers. */
  lemma GapQueryMeaning(dag: Dag, covers: set<Id>, x: Id)
    ensures var (e, seeds) := (EdgesOf(dag), covers * dag.Keys);
            x in GapQuery(dag, covers) <==>
              x in dag && x !in covers && ReachedFrom(e, seeds, x) && exists c :: c in seeds && Reaches(e, x, c)
  {
    hide EdgesOf, Closure;
    var e, seeds := EdgesOf(dag), covers * dag.Keys;
    ClosureContainsReached(e, seeds, x);
    ReversedMeaning(e, seeds, x);
    EdgesStayCommitted(dag);
    ClosureIsLeast(e, seeds, dag.Keys);
  }

  /** For committed covers SQL misses nothing of the in-memory gap, and nothing more when every edge is a parent edge. */
  lemma GapQueriesAgree(dag: Dag, covers: set<Id>)
    requires covers <= dag.Keys
    ensures Gap(dag, covers) <= GapQuery(dag, covers)
    ensures EdgesOf(dag) == ParentEdges(dag) ==> GapQuery(dag, covers) == Gap(dag, covers)
  {
    hide EdgesOf, ParentEdges, Closure, GapQuery;
    var e := EdgesOf(dag);
    assert covers * dag.Keys == covers;
    ParentEdgesAreEdges(dag);
    forall x ensures x in Gap(dag, covers) ==> x in GapQuery(dag, covers) {
      GapQueryMeaning(dag, covers, x);
      if x in Gap(dag, covers) {
        var a, c :| a in covers && Reaches(ParentEdges(dag), a, x) && c in covers && Reaches(ParentEdges(dag), x, c);
        ReachesMonotone(ParentEdges(dag), e, a, x);
        ReachesMonotone(ParentEdges(dag), e, x, c);
      }
    }
    if e == ParentEdges(dag) {
      forall x | x in GapQuery(dag, covers) ensures x in Gap(dag, covers) {
        GapQueryMeaning(dag, covers, x);
      }
    }
  }

  lemma ReachesMonotone(e: Edges, f: Edges, a: Id, b: Id)
    requires e <= f && Reaches(e, a, b)
    ensures Reaches(f, a, b)
  {
    var p :| Walk(e, a, p, b);
    WalkMonotone(e, f, a, p, b);
  }

  /** A node that only covers one cover and is a parent of another is found by SQL and not in memory. */
  lemma CoversRowWidensGap(dag: Dag, u: Id, x: Id, w: Id)
    requires u in dag && x in dag && w in dag && x !in {u, w}
    requires dag[x].parents == [] && u in dag[x].covers && x in ParentSet(dag[w])
    ensures x in GapQuery(dag, {u, w}) && x !in Gap(dag, {u, w})
  {
    hide EdgesOf, Closure, GapQuery, ParentEdges;
    var covers := {u, w};
    assert covers * dag.Keys == covers;
    GapQueryMeaning(dag, covers, x);
    EdgeMeaning(dag, u, x);
    EdgeMeaning(dag, x, w);
    ReachesEdge(EdgesOf(dag), u, x);
    ReachesEdge(EdgesOf(dag), x, w);
    if a :| a in covers && Reaches(ParentEdges(dag), a, x) {
      var p :| Walk(ParentEdges(dag), a, p, x);
      var v := WalkSplitLast(ParentEdges(dag), a, p, x);
      EdgeMeaning(dag, v, x);
    }
  }

  lemma EdgesStayCommitted(dag: Dag)
    ensures Closed(EdgesOf(dag), dag.Keys)
  {
  }

  lemma ParentEdgesAreEdges(dag: Dag)
    ensures ParentEdges(dag) <= EdgesOf(dag)
  {
  }

  lemma {:induction false} WalkMonotone(e: Edges, f: Edges, a: Id, p: seq<Id>, b: Id)
    requires e <= f && Walk(e, a, p, b)
    ensures Walk(f, a, p, b)
    decreases |p|
  {
    if p != [] { WalkMonotone(e, f, p[0], p[1..], b); }
  }
}
