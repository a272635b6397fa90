/** The interval gap of a compaction: what lies between covered nodes without being covered. */
module CoversGap {
  import opened Ids
  import opened Reach
  import opened Records
  import opened BlastRadius

  /** x is uncovered and lies on a parent-edge path from one covered node to another. */
  ghost predicate Between(dag: Dag, covers: set<Id>, x: Id) {
    && x !in covers
    && ReachedFrom(ParentEdges(dag), covers, x)
    && ReachesInto(dag, x, covers)
  }

  ghost predicate ReachesInto(dag: Dag, x: Id, covers: set<Id>) {
    exists c :: c in covers && Reaches(ParentEdges(dag), x, c)
  }

  ghost function Gap(dag: Dag, covers: set<Id>): set<Id> {
    set x | x in dag && Between(dag, covers, x)
  }

  // ---- The gap completes the covers to an interval ----

  /** No committed node outside s lies on a path between two members of s. */
  ghost predicate Convex(dag: Dag, s: set<Id>) {
    forall x :: x in dag && ReachedFrom(ParentEdges(dag), s, x) && ReachesInto(dag, x, s) ==> x in s
  }

  lemma ConvexHasNoGap(dag: Dag, s: set<Id>)
    ensures Gap(dag, s) == {} <==> Convex(dag, s)
  {
    if Gap(dag, s) == {} {
      forall x | x in dag && ReachedFrom(ParentEdges(dag), s, x) && ReachesInto(dag, x, s) ensures x in s {
        assert x !in Gap(dag, s);
      }
    }
  }

  /** Recording the gap among the covers leaves no gap. */
  lemma GapCloses(dag: Dag, covers: set<Id>)
    ensures Gap(dag, covers + Gap(dag, covers)) == {}
  {
    var e := ParentEdges(dag);
    var s := covers + Gap(dag, covers);
    hide ParentEdges, Reaches;
    forall x | x in dag && ReachedFrom(e, s, x) && ReachesInto(dag, x, s) ensures x in s {
      var a :| a in s && Reaches(e, a, x);
      if a !in covers {
        var c :| c in covers && Reaches(e, c, a);
        ReachesTransitive(e, c, a, x);
      }
      var b :| b in s && Reaches(e, x, b);
      if b !in covers {
        var c :| c in covers && Reaches(e, b, c);
        ReachesTransitive(e, x, b, c);
      }
    }
    ConvexHasNoGap(dag, s);
  }

  /** Covers with their gap are the least interval that contains the covers. */
  lemma GapIsLeast(dag: Dag, covers: set<Id>, t: set<Id>)
    requires covers <= t && Convex(dag, t)
    ensures covers + Gap(dag, covers) <= t
  {
    forall x | x in Gap(dag, covers) ensures x in t {
      var a :| a in covers && Reaches(ParentEdges(dag), a, x);
      var c :| c in covers && Reaches(ParentEdges(dag), x, c);
      assert a in t && c in t;
    }
  }

  // ---- The two worklists ----

  /** Parent links between committed nodes, from the child upwards. */
  function UpEdges(dag: Dag): Edges {
    set n, u | n in dag && u in ParentSet(dag[n]) && u in dag :: (n, u)
  }

  lemma UpEdgeMeaning(dag: Dag, n: Id, u: Id)
    ensures (n, u) in UpEdges(dag) <==> u in dag && (u, n) in ParentEdges(dag)
  {
    EdgeMeaning(dag, u, n);
  }

  lemma {:induction false} WalkClimbs(dag: Dag, covers: set<Id>, a: Id, p: seq<Id>, c: Id)
    requires Walk(ParentEdges(dag), a, p, c) && a in dag && c in covers
    ensures a in Closure(UpEdges(dag), covers)
    decreases |p|
  {
    hide Closure;
    ClosureIsClosed(UpEdges(dag), covers);
    if p != [] {
      EdgeMeaning(dag, a, p[0]);
      UpEdgeMeaning(dag, p[0], a);
      WalkClimbs(dag, covers, p[0], p[1..], c);
    }
  }

  /** Climbing parent links from the covers finds the committed nodes that reach a cover. */
  lemma ClimbMeaning(dag: Dag, covers: set<Id>, x: Id)
    requires x in dag
    ensures x in Closure(UpEdges(dag), covers) <==> ReachesInto(dag, x, covers)
  {
    var e := ParentEdges(dag);
    if ReachesInto(dag, x, covers) {
      var c :| c in covers && Reaches(e, x, c);
      var p :| Walk(e, x, p, c);
      WalkClimbs(dag, covers, x, p, c);
    }
    var into := covers + set y | y in dag && ReachesInto(dag, y, covers);
    forall u, v | u in into && (u, v) in UpEdges(dag) ensures v in into {
      UpEdgeMeaning(dag, u, v);
      if u in covers { ReachesSelf(e, u); }
      var c :| c in covers && Reaches(e, u, c);
      ReachesEdge(e, v, u);
      ReachesTransitive(e, v, u, c);
    }
    ClosureIsLeast(UpEdges(dag), covers, into);
    if x in covers { ReachesSelf(e, x); }
  }

  lemma GapIsIntersection(dag: Dag, covers: set<Id>, down: set<Id>, up: set<Id>)
    requires down == Closure(ParentEdges(dag), covers) && up == Closure(UpEdges(dag), covers)
    ensures down * up - covers == Gap(dag, covers)
  {
    forall x ensures x in down * up - covers <==> x in Gap(dag, covers) {
      ClosureContainsReached(ParentEdges(dag), covers, x);
      if x in dag {
        ClimbMeaning(dag, covers, x);
      } else {
        UpClosureIsCommitted(dag, covers, x);
      }
    }
  }

  lemma UpClosureIsCommitted(dag: Dag, covers: set<Id>, x: Id)
    ensures x in Closure(UpEdges(dag), covers) ==> x in covers || x in dag
  {
    ClosureIsLeast(UpEdges(dag), covers, covers + dag.Keys);
  }

  /** A worklist state: everything seen is reachable, and only queued nodes still have unseen successors. */
  ghost predicate Working(e: Edges, roots: set<Id>, seen: set<Id>, queue: seq<Id>) {
    && roots <= seen <= Closure(e, roots)
    && Elements(queue) <= seen
    && forall u, v :: u in seen && u !in queue && (u, v) in e ==> v in seen
  }

  lemma WorkStarts(e: Edges, queue: seq<Id>)
    ensures Working(e, Elements(queue), Elements(queue), queue)
  {
    ClosureIsClosed(e, Elements(queue));
  }

  lemma WorkEnds(e: Edges, roots: set<Id>, seen: set<Id>)
    requires Working(e, roots, seen, [])
    ensures seen == Closure(e, roots)
  {
    ClosureIsLeast(e, roots, seen);
  }

  lemma WorkStep(e: Edges, roots: set<Id>, seen: set<Id>, queue: seq<Id>, found: seq<Id>)
    requires Working(e, roots, seen, queue) && queue != []
    requires Elements(found) == Children(e, queue[0]) - seen
    ensures Working(e, roots, seen + Elements(found), queue[1..] + found)
  {
    var u := queue[0];
    ClosureIsClosed(e, roots);
    forall v | v in Elements(found) ensures v in Closure(e, roots) {
      assert (u, v) in e && u in Elements(queue);
    }
    assert forall x :: x in queue ==> x == u || x in queue[1..];
    forall a, v | a in seen + Elements(found) && a !in queue[1..] + found && (a, v) in e
      ensures v in seen + Elements(found)
    {
      if a == u { assert (u, v).1 == v; }
    }
  }

  /** Scan the whole graph dictionary for the unseen children of `current`. */
  method ScanChildren(dag: Dag, order: seq<Id>, current: Id, seen0: set<Id>) returns (found: seq<Id>)
    requires forall n :: n in order <==> n in dag
    ensures Elements(found) == Children(ParentEdges(dag), current) - seen0
  {
    found := [];
    var seen := seen0;
    for i := 0 to |order|
      invariant seen == seen0 + Elements(found)
      invariant forall n :: n in found <==> n in order[..i] && n !in seen0 && current in ParentSet(dag[n])
    {
      var n := order[i];
      assert order[..i + 1] == order[..i] + [n] && n in order;
      if current in ParentSet(dag[n]) && n !in seen {
        seen := seen + {n};
        found := found + [n];
      }
    }
    assert order[..|order|] == order;
    forall n ensures n in Elements(found) <==> n in Children(ParentEdges(dag), current) - seen0 {
      EdgeMeaning(dag, current, n);
      assert (current, n).1 == n;
    }
  }

  /** The unseen committed parents of `current`. */
  method ScanParents(dag: Dag, current: Id, seen0: set<Id>) returns (found: seq<Id>)
    ensures Elements(found) == Children(UpEdges(dag), current) - seen0
  {
    found := [];
    var parents := if current in dag then dag[current].parents else [];
    var seen := seen0;
    for i := 0 to |parents|
      invariant seen == seen0 + Elements(found)
      invariant forall u :: u in found <==> u in dag && u !in seen0 && exists c :: c in parents[..i] && c.parent == u
    {
      var u := parents[i].parent;
      assert parents[..i + 1] == parents[..i] + [parents[i]];
      if u in dag && u !in seen {
        seen := seen + {u};
        found := found + [u];
      }
    }
    assert parents[..|parents|] == parents;
    forall u ensures u in Elements(found) <==> u in Children(UpEdges(dag), current) - seen0 {
      UpEdgeMeaning(dag, current, u);
      EdgeMeaning(dag, u, current);
      assert (current, u).1 == u;
    }
  }

  lemma ScanProgress(dag: Dag, seen: set<Id>, found: seq<Id>)
    requires Elements(found) <= dag.Keys - seen
    ensures Unseen(dag, seen + Elements(found)) < Unseen(dag, seen) || found == []
  {
    if found != [] {
      SmallerRest(dag.Keys - seen, dag.Keys - (seen + Elements(found)), found[0]);
    }
  }

  lemma ChildrenAreCommitted(dag: Dag, u: Id)
    ensures Children(ParentEdges(dag), u) <= dag.Keys
    ensures Children(UpEdges(dag), u) <= dag.Keys
  {
  }

  method Descend(dag: Dag, order: seq<Id>, covers: seq<Id>) returns (seen: set<Id>)
    requires forall n :: n in order <==> n in dag
    ensures seen == Closure(ParentEdges(dag), Elements(covers))
  {
    hide Working, Closure, ParentEdges, Children, Elements;
    ghost var e := ParentEdges(dag);
    seen := Elements(covers);
    var queue := covers;
    WorkStarts(e, covers);
    while queue != []
      invariant Working(e, Elements(covers), seen, queue)
      decreases Unseen(dag, seen), |queue|
    {
      var found := ScanChildren(dag, order, queue[0], seen);
      ChildrenAreCommitted(dag, queue[0]);
      ScanProgress(dag, seen, found);
      WorkStep(e, Elements(covers), seen, queue, found);
      NothingFound(seen, found);
      seen, queue := seen + Elements(found), queue[1..] + found;
    }
    WorkEnds(e, Elements(covers), seen);
  }

  method Climb(dag: Dag, covers: seq<Id>) returns (seen: set<Id>)
    ensures seen == Closure(UpEdges(dag), Elements(covers))
  {
    hide Working, Closure, UpEdges, Children, Elements;
    ghost var e := UpEdges(dag);
    seen := Elements(covers);
    var queue := covers;
    WorkStarts(e, covers);
    while queue != []
      invariant Working(e, Elements(covers), seen, queue)
      decreases Unseen(dag, seen), |queue|
    {
      var found := ScanParents(dag, queue[0], seen);
      ChildrenAreCommitted(dag, queue[0]);
      ScanProgress(dag, seen, found);
      WorkStep(e, Elements(covers), seen, queue, found);
      NothingFound(seen, found);
      seen, queue := seen + Elements(found), queue[1..] + found;
    }
    WorkEnds(e, Elements(covers), seen);
  }

  lemma NothingFound(seen: set<Id>, found: seq<Id>)
    ensures found == [] ==> seen + Elements(found) == seen
  {
  }

  /** Both worklists terminate on any graph, and what they have in common is the gap. */
  method ComputeCoversIntervalGap(dag: Dag, order: seq<Id>, covers: seq<Id>) returns (gap: seq<Id>)
    requires forall n :: n in order <==> n in dag
    ensures gap == SortedIds(Gap(dag, Elements(covers)))
  {
    hide Closure, UpEdges, ParentEdges, Gap;
    if covers == [] {
      NoCoversNoGap(dag);
      return [];
    }
    var down := Descend(dag, order, covers);
    var up := Climb(dag, covers);
    GapIsIntersection(dag, Elements(covers), down, up);
    gap := SortedIds(down * up - Elements(covers));
  }

  lemma NoCoversNoGap(dag: Dag)
    ensures SortedIds(Gap(dag, Elements([]))) == []
  {
    assert Gap(dag, Elements([])) == {};
  }
}
