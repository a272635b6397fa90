/** The recovery adapter derives the admissible frontier a second time, over parent edges only. */
module Adapter {
  import opened Ids
  import opened Reach
  import opened Records
  import opened BlastRadius
  import opened CoversGap
  import opened Gateway
  import opened Containment

  // ---- Sorted lists with repetitions ----

  predicate Ordered(s: seq<Id>) {
    forall i, j :: 0 <= i < j < |s| ==> Leq(s[i], s[j])
  }

  function Insert(x: Id, s: seq<Id>): (r: seq<Id>)
    requires Ordered(s)
    ensures Ordered(r) && multiset(r) == multiset(s) + multiset{x}
    ensures forall y :: y in r <==> y == x || y in s
  {
    if s == [] then [x]
    else if Leq(x, s[0]) then
      InFront(x, s);
      [x] + s
    else
      LeqTotal(x, s[0]);
      var rest := Insert(x, s[1..]);
      assert s == [s[0]] + s[1..];
      assert forall y :: y in s[1..] ==> Leq(s[0], y);
      Prepend(s[0], rest);
      [s[0]] + rest
  }

  lemma InFront(x: Id, s: seq<Id>)
    requires Ordered(s) && s != [] && Leq(x, s[0])
    ensures Ordered([x] + s)
  {
    forall y | y in s ensures Leq(x, y) {
      var i :| 0 <= i < |s| && s[i] == y;
      if i > 0 { LeqTransitive(x, s[0], y); }
    }
    Prepend(x, s);
  }

  lemma Prepend(x: Id, s: seq<Id>)
    requires Ordered(s) && forall y :: y in s ==> Leq(x, y)
    ensures Ordered([x] + s)
  {
    var r := [x] + s;
    forall i, j | 0 <= i < j < |r| ensures Leq(r[i], r[j]) {
      assert r[j] == s[j - 1] && r[j] in s;
      if i > 0 { assert r[i] == s[i - 1]; }
    }
  }

  function SortedList(s: seq<Id>): (r: seq<Id>)
    ensures Ordered(r) && multiset(r) == multiset(s)
  {
    if s == [] then [] else
      assert s == [s[0]] + s[1..];
      Insert(s[0], SortedList(s[1..]))
  }

  lemma HeadIsLeast(a: seq<Id>, x: Id)
    requires Ordered(a) && x in multiset(a)
    ensures a != [] && Leq(a[0], x) && Ordered(a[1..])
    ensures multiset(a) == multiset{a[0]} + multiset(a[1..])
  {
    hide Leq;
    assert a == [a[0]] + a[1..];
    LeqTotal(a[0], a[0]);
  }

  /** An ordered list is determined by what it holds and how often. */
  lemma {:induction false} OrderedIsCanonical(a: seq<Id>, b: seq<Id>)
    requires Ordered(a) && Ordered(b) && multiset(a) == multiset(b)
    ensures a == b
  {
    hide Leq, Ordered;
    if a == [] || b == [] {
      assert |multiset(a)| == |a| && |multiset(b)| == |b|;
    } else {
      assert a[0] in multiset(a) && b[0] in multiset(b);
      HeadIsLeast(a, b[0]);
      HeadIsLeast(b, a[0]);
      LeqAntisymmetric(a[0], b[0]);
      assert multiset(a[1..]) == multiset(a) - multiset{a[0]};
      assert multiset(b[1..]) == multiset(b) - multiset{b[0]};
      OrderedIsCanonical(a[1..], b[1..]);
      assert a == [a[0]] + a[1..] && b == [b[0]] + b[1..];
    }
  }

  // ---- The adapter's own search and comparison ----

  method ComputeBlastRadius(dag: Dag, order: seq<Id>, root: Id) returns (c: seq<Id>)
    requires forall n :: n in order <==> n in dag
    ensures c == SortedIds(ParentClosure(dag, root))
  {
    var seen := Descend(dag, order, [root]);
    assert Elements([root]) == {root};
    c := SortedIds(seen);
  }

  /** The adapter answers exactly when its own frontier and the requested one are the same list up to order. */
  method Reconstruct(dag: Dag, order: seq<Id>, root: Id, covers: seq<Id>, requested: seq<Id>)
    returns (frontier: Option<seq<Id>>)
    requires forall n :: n in order <==> n in dag
    ensures frontier.Some? <==> AdapterAgrees(dag, root, covers, requested)
    ensures frontier.Some? ==> frontier == Some(SortedList(requested))
  {
    hide Closure, ParentEdges, SortedList;
    var c := ComputeBlastRadius(dag, order, root);
    var computed := SortedList(FrontierOf(covers, Elements(c)));
    var wanted := SortedList(requested);
    assert Elements(c) == ParentClosure(dag, root);
    if multiset(computed) == multiset(wanted) { OrderedIsCanonical(computed, wanted); }
    if computed != wanted { return None; }
    frontier := Some(computed);
  }

  // ---- When the two derivations agree ----

  lemma {:induction false} FrontierCounts(covers: seq<Id>, c: set<Id>, x: Id)
    ensures multiset(FrontierOf(covers, c))[x] == if x in c then 0 else multiset(covers)[x]
  {
    if covers != [] {
      FrontierCounts(covers[1..], c, x);
      assert covers == [covers[0]] + covers[1..];
    }
  }

  lemma ParentClosureIsInside(dag: Dag, root: Id)
    ensures ParentClosure(dag, root) <= Blast(dag, root)
  {
    assert ParentEdges(dag) <= EdgesOf(dag);
    ClosureMonotone(ParentEdges(dag), EdgesOf(dag), {root}, {root});
  }

  /**
   * For the frontier the gateway derives itself, the adapter answers exactly when no cover is
   * reached by covers edges alone.
   */
  lemma AdapterAnswersGateway(dag: Dag, root: Id, covers: seq<Id>)
    ensures AdapterAgrees(dag, root, covers, FrontierOf(covers, Blast(dag, root))) <==>
      Elements(covers) !! Blast(dag, root) - ParentClosure(dag, root)
  {
    hide Closure, EdgesOf, ParentEdges, FrontierOf;
    var a, b := ParentClosure(dag, root), Blast(dag, root);
    ParentClosureIsInside(dag, root);
    var mine, theirs := multiset(FrontierOf(covers, a)), multiset(FrontierOf(covers, b));
    if x :| x in covers && x in b - a {
      FrontierCounts(covers, a, x);
      FrontierCounts(covers, b, x);
      assert mine[x] != theirs[x];
    } else {
      forall x ensures mine[x] == theirs[x] {
        FrontierCounts(covers, a, x);
        FrontierCounts(covers, b, x);
        assert x in covers <==> multiset(covers)[x] > 0;
      }
      assert mine == theirs;
    }
  }

  ghost predicate CoversAreParents(dag: Dag) {
    forall n :: n in dag ==> Elements(dag[n].covers) <= ParentSet(dag[n])
  }

  /** When every cover is also a parent the two closures coincide, so the adapter always answers the gateway. */
  lemma DerivationsCoincide(dag: Dag, root: Id, covers: seq<Id>)
    requires CoversAreParents(dag)
    ensures ParentClosure(dag, root) == Blast(dag, root)
    ensures AdapterAgrees(dag, root, covers, FrontierOf(covers, Blast(dag, root)))
  {
    assert ParentEdges(dag) == EdgesOf(dag);
  }
}
