/** The Postgres backend computes the blast radius with a recursive query that carries a depth. */
module PostgresBackend {
  import opened Ids
  import opened Reach
  import opened Records
  import opened SqliteBackend

  /** The ends of walks of exactly k edges. */
  ghost function Exactly(e: Edges, root: Id, k: nat): set<Id> {
    if k == 0 then {root} else ChildrenOf(e, Exactly(e, root, k - 1))
  }

  lemma ChildrenOfUnion(e: Edges, s: set<Id>, t: set<Id>)
    ensures ChildrenOf(e, s + t) == ChildrenOf(e, s) + ChildrenOf(e, t)
  {
  }

  lemma {:induction false} WithinAddsExactly(e: Edges, root: Id, k: nat)
    ensures Within(e, {root}, k) == if k == 0 then {root} else Within(e, {root}, k - 1) + Exactly(e, root, k)
  {
    hide ChildrenOf;
    if k > 0 {
      WithinAddsExactly(e, root, k - 1);
      if k > 1 {
        ChildrenOfUnion(e, Within(e, {root}, k - 2), Exactly(e, root, k - 1));
      }
    }
  }

  lemma {:induction false} NothingFurther(e: Edges, root: Id, j: nat, k: nat)
    requires j <= k && Exactly(e, root, j) == {}
    ensures Exactly(e, root, k) == {}
    ensures Within(e, {root}, k) == Within(e, {root}, j)
  {
    hide ChildrenOf, Within;
    if j < k {
      NothingFurther(e, root, j, k - 1);
      NoChildren(e);
      WithinAddsExactly(e, root, k);
    }
  }

  lemma NoChildren(e: Edges)
    ensures ChildrenOf(e, {}) == {}
  {
  }

  /** One application of the recursive term: join the working table with the edges below the depth bound. */
  function Join(rows: EdgeTable, working: set<(Id, nat)>, bound: nat): set<(Id, nat)> {
    set w, k | w in working && w.1 < bound && k in rows && k.1 == w.0 :: (k.0, w.1 + 1)
  }

  /** The table holds exactly the members of one level, all at depth k. */
  ghost predicate AtDepth(level: set<Id>, k: nat, working: set<(Id, nat)>) {
    forall x :: x in working <==> x.1 == k && x.0 in level
  }

  function NodeIds(result: set<(Id, nat)>): set<Id> {
    set w | w in result :: w.0
  }

  lemma JoinRow(rows: EdgeTable, level: set<Id>, k: nat, working: set<(Id, nat)>, bound: nat, x: (Id, nat))
    requires AtDepth(level, k, working) && k < bound
    ensures x in Join(rows, working, bound) <==> x.1 == k + 1 && x.0 in ChildrenOf(RowEdges(rows), level)
  {
    var e := RowEdges(rows);
    if x in Join(rows, working, bound) {
      var w, r :| w in working && w.1 < bound && r in rows && r.1 == w.0 && x == (r.0, w.1 + 1);
      assert (r.1, r.0) in e;
      assert (r.1, r.0).1 in ChildrenOf(e, level);
    }
    if x.1 == k + 1 && x.0 in ChildrenOf(e, level) {
      var p :| p in e && p.0 in level && p.1 == x.0;
      var r :| r in rows && (r.1, r.0) == p;
      var w := (p.0, k);
      assert w in working && r.1 == w.0;
      assert x == (r.0, w.1 + 1);
    }
  }

  lemma JoinStep(rows: EdgeTable, level: set<Id>, k: nat, working: set<(Id, nat)>, bound: nat)
    requires AtDepth(level, k, working)
    ensures k < bound ==> AtDepth(ChildrenOf(RowEdges(rows), level), k + 1, Join(rows, working, bound))
    ensures k >= bound ==> Join(rows, working, bound) == {}
  {
    if k < bound {
      forall x ensures x in Join(rows, working, bound) <==> x.1 == k + 1 && x.0 in ChildrenOf(RowEdges(rows), level) {
        JoinRow(rows, level, k, working, bound, x);
      }
    }
  }

  lemma NewRows(level: set<Id>, k: nat, result: set<(Id, nat)>, working: set<(Id, nat)>)
    requires forall w :: w in result ==> w.1 < k
    requires AtDepth(level, k, working)
    ensures working - result == working
    ensures NodeIds(result + working) == NodeIds(result) + level
    ensures forall w :: w in result + working ==> w.1 <= k
  {
    forall v ensures v in NodeIds(result + working) <==> v in NodeIds(result) || v in level {
      if v in level {
        assert (v, k) in working;
        assert (v, k).0 == v;
      }
    }
  }

  lemma DepthZero(root: Id)
    ensures AtDepth({root}, 0, {(root, 0)})
    ensures NodeIds({(root, 0)}) == {root}
  {
    assert (root, 0).0 == root;
  }

  lemma NoRows(level: set<Id>, k: nat, working: set<(Id, nat)>)
    requires AtDepth(level, k, working) && working == {}
    ensures level == {}
  {
    forall v ensures v !in level {
      assert (v, k) !in working;
    }
  }

  /** UNION keeps rows that differ in depth, so the query ends by its depth bound even on cycles. */
  method RecursiveQuery(rows: EdgeTable, root: Id, bound: nat) returns (ids: set<Id>)
    ensures ids == Within(RowEdges(rows), {root}, bound)
  {
    hide RowEdges, Within, AtDepth, Join, NodeIds, Exactly, ChildrenOf;
    ghost var e := RowEdges(rows);
    var result: set<(Id, nat)> := {(root, 0)};
    var working := result;
    ghost var k := 0;
    DepthZero(root);
    WithinAddsExactly(e, root, 0);
    ExactlyUnfolds(e, root, 0);
    while working != {}
      invariant k <= bound
      invariant forall w :: w in result ==> w.1 <= k
      invariant NodeIds(result) == Within(e, {root}, k)
      invariant AtDepth(Exactly(e, root, k), k, working) || (k == bound && working == {})
      decreases bound - k, working
    {
      var produced := Join(rows, working, bound);
      JoinStep(rows, Exactly(e, root, k), k, working, bound);
      if k < bound {
        ExactlyUnfolds(e, root, k + 1);
        k := k + 1;
        NewRows(Exactly(e, root, k), k, result, produced);
        WithinAddsExactly(e, root, k);
      } else {
        assert result + (produced - result) == result;
      }
      working := produced - result;
      result := result + working;
    }
    if AtDepth(Exactly(e, root, k), k, working) {
      NoRows(Exactly(e, root, k), k, working);
      NothingFurther(e, root, k, bound);
    }
    ids := NodeIds(result);
  }

  lemma ExactlyUnfolds(e: Edges, root: Id, k: nat)
    ensures Exactly(e, root, k) == if k == 0 then {root} else ChildrenOf(e, Exactly(e, root, k - 1))
  {
  }

  method ComputeBlastRadius(rows: EdgeTable, dag: Dag, root: Id, bound: nat) returns (c: seq<Id>)
    requires rows == TableOf(dag)
    ensures c == SortedIds(Within(EdgesOf(dag), {root}, bound))
  {
    TableEdges(dag);
    var ids := RecursiveQuery(rows, root, bound);
    c := SortedIds(ids);
  }
}
