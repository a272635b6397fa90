/** The SQLite backend: a materialised edge table and two depth-bounded traversals over it. */
module SqliteBackend {
  import opened Ids
  import opened Reach
  import opened Records
  import opened BlastRadius

  /** The edges table, keyed by its primary key (child_id, parent_id). */
  type EdgeTable = map<(Id, Id), EdgeClass>

  const SPARSE_LIMIT: nat := 10_000

  /** INSERT OR IGNORE: the first row for a key stays. */
  function InsertOrIgnore(t: EdgeTable, child: Id, parent: Id, edgeClass: EdgeClass): EdgeTable {
    if (child, parent) in t then t else t[(child, parent) := edgeClass]
  }

  /** The class of the first commitment that names u. */
  function FirstClass(parents: seq<Commitment>, u: Id): Option<EdgeClass> {
    if parents == [] then None
    else if parents[0].parent == u then Some(parents[0].edgeClass)
    else FirstClass(parents[1..], u)
  }

  /** A parent's row keeps the class of its first commitment; a cover gets a row only when it is not also a parent. */
  function RecordedClass(p: Payload, u: Id): EdgeClass {
    match FirstClass(p.parents, u)
    case Some(c) => c
    case None => Covers
  }

  /** The table that a graph determines. */
  function TableOf(dag: Dag): EdgeTable {
    map n, u | n in dag && u in Sources(dag[n]) :: (n, u) := RecordedClass(dag[n], u)
  }

  function RowEdges(t: EdgeTable): Edges {
    set k | k in t :: (k.1, k.0)
  }

  lemma {:induction false} FirstClassFinds(parents: seq<Commitment>, u: Id)
    ensures FirstClass(parents, u).None? <==> forall c :: c in parents ==> c.parent != u
    ensures FirstClass(parents, u).Some? ==>
      exists c :: c in parents && c.parent == u && c.edgeClass == FirstClass(parents, u).value
  {
    if parents != [] {
      FirstClassFinds(parents[1..], u);
      assert parents == [parents[0]] + parents[1..];
    }
  }

  lemma {:induction false} FirstClassExtends(parents: seq<Commitment>, c: Commitment, u: Id)
    ensures FirstClass(parents + [c], u) ==
      if FirstClass(parents, u).Some? then FirstClass(parents, u) else if c.parent == u then Some(c.edgeClass) else None
  {
    if parents == [] {
      assert parents + [c] == [c] && [c][1..] == [];
    } else {
      assert (parents + [c])[1..] == parents[1..] + [c];
      FirstClassExtends(parents[1..], c, u);
    }
  }

  /** The rows of a graph's table are exactly the edges the in-memory search follows. */
  lemma TableEdges(dag: Dag)
    ensures RowEdges(TableOf(dag)) == EdgesOf(dag)
    ensures Targets(EdgesOf(dag)) <= dag.Keys
  {
    var t := TableOf(dag);
    forall u, n ensures (u, n) in RowEdges(t) <==> (u, n) in EdgesOf(dag) {
      EdgeMeaning(dag, u, n);
      assert (n, u) in t <==> n in dag && u in Sources(dag[n]);
      if (n, u) in t { assert ((n, u).1, (n, u).0) in RowEdges(t); }
    }
  }

  /** No two commitments to one parent with different classes. */
  predicate Uniform(p: Payload) {
    forall c, d :: c in p.parents && d in p.parents && c.parent == d.parent ==> c.edgeClass == d.edgeClass
  }

  /** The table can lose a CARRIED commitment only to an earlier commitment of another class to the same parent. */
  lemma CarriedIsRecorded(p: Payload, u: Id)
    ensures u in ParentSet(p) && RecordedClass(p, u) == Carried ==> CarriedFrom(p, u)
    ensures Uniform(p) && CarriedFrom(p, u) ==> RecordedClass(p, u) == Carried
  {
    FirstClassFinds(p.parents, u);
  }

  // ---- One level of a traversal ----

  /** `level` is what the k-th step added; everything seen before it has all its children in `seen`. */
  ghost predicate AtLevel(e: Edges, root: Id, k: nat, seen: set<Id>, level: set<Id>) {
    && seen == Within(e, {root}, k)
    && level <= seen
    && forall u, v :: u in seen - level && (u, v) in e ==> v in seen
  }

  lemma LevelZero(e: Edges, root: Id)
    ensures AtLevel(e, root, 0, {root}, {root})
  {
  }

  lemma NextLevel(e: Edges, root: Id, k: nat, seen: set<Id>, level: set<Id>, found: set<Id>)
    requires AtLevel(e, root, k, seen, level)
    requires found == ChildrenOf(e, level) - seen
    ensures AtLevel(e, root, k + 1, seen + found, found)
  {
    forall v | v in ChildrenOf(e, seen) ensures v in seen + found {
      var p :| p in e && p.0 in seen && p.1 == v;
      assert (p.0, v) in e;
      if p.0 in level { assert v in ChildrenOf(e, level); }
    }
    assert found <= ChildrenOf(e, seen);
    forall u, v | u in (seen + found) - found && (u, v) in e ensures v in seen + found {
      if u in level { assert (u, v).1 == v; }
    }
  }

  lemma EmptyLevel(e: Edges, root: Id, k: nat, seen: set<Id>, depth: nat)
    requires AtLevel(e, root, k, seen, {}) && k <= depth
    ensures seen == Within(e, {root}, depth)
  {
    ClosedLevelStops(e, {root}, k, depth);
  }

  /** Once as many nodes are seen as exist, no later level can add one: every edge ends in a committed node. */
  lemma EarlyExit(e: Edges, root: Id, k: nat, seen: set<Id>, level: set<Id>, nodes: set<Id>, depth: nat)
    requires AtLevel(e, root, k, seen, level) && k <= depth
    requires Targets(e) <= nodes && |seen| == |nodes + {root}|
    ensures seen == Within(e, {root}, depth)
  {
    WithinInsideClosure(e, {root}, k);
    assert seen <= nodes + {root};
    SubsetSize(seen, nodes + {root});
    forall u, v | u in seen && (u, v) in e ensures v in seen {
      assert (u, v).1 in Targets(e);
    }
    ClosedLevelStops(e, {root}, k, depth);
  }

  /** Group the child ids of the table by parent; rows arrive in any order. */
  method BuildAdjacency(rows: EdgeTable) returns (adjacency: map<Id, seq<Id>>)
    ensures forall u, v :: (v, u) in rows <==> u in adjacency && v in adjacency[u]
  {
    adjacency := map[];
    var rest := rows.Keys;
    while rest != {}
      invariant rest <= rows.Keys
      invariant forall u, v :: (v, u) in rows.Keys - rest <==> u in adjacency && v in adjacency[u]
      decreases rest
    {
      var row :| row in rest;
      rest := rest - {row};
      var children := if row.1 in adjacency then adjacency[row.1] else [];
      adjacency := adjacency[row.1 := children + [row.0]];
    }
  }

  function Names(level: seq<(Id, nat)>): set<Id> {
    set x | x in level :: x.0
  }

  lemma NamesExtend(level: seq<(Id, nat)>, x: (Id, nat))
    ensures Names(level + [x]) == Names(level) + {x.0}
  {
    assert forall y :: y in level + [x] <==> y in level || y == x;
    forall n ensures n in Names(level + [x]) <==> n in Names(level) + {x.0} {
    }
  }

  lemma NoNames()
    ensures Names([]) == {}
  {
  }

  lemma ChildrenOfExtend(e: Edges, s: set<Id>, u: Id)
    ensures ChildrenOf(e, s + {u}) == ChildrenOf(e, s) + Children(e, u)
  {
  }

  lemma ChildrenOfNone(e: Edges)
    ensures ChildrenOf(e, {}) == {}
  {
  }

  lemma RowChildren(rows: EdgeTable, u: Id, v: Id)
    ensures v in Children(RowEdges(rows), u) <==> (v, u) in rows
  {
    if (v, u) in rows {
      assert ((v, u).1, (v, u).0) in RowEdges(rows);
      assert (u, v).1 == v;
    }
  }

  lemma AdjacencyMeaning(rows: EdgeTable, adjacency: map<Id, seq<Id>>, u: Id)
    requires forall u, v :: (v, u) in rows <==> u in adjacency && v in adjacency[u]
    ensures Elements(if u in adjacency then adjacency[u] else []) == Children(RowEdges(rows), u)
  {
    var children := if u in adjacency then adjacency[u] else [];
    forall v ensures v in Elements(children) <==> v in Children(RowEdges(rows), u) {
      RowChildren(rows, u, v);
    }
  }

  /** Append the unseen children of one node to the next level. */
  method Expand(children: seq<Id>, depth: nat, next0: seq<(Id, nat)>, visited0: set<Id>)
    returns (next: seq<(Id, nat)>, visited: set<Id>)
    ensures visited == visited0 + Elements(children)
    ensures Names(next) == Names(next0) + (Elements(children) - visited0)
    ensures (forall x :: x in next0 ==> x.1 == depth + 1) ==> forall x :: x in next ==> x.1 == depth + 1
  {
    hide Names;
    next, visited := next0, visited0;
    for i := 0 to |children|
      invariant visited == visited0 + Elements(children[..i])
      invariant Names(next) == Names(next0) + (Elements(children[..i]) - visited0)
      invariant (forall x :: x in next0 ==> x.1 == depth + 1) ==> forall x :: x in next ==> x.1 == depth + 1
    {
      var child := children[i];
      assert children[..i + 1] == children[..i] + [child];
      if child in visited { continue; }
      visited := visited + {child};
      NamesExtend(next, (child, depth + 1));
      next := next + [(child, depth + 1)];
    }
    assert children[..|children|] == children;
  }

  /** Expand a whole level, skipping entries at the depth bound. */
  method ExpandLevel(rows: EdgeTable, adjacency: map<Id, seq<Id>>, level: seq<(Id, nat)>, visited0: set<Id>, bound: nat, ghost k: nat)
    returns (next: seq<(Id, nat)>, visited: set<Id>)
    requires forall u, v :: (v, u) in rows <==> u in adjacency && v in adjacency[u]
    requires forall x :: x in level ==> x.1 == k
    ensures visited == visited0 + Names(next)
    ensures forall x :: x in next ==> x.1 == k + 1
    ensures Names(next) == if k < bound then ChildrenOf(RowEdges(rows), Names(level)) - visited0 else {}
    ensures k >= bound ==> next == []
  {
    hide Names, RowEdges, Children, ChildrenOf;
    ghost var e := RowEdges(rows);
    next, visited := [], visited0;
    NoNames();
    ChildrenOfNone(e);
    for i := 0 to |level|
      invariant k >= bound ==> next == []
      invariant forall x :: x in next ==> x.1 == k + 1
      invariant visited == visited0 + Names(next)
      invariant k < bound ==> Names(next) == ChildrenOf(e, Names(level[..i])) - visited0
    {
      var (n, depth) := level[i];
      assert level[i] in level;
      assert level[..i + 1] == level[..i] + [level[i]];
      NamesExtend(level[..i], level[i]);
      ChildrenOfExtend(e, Names(level[..i]), n);
      if depth >= bound { continue; }
      AdjacencyMeaning(rows, adjacency, n);
      var children := if n in adjacency then adjacency[n] else [];
      next, visited := Expand(children, depth, next, visited);
    }
    assert level[..|level|] == level;
  }

  /** Sparse strategy: one table scan, then a breadth-first search with a depth on every queue entry. */
  method SparseTraversal(rows: EdgeTable, root: Id, bound: nat) returns (visited: set<Id>)
    ensures visited == Within(RowEdges(rows), {root}, bound)
  {
    hide RowEdges, ChildrenOf, Within, AtLevel, Names;
    ghost var e := RowEdges(rows);
    var adjacency := BuildAdjacency(rows);
    visited := {root};
    var currentLevel: seq<(Id, nat)> := [(root, 0)];
    ghost var k := 0;
    LevelZero(e, root);
    NoNames();
    NamesExtend([], (root, 0));
    assert [] + [(root, 0)] == currentLevel;
    assert Names(currentLevel) == {root};
    while currentLevel != []
      invariant k <= bound
      invariant forall x :: x in currentLevel ==> x.1 == k
      invariant AtLevel(e, root, k, visited, Names(currentLevel)) || (currentLevel == [] && visited == Within(e, {root}, bound))
      decreases bound - k, |currentLevel|
    {
      ghost var seen, level := visited, Names(currentLevel);
      currentLevel, visited := ExpandLevel(rows, adjacency, currentLevel, visited, bound, k);
      if k < bound {
        NextLevel(e, root, k, seen, level, Names(currentLevel));
        k := k + 1;
      } else {
        LevelIsWithin(e, root, k, seen, level);
      }
    }
    if AtLevel(e, root, k, visited, Names(currentLevel)) {
      EmptyLevel(e, root, k, visited, bound);
    }
  }

  lemma LevelIsWithin(e: Edges, root: Id, k: nat, seen: set<Id>, level: set<Id>)
    requires AtLevel(e, root, k, seen, level)
    ensures seen == Within(e, {root}, k)
  {
  }

  /** SELECT DISTINCT child_id FROM edges WHERE parent_id IN (current). */
  function SelectChildren(rows: EdgeTable, current: seq<Id>): set<Id> {
    set k | k in rows && k.1 in current :: k.0
  }

  lemma SelectMeaning(rows: EdgeTable, current: seq<Id>)
    ensures SelectChildren(rows, current) == ChildrenOf(RowEdges(rows), Elements(current))
  {
    var e := RowEdges(rows);
    forall v ensures v in SelectChildren(rows, current) <==> v in ChildrenOf(e, Elements(current)) {
      if v in SelectChildren(rows, current) {
        var k :| k in rows && k.1 in current && k.0 == v;
        assert (k.1, k.0) in e;
      }
    }
  }

  /** Keep the rows that are new, in whatever order they arrive. */
  method TakeUnseen(found: set<Id>, visited0: set<Id>) returns (next: seq<Id>, visited: set<Id>)
    ensures Elements(next) == found - visited0
    ensures visited == visited0 + found
  {
    next, visited := [], visited0;
    var rest := found;
    while rest != {}
      invariant rest <= found
      invariant visited == visited0 + (found - rest)
      invariant Elements(next) == (found - rest) - visited0
      decreases rest
    {
      var child :| child in rest;
      rest := rest - {child};
      assert Elements(next + [child]) == Elements(next) + {child};
      if child in visited { continue; }
      visited := visited + {child};
      next := next + [child];
    }
  }

  /** Dense strategy: one query per level, and an early exit once the count of seen nodes reaches the total. */
  method DenseTraversal(rows: EdgeTable, nodes: set<Id>, root: Id, bound: nat) returns (visited: set<Id>)
    requires Targets(RowEdges(rows)) <= nodes
    ensures visited == Within(RowEdges(rows), {root}, bound)
  {
    hide RowEdges, ChildrenOf, Within, AtLevel, SelectChildren, Targets, Elements;
    ghost var e := RowEdges(rows);
    var totalExpected := |nodes| + (if root in nodes then 0 else 1);
    Total(nodes, root);
    visited := {root};
    var current := [root];
    var depth := 0;
    LevelZero(e, root);
    OneElement(root);
    while current != [] && depth < bound
      invariant depth <= bound
      invariant AtLevel(e, root, depth, visited, Elements(current))
      decreases bound - depth
    {
      var found := SelectChildren(rows, current);
      SelectMeaning(rows, current);
      ghost var seen := visited;
      var next: seq<Id>;
      next, visited := TakeUnseen(found, visited);
      assert visited == seen + Elements(next);
      NextLevel(e, root, depth, seen, Elements(current), Elements(next));
      if next == [] {
        NoElements();
        EmptyLevel(e, root, depth + 1, visited, bound);
        return;
      }
      current := next;
      depth := depth + 1;
      if |visited| == totalExpected {
        EarlyExit(e, root, depth, visited, Elements(current), nodes, bound);
        return;
      }
    }
    if current == [] {
      NoElements();
      EmptyLevel(e, root, depth, visited, bound);
    } else {
      LevelIsWithin(e, root, depth, visited, Elements(current));
    }
  }

  lemma Total(nodes: set<Id>, root: Id)
    ensures |nodes + {root}| == |nodes| + if root in nodes then 0 else 1
  {
    if root in nodes { assert nodes + {root} == nodes; }
  }

  lemma NoRowsYet(dag: Dag, n: Id)
    requires n !in dag
    ensures forall k :: k in TableOf(dag) ==> k.0 != n
  {
  }

  method InsertParents(rows: EdgeTable, child: Id, parents: seq<Commitment>) returns (t: EdgeTable)
    requires forall k :: k in rows ==> k.0 != child
    ensures forall k :: k in t <==> k in rows || (k.0 == child && FirstClass(parents, k.1).Some?)
    ensures forall k :: k in t ==> t[k] == if k.0 == child then FirstClass(parents, k.1).value else rows[k]
  {
    hide FirstClass;
    t := rows;
    FirstClassNone();
    for i := 0 to |parents|
      invariant forall k :: k in t <==> k in rows || (k.0 == child && FirstClass(parents[..i], k.1).Some?)
      invariant forall k :: k in t ==> t[k] == if k.0 == child then FirstClass(parents[..i], k.1).value else rows[k]
    {
      var c := parents[i];
      assert parents[..i + 1] == parents[..i] + [c];
      forall u ensures FirstClass(parents[..i + 1], u) ==
        if FirstClass(parents[..i], u).Some? then FirstClass(parents[..i], u)
        else if c.parent == u then Some(c.edgeClass) else None
      {
        FirstClassExtends(parents[..i], c, u);
      }
      t := InsertOrIgnore(t, child, c.parent, c.edgeClass);
    }
    assert parents[..|parents|] == parents;
  }

  lemma FirstClassNone()
    ensures forall u :: FirstClass([], u) == None
  {
  }

  method InsertCovers(rows: EdgeTable, p: Payload) returns (t: EdgeTable)
    ensures forall k :: k in t <==> k in rows || (k.0 == p.id && k.1 in p.covers)
    ensures forall k :: k in t ==> t[k] == if k in rows then rows[k] else Covers
  {
    t := rows;
    for i := 0 to |p.covers|
      invariant forall k :: k in t <==> k in rows || (k.0 == p.id && k.1 in p.covers[..i])
      invariant forall k :: k in t ==> t[k] == if k in rows then rows[k] else Covers
    {
      assert p.covers[..i + 1] == p.covers[..i] + [p.covers[i]];
      t := InsertOrIgnore(t, p.id, p.covers[i], Covers);
    }
    assert p.covers[..|p.covers|] == p.covers;
  }

  lemma TableRow(dag: Dag, k: (Id, Id))
    ensures k in TableOf(dag) <==> k.0 in dag && k.1 in Sources(dag[k.0])
    ensures k in TableOf(dag) ==> TableOf(dag)[k] == RecordedClass(dag[k.0], k.1)
  {
    hide RecordedClass, Sources;
    assert k == (k.0, k.1);
  }

  lemma SourceRows(p: Payload, u: Id)
    ensures u in Sources(p) <==> FirstClass(p.parents, u).Some? || u in p.covers
  {
    FirstClassFinds(p.parents, u);
  }

  /** The rows a commit adds are the rows the new graph calls for. */
  lemma CommittedTable(before: Dag, p: Payload, t: EdgeTable)
    requires p.id !in before
    requires forall k :: k in t <==>
      k in TableOf(before) || (k.0 == p.id && (FirstClass(p.parents, k.1).Some? || k.1 in p.covers))
    requires forall k :: k in t ==> t[k] == if k.0 == p.id then RecordedClass(p, k.1) else TableOf(before)[k]
    ensures t == TableOf(before[p.id := p])
  {
    hide RecordedClass, FirstClass, TableOf, Sources;
    var dag := before[p.id := p];
    var s := TableOf(dag);
    forall k: (Id, Id) ensures k in s <==> k in t {
      SourceRows(p, k.1);
      TableRow(before, k);
      TableRow(dag, k);
    }
    forall k | k in s ensures s[k] == t[k] {
      TableRow(before, k);
      TableRow(dag, k);
    }
  }

  lemma RootTable()
    ensures TableOf(map[CLEAN_PARENT := Bare(CLEAN_PARENT)]) == map[]
  {
    assert Sources(Bare(CLEAN_PARENT)) == {};
  }

  class SqliteStateBackend {
    var nodes: Dag
    var edges: EdgeTable
    const maxTraversalDepth: nat

    ghost predicate Valid()
      reads this
    {
      && edges == TableOf(nodes)
      && forall n :: n in nodes ==> nodes[n].id == n
    }

    constructor (depth: nat)
      ensures Valid() && nodes == Initial("").store.dag && maxTraversalDepth == depth
    {
      hide TableOf;
      RootTable();
      nodes, edges, maxTraversalDepth := map[CLEAN_PARENT := Bare(CLEAN_PARENT)], map[], depth;
      new;
    }

    /** The commit inserts the node row, then one edge row per parent, then one per cover that has none. */
    method CommitNode(p: Payload) returns (isNew: bool)
      requires Valid()
      modifies this
      ensures Valid()
      ensures isNew <==> p.id !in old(nodes)
      ensures nodes == if p.id in old(nodes) then old(nodes) else old(nodes)[p.id := p]
    {
      hide TableOf;
      if p.id in nodes { return false; }
      NoRowsYet(nodes, p.id);
      var t := InsertParents(edges, p.id, p.parents);
      edges := InsertCovers(t, p);
      CommittedTable(nodes, p, edges);
      nodes := nodes[p.id := p];
      return true;
    }

    /** Both strategies return the nodes within the depth bound; the affected compactions are read off the table. */
    method ComputeBlastRadius(root: Id) returns (c: seq<Id>, affected: set<Id>)
      requires Valid()
      ensures c == SortedIds(Within(EdgesOf(nodes), {root}, maxTraversalDepth))
      ensures forall n :: n in affected <==>
        n in nodes && exists u :: u in c && u in ParentSet(nodes[n]) && RecordedClass(nodes[n], u) == Carried
    {
      hide RecordedClass, EdgesOf, Targets, Within, RowEdges, TableOf;
      TableEdges(nodes);
      var visited: set<Id>;
      if |edges| <= SPARSE_LIMIT {
        visited := SparseTraversal(edges, root, maxTraversalDepth);
      } else {
        visited := DenseTraversal(edges, nodes.Keys, root, maxTraversalDepth);
      }
      c := SortedIds(visited);
      affected := set k | k in edges && edges[k] == Carried && k.1 in c :: k.0;
      forall n ensures n in affected <==>
        n in nodes && exists u :: u in c && u in ParentSet(nodes[n]) && RecordedClass(nodes[n], u) == Carried
      {
        CarriedRows(nodes, n, c);
      }
    }
  }

  lemma CarriedRows(dag: Dag, n: Id, c: seq<Id>)
    ensures var t := TableOf(dag);
            (exists k :: k in t && t[k] == Carried && k.1 in c && k.0 == n) <==>
            n in dag && exists u :: u in c && u in ParentSet(dag[n]) && RecordedClass(dag[n], u) == Carried
  {
    var t := TableOf(dag);
    if n in dag {
      forall u ensures u in Sources(dag[n]) && RecordedClass(dag[n], u) == Carried ==> u in ParentSet(dag[n]) {
        FirstClassFinds(dag[n].parents, u);
      }
      if u :| u in c && u in ParentSet(dag[n]) && RecordedClass(dag[n], u) == Carried {
        assert (n, u) in t;
      }
    }
  }
}
