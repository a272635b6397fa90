/** The in-memory traversal: breadth-first search that scans the whole graph dictionary for each node. */
module BlastRadius {
  import opened Ids
  import opened Reach
  import opened Records

  /** The nodes one scan of the dictionary discovers from `current`, in dictionary order. */
  function Discover(dag: Dag, order: seq<Id>, current: Id, seen: set<Id>): seq<Id> {
    if order == [] then [] else
      var n := order[0];
      if n in dag && n !in seen && current in Sources(dag[n])
      then [n] + Discover(dag, order[1..], current, seen + {n})
      else Discover(dag, order[1..], current, seen)
  }

  lemma {:induction false} DiscoverFinds(dag: Dag, order: seq<Id>, current: Id, seen: set<Id>)
    ensures var kids := Discover(dag, order, current, seen);
            && NoDuplicates(kids)
            && forall n :: n in kids <==> n in order && n in dag && n !in seen && current in Sources(dag[n])
  {
    if order != [] {
      var n := order[0];
      if n in dag && n !in seen && current in Sources(dag[n]) {
        DiscoverFinds(dag, order[1..], current, seen + {n});
      } else {
        DiscoverFinds(dag, order[1..], current, seen);
      }
      assert order == [n] + order[1..];
    }
  }

  function CarriedAmong(dag: Dag, kids: seq<Id>, current: Id): seq<Id> {
    if kids == [] then []
    else (if kids[0] in dag && CarriedFrom(dag[kids[0]], current) then [kids[0]] else [])
         + CarriedAmong(dag, kids[1..], current)
  }

  lemma {:induction false} CarriedAmongAppend(dag: Dag, a: seq<Id>, b: seq<Id>, current: Id)
    ensures CarriedAmong(dag, a + b, current) == CarriedAmong(dag, a, current) + CarriedAmong(dag, b, current)
  {
    if a == [] {
      assert a + b == b;
    } else {
      assert (a + b)[1..] == a[1..] + b;
      CarriedAmongAppend(dag, a[1..], b, current);
    }
  }

  /** `visit` is the dequeue order; `carried` lists the nodes first discovered over a CARRIED commitment. */
  datatype Search = Search(visit: seq<Id>, carried: seq<Id>)

  /** The graph nodes a search has not yet seen. */
  function Unseen(dag: Dag, seen: set<Id>): nat {
    |dag.Keys - seen|
  }

  lemma SmallerRest(s: set<Id>, t: set<Id>, x: Id)
    requires t <= s && x in s && x !in t
    ensures |t| < |s|
  {
    SubsetSize(t + {x}, s);
  }

  lemma DiscoverMakesProgress(dag: Dag, order: seq<Id>, current: Id, seen: set<Id>)
    ensures var kids := Discover(dag, order, current, seen);
            Unseen(dag, seen + Elements(kids)) < Unseen(dag, seen) || (kids == [] && seen + Elements(kids) == seen)
  {
    DiscoverFinds(dag, order, current, seen);
    hide Discover, Sources;
    var kids := Discover(dag, order, current, seen);
    if kids != [] {
      var k := kids[0];
      assert k in dag && k !in seen;
      SmallerRest(dag.Keys - seen, dag.Keys - (seen + Elements(kids)), k);
    }
  }

  function SearchFrom(dag: Dag, order: seq<Id>, seen: set<Id>, queue: seq<Id>): Search
    decreases Unseen(dag, seen), |queue|
  {
    if queue == [] then Search([], []) else
      var kids := Discover(dag, order, queue[0], seen);
      DiscoverMakesProgress(dag, order, queue[0], seen);
      var rest := SearchFrom(dag, order, seen + Elements(kids), queue[1..] + kids);
      Search([queue[0]] + rest.visit, CarriedAmong(dag, kids, queue[0]) + rest.carried)
  }

  lemma SearchUnfolds(dag: Dag, order: seq<Id>, seen: set<Id>, queue: seq<Id>)
    requires queue != []
    ensures var kids := Discover(dag, order, queue[0], seen);
            var rest := SearchFrom(dag, order, seen + Elements(kids), queue[1..] + kids);
            SearchFrom(dag, order, seen, queue) == Search([queue[0]] + rest.visit, CarriedAmong(dag, kids, queue[0]) + rest.carried)
  {
    hide Discover, CarriedAmong, Elements;
  }

  function BlastSearch(st: Store, root: Id): Search {
    SearchFrom(st.dag, st.order, {root}, [root])
  }

  ghost function Blast(dag: Dag, root: Id): set<Id> {
    Closure(EdgesOf(dag), {root})
  }

  /** What is finished is closed except for edges into the queue. */
  ghost predicate Frontier(dag: Dag, seen: set<Id>, queue: seq<Id>) {
    && NoDuplicates(queue)
    && Elements(queue) <= seen
    && forall u, v :: u in seen && u !in queue && (u, v) in EdgesOf(dag) ==> v in seen
  }

  lemma NoDuplicatesJoin(a: seq<Id>, b: seq<Id>)
    requires NoDuplicates(a) && NoDuplicates(b)
    requires forall x :: x in a ==> x !in b
    ensures NoDuplicates(a + b)
  {
    var s := a + b;
    forall i, j | 0 <= i < j < |s| ensures s[i] != s[j] {
      if i < |a| <= j {
        assert s[i] in a && s[j] in b;
      }
    }
  }

  lemma FrontierAdvances(st: Store, seen: set<Id>, queue: seq<Id>)
    requires Filed(st) && Frontier(st.dag, seen, queue) && queue != []
    ensures var kids := Discover(st.dag, st.order, queue[0], seen);
            && Frontier(st.dag, seen + Elements(kids), queue[1..] + kids)
            && Elements(kids) == Children(EdgesOf(st.dag), queue[0]) - seen
  {
    var kids := Discover(st.dag, st.order, queue[0], seen);
    DiscoverFinds(st.dag, st.order, queue[0], seen);
    forall v ensures v in kids <==> v in Children(EdgesOf(st.dag), queue[0]) - seen {
      EdgeMeaning(st.dag, queue[0], v);
      if v in kids { assert (queue[0], v).1 == v; }
    }
    var seen', queue' := seen + Elements(kids), queue[1..] + kids;
    assert forall x :: x in queue ==> x == queue[0] || x in queue[1..];
    NoDuplicatesJoin(queue[1..], kids);
    forall a, v | a in seen' && a !in queue' && (a, v) in EdgesOf(st.dag) ensures v in seen' {
      EdgeMeaning(st.dag, a, v);
      if a == queue[0] && v !in seen {
        assert v in kids;
      }
    }
  }

  lemma {:induction false} SearchVisits(st: Store, roots: set<Id>, seen: set<Id>, queue: seq<Id>)
    requires Filed(st) && Frontier(st.dag, seen, queue)
    requires roots <= seen <= Closure(EdgesOf(st.dag), roots)
    ensures var visit := SearchFrom(st.dag, st.order, seen, queue).visit;
            && NoDuplicates(visit)
            && forall x :: x in visit <==> (x in Closure(EdgesOf(st.dag), roots) && x !in seen) || x in queue
    decreases Unseen(st.dag, seen), |queue|
  {
    var e := EdgesOf(st.dag);
    if queue == [] {
      ClosureIsLeast(e, roots, seen);
    } else {
      var u := queue[0];
      var kids := Discover(st.dag, st.order, u, seen);
      FrontierAdvances(st, seen, queue);
      DiscoverMakesProgress(st.dag, st.order, u, seen);
      var seen', queue' := seen + Elements(kids), queue[1..] + kids;
      assert seen' <= Closure(e, roots) by {
        ClosureIsClosed(e, roots);
        assert forall k :: k in Elements(kids) ==> (u, k) in e;
      }
      SearchVisits(st, roots, seen', queue');
      var rest := SearchFrom(st.dag, st.order, seen', queue').visit;
      assert u !in queue[1..] && u in seen && u !in Elements(kids);
      assert forall x :: x in queue <==> x == u || x in queue[1..];
      assert forall x :: x in queue' <==> x in queue[1..] || x in Elements(kids);
      NoDuplicatesJoin([u], rest);
    }
  }

  /** The search returns the forward closure, visiting every member once. */
  lemma SearchIsClosure(st: Store, root: Id)
    requires Filed(st)
    ensures NoDuplicates(BlastSearch(st, root).visit)
    ensures Elements(BlastSearch(st, root).visit) == Blast(st.dag, root)
  {
    ClosureIsClosed(EdgesOf(st.dag), {root});
    SearchVisits(st, {root}, {root}, [root]);
  }

  lemma {:induction false} CarriedAmongFinds(dag: Dag, kids: seq<Id>, current: Id, v: Id)
    ensures v in CarriedAmong(dag, kids, current) <==> v in kids && v in dag && CarriedFrom(dag[v], current)
  {
    if kids != [] {
      CarriedAmongFinds(dag, kids[1..], current, v);
      assert kids == [kids[0]] + kids[1..];
    }
  }

  /** v was first discovered by scanning for u, over a CARRIED commitment or not. */
  ghost predicate DiscoveredFrom(dag: Dag, visit: seq<Id>, v: Id, carried: bool) {
    v in dag && exists u :: u in visit && u in Sources(dag[v]) && CarriedFrom(dag[v], u) == carried
  }

  /** Each node that was not queued at the start is classified by the edge that discovered it. */
  lemma {:induction false} SearchClassifies(dag: Dag, order: seq<Id>, seen: set<Id>, queue: seq<Id>, v: Id)
    ensures var s := SearchFrom(dag, order, seen, queue);
            && (v in s.carried ==> v !in seen && v in s.visit && DiscoveredFrom(dag, s.visit, v, true))
            && (v in s.visit && v !in queue && v !in s.carried ==> DiscoveredFrom(dag, s.visit, v, false))
            && (v in queue ==> v in s.visit)
    decreases Unseen(dag, seen), |queue|
  {
    if queue != [] {
      var u := queue[0];
      var kids := Discover(dag, order, u, seen);
      DiscoverFinds(dag, order, u, seen);
      DiscoverMakesProgress(dag, order, u, seen);
      var seen', queue' := seen + Elements(kids), queue[1..] + kids;
      var rest := SearchFrom(dag, order, seen', queue');
      SearchClassifies(dag, order, seen', queue', v);
      CarriedAmongFinds(dag, kids, u, v);
      var visit := [u] + rest.visit;
      assert u in visit && forall x :: x in rest.visit ==> x in visit;
      assert v in queue ==> v == u || v in queue[1..];
      if v in kids {
        assert v in queue';
        assert DiscoveredFrom(dag, visit, v, CarriedFrom(dag[v], u));
      }
    }
  }
}
