/** In which order the traversal visits, and which edge classifies each node: breadth first, in dictionary order. */
module Discovery {
  import opened Ids
  import opened Reach
  import opened Records
  import opened BlastRadius

  /** Position i of the visit holds the first visited node that v derives from. */
  predicate FirstSource(dag: Dag, visit: seq<Id>, v: Id, i: int) {
    v in dag && 0 <= i < |visit| && visit[i] in Sources(dag[v]) && forall j :: 0 <= j < i ==> visit[j] !in Sources(dag[v])
  }

  predicate InOrder(order: seq<Id>, u: Id, v: Id) {
    exists i, j :: 0 <= i < j < |order| && order[i] == u && order[j] == v
  }

  predicate Listed(order: seq<Id>, ids: seq<Id>) {
    forall i, j :: 0 <= i < j < |ids| ==> InOrder(order, ids[i], ids[j])
  }

  lemma ListedLater(order: seq<Id>, ids: seq<Id>)
    requires order != [] && Listed(order[1..], ids) && forall k :: k in ids ==> k in order[1..]
    ensures Listed(order, ids) && Listed(order, [order[0]] + ids)
  {
    var rest := order[1..];
    forall u, v | InOrder(rest, u, v) ensures InOrder(order, u, v) {
      var a, b :| 0 <= a < b < |rest| && rest[a] == u && rest[b] == v;
      assert order[a + 1] == u && order[b + 1] == v;
    }
    forall k | k in ids ensures InOrder(order, order[0], k) {
      var b :| 0 <= b < |rest| && rest[b] == k;
      assert order[b + 1] == k;
    }
    var all := [order[0]] + ids;
    forall i, j | 0 <= i < j < |all| ensures InOrder(order, all[i], all[j]) {
      if i == 0 {
        assert all[j] == ids[j - 1] && ids[j - 1] in ids;
      } else {
        assert InOrder(rest, ids[i - 1], ids[j - 1]);
      }
    }
  }

  lemma {:induction false} DiscoverInOrder(dag: Dag, order: seq<Id>, current: Id, seen: set<Id>)
    ensures Listed(order, Discover(dag, order, current, seen))
    ensures forall k :: k in Discover(dag, order, current, seen) ==> k in order
  {
    hide Listed;
    if order == [] {
      NothingListed();
    } else {
      var n, rest := order[0], order[1..];
      var seen' := if n in dag && n !in seen && current in Sources(dag[n]) then seen + {n} else seen;
      DiscoverInOrder(dag, rest, current, seen');
      ListedLater(order, Discover(dag, rest, current, seen'));
    }
  }

  lemma NothingListed()
    ensures Listed([], [])
  {
  }

  lemma {:induction false} StartsWithQueue(dag: Dag, order: seq<Id>, seen: set<Id>, queue: seq<Id>)
    ensures queue <= SearchFrom(dag, order, seen, queue).visit
    decreases Unseen(dag, seen), |queue|
  {
    hide Discover, CarriedAmong, SearchFrom, Elements;
    if queue != [] {
      var kids := Discover(dag, order, queue[0], seen);
      DiscoverMakesProgress(dag, order, queue[0], seen);
      StartsWithQueue(dag, order, seen + Elements(kids), queue[1..] + kids);
      SearchUnfolds(dag, order, seen, queue);
      PrefixStep(queue, kids, SearchFrom(dag, order, seen + Elements(kids), queue[1..] + kids).visit);
    }
  }

  lemma PrefixStep(queue: seq<Id>, kids: seq<Id>, rest: seq<Id>)
    requires queue != [] && queue[1..] + kids <= rest
    ensures queue <= [queue[0]] + rest
  {
    assert queue == [queue[0]] + queue[1..];
    assert queue[1..] <= rest;
  }

  /** A node discovered after the queue has an earliest source in the visit, and that source decides its class. */
  ghost predicate Classified(dag: Dag, s: Search, v: Id) {
    exists i :: FirstSource(dag, s.visit, v, i) && (v in s.carried <==> CarriedFrom(dag[v], s.visit[i]))
  }

  lemma {:induction false} SearchClassified(st: Store, seen: set<Id>, queue: seq<Id>, v: Id)
    requires Filed(st) && v !in seen && v !in queue && v in SearchFrom(st.dag, st.order, seen, queue).visit
    ensures Classified(st.dag, SearchFrom(st.dag, st.order, seen, queue), v)
    decreases Unseen(st.dag, seen), |queue|
  {
    hide Discover, CarriedAmong, Sources, CarriedFrom, SearchFrom, DiscoveredFrom;
    NothingVisited(st, seen, queue);
    var u := queue[0];
    var kids := Discover(st.dag, st.order, u, seen);
    DiscoverFinds(st.dag, st.order, u, seen);
    DiscoverMakesProgress(st.dag, st.order, u, seen);
    CarriedAmongFinds(st.dag, kids, u, v);
    var seen', queue' := seen + Elements(kids), queue[1..] + kids;
    var s, rest := SearchFrom(st.dag, st.order, seen, queue), SearchFrom(st.dag, st.order, seen', queue');
    SearchUnfolds(st.dag, st.order, seen, queue);
    assert s.visit == [u] + rest.visit;
    if v in kids {
      SearchClassifies(st.dag, st.order, seen', queue', v);
      assert FirstSource(st.dag, s.visit, v, 0);
    } else {
      SearchClassified(st, seen', queue', v);
      var i :| FirstSource(st.dag, rest.visit, v, i) && (v in rest.carried <==> CarriedFrom(st.dag[v], rest.visit[i]));
      SourceShifts(st.dag, u, rest.visit, v, i);
    }
  }

  lemma NothingVisited(st: Store, seen: set<Id>, queue: seq<Id>)
    ensures queue == [] ==> SearchFrom(st.dag, st.order, seen, queue).visit == []
  {
  }

  lemma SourceShifts(dag: Dag, u: Id, visit: seq<Id>, v: Id, i: int)
    requires FirstSource(dag, visit, v, i) && u !in Sources(dag[v])
    ensures FirstSource(dag, [u] + visit, v, i + 1)
  {
    hide Sources;
    var all := [u] + visit;
    assert forall j :: 1 <= j < |all| ==> all[j] == visit[j - 1];
  }

  /** v is visited before w exactly as its earliest source is: first by the visit, then by the dictionary. */
  ghost predicate BreadthFirst(dag: Dag, order: seq<Id>, visit: seq<Id>, from: nat) {
    forall a, b :: from <= a < b < |visit| ==> Sooner(dag, order, visit, visit[a], visit[b])
  }

  ghost predicate Sooner(dag: Dag, order: seq<Id>, visit: seq<Id>, v: Id, w: Id) {
    exists i, j :: FirstSource(dag, visit, v, i) && FirstSource(dag, visit, w, j) && (i < j || (i == j && InOrder(order, v, w)))
  }

  lemma {:induction false} SearchBreadthFirst(st: Store, seen: set<Id>, queue: seq<Id>)
    requires Filed(st) && Frontier(st.dag, seen, queue)
    ensures BreadthFirst(st.dag, st.order, SearchFrom(st.dag, st.order, seen, queue).visit, |queue|)
    decreases Unseen(st.dag, seen), |queue|
  {
    hide Discover, CarriedAmong, Frontier, Sooner, EdgesOf, Filed;
    if queue != [] {
      var u := queue[0];
      var kids := Discover(st.dag, st.order, u, seen);
      DiscoverMakesProgress(st.dag, st.order, u, seen);
      FrontierAdvances(st, seen, queue);
      var seen', queue' := seen + Elements(kids), queue[1..] + kids;
      SearchBreadthFirst(st, seen', queue');
      SearchUnfolds(st.dag, st.order, seen, queue);
      var visit := SearchFrom(st.dag, st.order, seen, queue).visit;
      forall a, b | |queue| <= a < b < |visit| ensures Sooner(st.dag, st.order, visit, visit[a], visit[b]) {
        SoonerStep(st, seen, queue, a, b);
      }
    }
  }

  /** One scan: the kids come first, in dictionary order, and everything later is ordered by the rest of the search. */
  lemma SoonerStep(st: Store, seen: set<Id>, queue: seq<Id>, a: nat, b: nat)
    requires Filed(st) && queue != []
    requires var kids := Discover(st.dag, st.order, queue[0], seen);
             var (seen', queue') := (seen + Elements(kids), queue[1..] + kids);
             && Frontier(st.dag, seen', queue')
             && BreadthFirst(st.dag, st.order, SearchFrom(st.dag, st.order, seen', queue').visit, |queue'|)
    requires |queue| <= a < b < |SearchFrom(st.dag, st.order, seen, queue).visit|
    ensures var visit := SearchFrom(st.dag, st.order, seen, queue).visit;
            Sooner(st.dag, st.order, visit, visit[a], visit[b])
  {
    hide Discover, CarriedAmong, Sources, Frontier, InOrder, FirstSource, Sooner, EdgesOf, SearchFrom, Filed, Classified;
    var u := queue[0];
    var kids := Discover(st.dag, st.order, u, seen);
    var seen', queue' := seen + Elements(kids), queue[1..] + kids;
    var rest := SearchFrom(st.dag, st.order, seen', queue').visit;
    var visit := [u] + rest;
    DiscoverFinds(st.dag, st.order, u, seen);
    DiscoverInOrder(st.dag, st.order, u, seen);
    SearchUnfolds(st.dag, st.order, seen, queue);
    StartsWithQueue(st.dag, st.order, seen', queue');
    assert visit[a] == rest[a - 1] && visit[b] == rest[b - 1];
    if a - 1 < |queue'| {
      AtQueue(rest, queue, kids, a);
      assert visit[a] in kids;
    }
    if b - 1 < |queue'| {
      AtQueue(rest, queue, kids, b);
      assert visit[b] in kids;
      TwoKids(st.dag, st.order, u, rest, visit[a], visit[b]);
    } else {
      LaterNode(st, seen', queue', b - 1);
      NotBelow(st, u, seen, kids, visit[b]);
      if a - 1 < |queue'| {
        KidBeforeLater(st, u, seen', queue', visit[a], visit[b]);
      } else {
        LaterNode(st, seen', queue', a - 1);
        NotBelow(st, u, seen, kids, visit[a]);
        SoonerShifts(st.dag, st.order, u, rest, visit[a], visit[b]);
      }
    }
  }

  lemma AtQueue(rest: seq<Id>, queue: seq<Id>, kids: seq<Id>, a: nat)
    requires queue != [] && queue[1..] + kids <= rest && |queue| <= a <= |queue| - 1 + |kids|
    ensures a - 1 < |rest| && rest[a - 1] == kids[a - |queue|]
  {
    assert rest[a - 1] == (queue[1..] + kids)[a - 1];
  }

  lemma TwoKids(dag: Dag, order: seq<Id>, u: Id, rest: seq<Id>, v: Id, w: Id)
    requires v in dag && w in dag && u in Sources(dag[v]) && u in Sources(dag[w]) && InOrder(order, v, w)
    ensures Sooner(dag, order, [u] + rest, v, w)
  {
    hide Sources, InOrder;
    assert FirstSource(dag, [u] + rest, v, 0) && FirstSource(dag, [u] + rest, w, 0);
  }

  /** What is visited after the queue was not seen before. */
  lemma LaterNode(st: Store, seen: set<Id>, queue: seq<Id>, b: nat)
    requires Filed(st) && Frontier(st.dag, seen, queue)
    requires |queue| <= b < |SearchFrom(st.dag, st.order, seen, queue).visit|
    ensures var v := SearchFrom(st.dag, st.order, seen, queue).visit[b];
            v !in seen && v !in queue && Classified(st.dag, SearchFrom(st.dag, st.order, seen, queue), v)
  {
    hide Classified, EdgesOf, Closure;
    var visit := SearchFrom(st.dag, st.order, seen, queue).visit;
    StartsWithQueue(st.dag, st.order, seen, queue);
    ClosureIsClosed(EdgesOf(st.dag), seen);
    SearchVisits(st, seen, seen, queue);
    assert forall i :: 0 <= i < |queue| ==> visit[i] == queue[i];
    SearchClassified(st, seen, queue, visit[b]);
  }

  lemma NotBelow(st: Store, u: Id, seen: set<Id>, kids: seq<Id>, v: Id)
    requires Filed(st) && forall n :: n in kids <==> n in st.order && n in st.dag && n !in seen && u in Sources(st.dag[n])
    requires v !in seen + Elements(kids)
    ensures v in st.dag ==> u !in Sources(st.dag[v])
  {
  }

  lemma KidBeforeLater(st: Store, u: Id, seen: set<Id>, queue: seq<Id>, v: Id, w: Id)
    requires v in st.dag && u in Sources(st.dag[v])
    requires Classified(st.dag, SearchFrom(st.dag, st.order, seen, queue), w) && (w in st.dag ==> u !in Sources(st.dag[w]))
    ensures Sooner(st.dag, st.order, [u] + SearchFrom(st.dag, st.order, seen, queue).visit, v, w)
  {
    hide Sources, CarriedFrom;
    var rest := SearchFrom(st.dag, st.order, seen, queue).visit;
    var j :| FirstSource(st.dag, rest, w, j);
    SourceShifts(st.dag, u, rest, w, j);
    assert FirstSource(st.dag, [u] + rest, v, 0);
  }

  lemma SoonerShifts(dag: Dag, order: seq<Id>, u: Id, rest: seq<Id>, v: Id, w: Id)
    requires Sooner(dag, order, rest, v, w)
    requires (v in dag ==> u !in Sources(dag[v])) && (w in dag ==> u !in Sources(dag[w]))
    ensures Sooner(dag, order, [u] + rest, v, w)
  {
    hide Sources, InOrder;
    var i, j :| FirstSource(dag, rest, v, i) && FirstSource(dag, rest, w, j) && (i < j || (i == j && InOrder(order, v, w)));
    SourceShifts(dag, u, rest, v, i);
    SourceShifts(dag, u, rest, w, j);
  }

  /**
   * The traversal starts at its root; every other node it visits is placed and classified by the first visited node it
   * derives from: earlier source first, then dictionary order, and affected exactly when it carries from that source.
   */
  lemma TraversalOrder(st: Store, root: Id)
    requires Filed(st)
    ensures var s := BlastSearch(st, root);
            && |s.visit| > 0 && s.visit[0] == root
            && (forall a, b :: 1 <= a < b < |s.visit| ==> Sooner(st.dag, st.order, s.visit, s.visit[a], s.visit[b]))
            && (forall v :: v in s.visit && v != root ==>
                  exists i :: FirstSource(st.dag, s.visit, v, i) && (v in s.carried <==> CarriedFrom(st.dag[v], s.visit[i])))
            && (forall v :: v in s.carried ==> v in s.visit && v != root)
  {
    hide Sources, Sooner, CarriedFrom, EdgesOf;
    StartsWithQueue(st.dag, st.order, {root}, [root]);
    RootFrontier(st.dag, root);
    SearchBreadthFirst(st, {root}, [root]);
    var s := BlastSearch(st, root);
    forall v | v in s.visit && v != root
      ensures exists i :: FirstSource(st.dag, s.visit, v, i) && (v in s.carried <==> CarriedFrom(st.dag[v], s.visit[i]))
    {
      SearchClassified(st, {root}, [root], v);
    }
    forall v | v in s.carried ensures v in s.visit && v != root {
      SearchClassifies(st.dag, st.order, {root}, [root], v);
    }
  }

  lemma RootFrontier(dag: Dag, root: Id)
    ensures Frontier(dag, {root}, [root])
  {
    hide EdgesOf;
  }
}
