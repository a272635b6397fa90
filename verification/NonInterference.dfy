/** Continuity adds records and nothing else: seen through ordinary ids, no request tells it apart but a remote designation. */
module NonInterference {
  import opened Ids
  import opened Reach
  import opened Records
  import opened BlastRadius
  import opened Admission
  import opened Replacement
  import opened CoversGap
  import opened Gateway
  import opened Containment

  const CONTINUITY_PREFIX: string := "continuity-"

  /** Continuity mints ids with its own prefix; every other id is ordinary. */
  predicate Ordinary(x: Id) {
    !(CONTINUITY_PREFIX <= x)
  }

  lemma MintedPrefixes(token: string, n: Id)
    ensures !Ordinary(ReplayId(token, n)) && !Ordinary(SubstituteId(token, n))
    ensures Ordinary(RebuiltId(token, n))
    ensures Ordinary(CLEAN_PARENT) && Ordinary(SEED_QUARANTINED)
  {
    var a, b, c := ReplayId(token, n), SubstituteId(token, n), RebuiltId(token, n);
    assert a[..11] == CONTINUITY_PREFIX && b[..11] == CONTINUITY_PREFIX;
    assert c[0] == 'r' && CLEAN_PARENT[1] == 'l' && SEED_QUARANTINED[0] == 'q';
  }

  function Plain(ids: seq<Id>): seq<Id> {
    if ids == [] then []
    else Plain(ids[..|ids| - 1]) + if Ordinary(ids[|ids| - 1]) then [ids[|ids| - 1]] else []
  }

  function PlainSet(s: set<Id>): set<Id> {
    set x | x in s && Ordinary(x)
  }

  function PlainDag(dag: Dag): Dag {
    map n | n in dag && Ordinary(n) :: dag[n]
  }

  function PlainStore(st: Store): Store {
    Store(PlainDag(st.dag), Plain(st.order), PlainSet(st.ledger))
  }

  lemma {:induction false} PlainAppend(a: seq<Id>, b: seq<Id>)
    ensures Plain(a + b) == Plain(a) + Plain(b)
    decreases |b|
  {
    hide Ordinary;
    if b == [] {
      assert a + b == a;
    } else {
      var n := |b| - 1;
      assert (a + b)[..|a + b| - 1] == a + b[..n];
      PlainAppend(a, b[..n]);
    }
  }

  lemma PlainOne(x: Id)
    ensures Plain([x]) == if Ordinary(x) then [x] else []
  {
    hide Ordinary;
    assert [x][..0] == [];
  }

  lemma PlainHead(ids: seq<Id>)
    requires ids != []
    ensures Plain(ids) == if Ordinary(ids[0]) then [ids[0]] + Plain(ids[1..]) else Plain(ids[1..])
  {
    assert ids == [ids[0]] + ids[1..];
    PlainAppend([ids[0]], ids[1..]);
    PlainOne(ids[0]);
    assert [] + Plain(ids[1..]) == Plain(ids[1..]);
  }

  lemma PlainCons(x: Id, rest: seq<Id>)
    ensures Plain([x] + rest) == if Ordinary(x) then [x] + Plain(rest) else Plain(rest)
  {
    PlainHead([x] + rest);
    assert ([x] + rest)[1..] == rest;
  }

  lemma {:induction false} PlainFinds(ids: seq<Id>)
    ensures forall x :: x in Plain(ids) <==> x in ids && Ordinary(x)
    decreases |ids|
  {
    hide Ordinary;
    if ids != [] {
      PlainFinds(ids[..|ids| - 1]);
      assert ids == ids[..|ids| - 1] + [ids[|ids| - 1]];
    }
  }

  lemma {:induction false} AscendingPlain(ids: seq<Id>)
    requires Ascending(ids)
    ensures Ascending(Plain(ids))
    decreases |ids|
  {
    hide Ordinary, Leq;
    if ids != [] {
      var n := |ids| - 1;
      AscendingPlain(ids[..n]);
      PlainFinds(ids[..n]);
      var p := Plain(ids[..n]);
      forall i | 0 <= i < |p| ensures Leq(p[i], ids[n]) && p[i] != ids[n] {
        assert p[i] in p;
        var j :| 0 <= j < n && ids[j] == p[i];
      }
    }
  }

  lemma SortedPlain(c: set<Id>)
    ensures Plain(SortedIds(c)) == SortedIds(PlainSet(c))
  {
    hide Ordinary, Leq;
    AscendingPlain(SortedIds(c));
    PlainFinds(SortedIds(c));
    AscendingIsCanonical(Plain(SortedIds(c)), SortedIds(PlainSet(c)));
  }

  // ---- What keeps the two worlds apart ----

  /** Ordinary nodes derive from ordinary nodes only, and no other node carries anything. */
  ghost predicate Apart(dag: Dag) {
    forall n :: n in dag ==>
      if Ordinary(n) then forall u :: u in Sources(dag[n]) ==> Ordinary(u)
      else forall c :: c in dag[n].parents ==> c.edgeClass != Carried
  }

  ghost predicate Kept(s: State) {
    && Apart(s.store.dag)
    && (forall k :: k in s.effects ==> Ordinary(s.effects[k]))
    && (forall n :: n in s.horizon ==> Ordinary(n))
    && (forall n :: n in s.repairs ==> Ordinary(n))
    && (forall n :: n in s.repairs && s.repairs[n].Pending? ==> forall u :: u in s.repairs[n].frontier ==> Ordinary(u))
  }

  /** t is s seen through ordinary ids; what only continuity and reports read is not compared. */
  ghost predicate Matches(s: State, t: State) {
    && t.store == PlainStore(s.store)
    && t.repairs == s.repairs && t.checkpoints == s.checkpoints && t.effects == s.effects
    && t.horizon == s.horizon && t.substitutes == s.substitutes
  }

  // ---- Traversals ----

  /** f holds the edges of e that end in an ordinary node, and those also start in one. */
  ghost predicate PlainEdges(e: Edges, f: Edges) {
    forall u, v :: (u, v) in f <==> (u, v) in e && Ordinary(v)
  }

  ghost predicate Inward(e: Edges) {
    forall u, v :: (u, v) in e && Ordinary(v) ==> Ordinary(u)
  }

  lemma DagEdges(dag: Dag)
    requires Apart(dag)
    ensures PlainEdges(EdgesOf(dag), EdgesOf(PlainDag(dag))) && Inward(EdgesOf(dag))
    ensures PlainEdges(ParentEdges(dag), ParentEdges(PlainDag(dag))) && Inward(ParentEdges(dag))
  {
    hide Ordinary;
    forall u, v
      ensures (u, v) in EdgesOf(PlainDag(dag)) <==> (u, v) in EdgesOf(dag) && Ordinary(v)
      ensures (u, v) in ParentEdges(PlainDag(dag)) <==> (u, v) in ParentEdges(dag) && Ordinary(v)
    {
      EdgeMeaning(dag, u, v);
      EdgeMeaning(PlainDag(dag), u, v);
    }
  }

  lemma {:induction false} WalkIsPlain(e: Edges, f: Edges, a: Id, p: seq<Id>, b: Id)
    requires PlainEdges(e, f) && Inward(e) && Ordinary(b)
    ensures Walk(e, a, p, b) <==> Walk(f, a, p, b)
    ensures Walk(e, a, p, b) ==> Ordinary(a)
    decreases |p|
  {
    hide Ordinary;
    if p != [] { WalkIsPlain(e, f, p[0], p[1..], b); }
  }

  lemma ReachIsPlain(e: Edges, f: Edges, a: Id, b: Id)
    requires PlainEdges(e, f) && Inward(e) && Ordinary(b)
    ensures Reaches(e, a, b) <==> Reaches(f, a, b)
    ensures Reaches(e, a, b) ==> Ordinary(a)
  {
    hide Ordinary, PlainEdges, Inward;
    if Reaches(e, a, b) {
      var p :| Walk(e, a, p, b);
      WalkIsPlain(e, f, a, p, b);
    }
    if Reaches(f, a, b) {
      var p :| Walk(f, a, p, b);
      WalkIsPlain(e, f, a, p, b);
    }
  }

  lemma ClosurePlain(e: Edges, f: Edges, root: Id)
    requires PlainEdges(e, f) && Inward(e) && Ordinary(root)
    ensures PlainSet(Closure(e, {root})) == Closure(f, {root})
  {
    hide Ordinary, PlainEdges, Inward, Closure, Reaches;
    forall x ensures x in PlainSet(Closure(e, {root})) <==> x in Closure(f, {root}) {
      ClosureContainsReached(e, {root}, x);
      ClosureContainsReached(f, {root}, x);
      if Ordinary(x) {
        ReachIsPlain(e, f, root, x);
      } else if Reaches(f, root, x) {
        ReachedIsPlain(e, f, root, x);
      }
    }
  }

  lemma ReachedIsPlain(e: Edges, f: Edges, a: Id, b: Id)
    requires PlainEdges(e, f) && Ordinary(a) && Reaches(f, a, b)
    ensures Ordinary(b)
  {
    hide Ordinary;
    var p :| Walk(f, a, p, b);
    if p != [] {
      var u := WalkSplitLast(f, a, p, b);
    }
  }

  lemma BlastPlain(dag: Dag, root: Id)
    requires Apart(dag) && Ordinary(root)
    ensures PlainSet(Blast(dag, root)) == Blast(PlainDag(dag), root)
  {
    hide Ordinary, EdgesOf, ParentEdges, Closure, Apart, PlainEdges, Inward;
    DagEdges(dag);
    ClosurePlain(EdgesOf(dag), EdgesOf(PlainDag(dag)), root);
  }

  lemma GapPlain(dag: Dag, covers: set<Id>)
    requires Apart(dag) && forall c :: c in covers ==> Ordinary(c)
    ensures Gap(dag, covers) == Gap(PlainDag(dag), covers)
  {
    hide Ordinary, ParentEdges, EdgesOf, Reaches, Apart, PlainEdges, Inward;
    DagEdges(dag);
    var e, f := ParentEdges(dag), ParentEdges(PlainDag(dag));
    forall x ensures x in Gap(dag, covers) <==> x in Gap(PlainDag(dag), covers) {
      forall c | c in covers ensures Reaches(e, x, c) <==> Reaches(f, x, c) {
        ReachIsPlain(e, f, x, c);
      }
      forall c | c in covers && Ordinary(x) ensures Reaches(e, c, x) <==> Reaches(f, c, x) {
        ReachIsPlain(e, f, c, x);
      }
      if x in Gap(dag, covers) {
        var c :| c in covers && Reaches(e, x, c);
        ReachIsPlain(e, f, x, c);
      }
    }
  }

  // ---- The search, step by step ----

  lemma PlainSetAdd(s: set<Id>, x: Id)
    ensures PlainSet(s + {x}) == if Ordinary(x) then PlainSet(s) + {x} else PlainSet(s)
  {
    hide Ordinary;
  }

  lemma {:induction false} DiscoverPlain(dag: Dag, order: seq<Id>, current: Id, seen: set<Id>)
    requires Apart(dag)
    ensures Plain(Discover(dag, order, current, seen)) ==
      if Ordinary(current) then Discover(PlainDag(dag), Plain(order), current, PlainSet(seen)) else []
    decreases |order|
  {
    hide Ordinary, Sources;
    if order != [] {
      var n := order[0];
      PlainHead(order);
      PlainSetAdd(seen, n);
      if n in dag && n !in seen && current in Sources(dag[n]) {
        var rest := Discover(dag, order[1..], current, seen + {n});
        DiscoverPlain(dag, order[1..], current, seen + {n});
        PlainCons(n, rest);
      } else {
        DiscoverPlain(dag, order[1..], current, seen);
      }
      if Ordinary(n) && Ordinary(current) {
        DiscoverHead(PlainDag(dag), n, Plain(order[1..]), current, PlainSet(seen));
      }
    }
  }

  lemma DiscoverHead(dag: Dag, n: Id, rest: seq<Id>, current: Id, seen: set<Id>)
    ensures Discover(dag, [n] + rest, current, seen) ==
      if n in dag && n !in seen && current in Sources(dag[n])
      then [n] + Discover(dag, rest, current, seen + {n}) else Discover(dag, rest, current, seen)
  {
    assert ([n] + rest)[1..] == rest;
  }

  lemma {:induction false} CarriedPlain(dag: Dag, kids: seq<Id>, current: Id)
    requires Apart(dag)
    ensures CarriedAmong(dag, kids, current) == CarriedAmong(PlainDag(dag), Plain(kids), current)
    decreases |kids|
  {
    hide Ordinary;
    if kids != [] {
      PlainHead(kids);
      CarriedPlain(dag, kids[1..], current);
      assert kids == [kids[0]] + kids[1..];
      CarriedHead(dag, kids[0], kids[1..], current);
      CarriedHead(PlainDag(dag), kids[0], Plain(kids[1..]), current);
    }
  }

  lemma CarriedHead(dag: Dag, n: Id, rest: seq<Id>, current: Id)
    ensures CarriedAmong(dag, [n] + rest, current) ==
      if n in dag && CarriedFrom(dag[n], current) then [n] + CarriedAmong(dag, rest, current) else CarriedAmong(dag, rest, current)
  {
    assert ([n] + rest)[1..] == rest;
    assert [] + CarriedAmong(dag, rest, current) == CarriedAmong(dag, rest, current);
  }

  lemma PlainElements(seen: set<Id>, kids: seq<Id>)
    ensures PlainSet(seen + Elements(kids)) == PlainSet(seen) + Elements(Plain(kids))
  {
    hide Ordinary;
    PlainFinds(kids);
  }

  lemma SearchNone(dag: Dag, order: seq<Id>, seen: set<Id>)
    ensures SearchFrom(dag, order, seen, []) == Search([], [])
  {
  }

  lemma NothingNew(dag: Dag, seen: set<Id>, u: Id)
    ensures seen + Elements([]) == seen
    ensures CarriedAmong(dag, [], u) == []
  {
  }

  /** The plain search takes the same step when the current node is ordinary, and none when it is not. */
  lemma SearchStep(dag: Dag, order: seq<Id>, seen: set<Id>, queue: seq<Id>, kids: seq<Id>)
    requires Apart(dag) && queue != [] && kids == Discover(dag, order, queue[0], seen)
    ensures var t := SearchFrom(PlainDag(dag), Plain(order), PlainSet(seen), Plain(queue));
            var rest := SearchFrom(PlainDag(dag), Plain(order), PlainSet(seen + Elements(kids)), Plain(queue[1..] + kids));
            t == Search(if Ordinary(queue[0]) then [queue[0]] + rest.visit else rest.visit,
                        CarriedAmong(dag, kids, queue[0]) + rest.carried)
  {
    hide Ordinary, Discover, CarriedAmong, Elements, PlainDag, PlainSet, Apart, SearchFrom, Plain;
    var u := queue[0];
    DiscoverPlain(dag, order, u, seen);
    CarriedPlain(dag, kids, u);
    PlainElements(seen, kids);
    PlainHead(queue);
    PlainAppend(queue[1..], kids);
    var rest := SearchFrom(PlainDag(dag), Plain(order), PlainSet(seen + Elements(kids)), Plain(queue[1..] + kids));
    if Ordinary(u) {
      SearchUnfolds(PlainDag(dag), Plain(order), PlainSet(seen), Plain(queue));
      assert Plain(queue)[1..] == Plain(queue[1..]);
    } else {
      NothingNew(PlainDag(dag), PlainSet(seen), u);
      assert Plain(queue[1..] + kids) == Plain(queue);
      assert [] + rest.carried == rest.carried;
    }
  }

  lemma {:induction false} SearchPlain(dag: Dag, order: seq<Id>, seen: set<Id>, queue: seq<Id>)
    requires Apart(dag)
    ensures var s := SearchFrom(dag, order, seen, queue);
            var t := SearchFrom(PlainDag(dag), Plain(order), PlainSet(seen), Plain(queue));
            Plain(s.visit) == t.visit && s.carried == t.carried
    decreases Unseen(dag, seen), |queue|
  {
    hide Ordinary, Discover, CarriedAmong, Elements, PlainDag, PlainSet, Apart, SearchFrom;
    if queue == [] {
      SearchNone(dag, order, seen);
      SearchNone(PlainDag(dag), Plain(order), PlainSet(seen));
    } else {
      var kids := Discover(dag, order, queue[0], seen);
      DiscoverMakesProgress(dag, order, queue[0], seen);
      SearchPlain(dag, order, seen + Elements(kids), queue[1..] + kids);
      SearchUnfolds(dag, order, seen, queue);
      SearchStep(dag, order, seen, queue, kids);
      PlainCons(queue[0], SearchFrom(dag, order, seen + Elements(kids), queue[1..] + kids).visit);
    }
  }

  // ---- Commits and quarantine ----

  lemma CommitPlain(st: Store, p: Payload)
    requires Apart(st.dag)
    requires if Ordinary(p.id) then forall u :: u in Sources(p) ==> Ordinary(u) else forall c :: c in p.parents ==> c.edgeClass != Carried
    ensures Apart(Commit(st, p).dag)
    ensures PlainStore(Commit(st, p)) == if Ordinary(p.id) then Commit(PlainStore(st), p) else PlainStore(st)
  {
    hide Ordinary, Sources, PlainDag, Plain, PlainSet;
    PlainAppend(st.order, [p.id]);
    PlainOne(p.id);
    PlainGrown(st.dag, p);
    assert Plain(st.order) + [] == Plain(st.order);
  }

  lemma PlainGrown(dag: Dag, p: Payload)
    ensures PlainDag(dag[p.id := p]) == if Ordinary(p.id) then PlainDag(dag)[p.id := p] else PlainDag(dag) - {p.id}
    ensures p.id in PlainDag(dag) <==> p.id in dag && Ordinary(p.id)
    ensures !Ordinary(p.id) ==> PlainDag(dag) - {p.id} == PlainDag(dag)
  {
    hide Ordinary;
  }

  lemma QuarantinePlain(st: Store, c: set<Id>)
    ensures PlainStore(Quarantine(st, c)) == Quarantine(PlainStore(st), PlainSet(c))
  {
    hide Ordinary;
  }

  // ---- Dispositions ----

  lemma {:induction false} FrontierPlain(covers: seq<Id>, c: set<Id>)
    requires forall u :: u in covers ==> Ordinary(u)
    ensures FrontierOf(covers, c) == FrontierOf(covers, PlainSet(c))
    ensures forall u :: u in FrontierOf(covers, c) ==> Ordinary(u)
  {
    hide Ordinary;
    if covers != [] { FrontierPlain(covers[1..], c); }
  }

  lemma DispositionPlain(s: State, t: State, p: Payload, c: set<Id>)
    requires Kept(s) && Matches(s, t)
    requires forall u :: u in p.covers ==> Ordinary(u)
    ensures Disposition(s, p, c) == Disposition(t, p, PlainSet(c))
    ensures Disposition(s, p, c).Pending? ==> forall u :: u in Disposition(s, p, c).frontier ==> Ordinary(u)
  {
    hide Ordinary, FirstCheckpoint, FrontierOf;
    FrontierPlain(p.covers, c);
  }

  lemma CarriedIsOrdinary(st: Store, root: Id, n: Id)
    requires Apart(st.dag) && n in BlastSearch(st, root).carried
    ensures n in st.dag && Ordinary(n)
    ensures forall u :: u in st.dag[n].covers ==> Ordinary(u)
  {
    hide Ordinary, SearchFrom;
    SearchClassifies(st.dag, st.order, {root}, [root], n);
    var u :| u in BlastSearch(st, root).visit && u in Sources(st.dag[n]) && CarriedFrom(st.dag[n], u) == true;
    assert forall x :: x in st.dag[n].covers ==> x in Sources(st.dag[n]);
  }

  lemma BlastRepairsMatch(s: State, t: State, root: Id)
    requires Kept(s) && Matches(s, t) && Ordinary(root)
    ensures BlastRepairs(s, root) == BlastRepairs(t, root)
    ensures Kept(s.(repairs := BlastRepairs(s, root)))
  {
    hide Ordinary, Disposition, Closure, EdgesOf, SearchFrom, Apart, PlainDag, Plain;
    BlastPlain(s.store.dag, root);
    SearchPlain(s.store.dag, s.store.order, {root}, [root]);
    PlainOne(root);
    PlainSetOne(root);
    var affected := Elements(BlastSearch(s.store, root).carried);
    forall n | n in affected ensures n in s.store.dag && n in PlainDag(s.store.dag) && PlainDag(s.store.dag)[n] == s.store.dag[n] {
      CarriedIsOrdinary(s.store, root, n);
      PlainDagHas(s.store.dag, n);
    }
    forall n ensures n in affected ==>
      n in s.store.dag && Disposition(s, s.store.dag[n], Blast(s.store.dag, root)) == Disposition(t, s.store.dag[n], Blast(t.store.dag, root))
    {
      if n in affected {
        CarriedIsOrdinary(s.store, root, n);
        DispositionPlain(s, t, s.store.dag[n], Blast(s.store.dag, root));
      }
    }
    forall n | n in BlastRepairs(s, root) && BlastRepairs(s, root)[n].Pending?
      ensures forall u :: u in BlastRepairs(s, root)[n].frontier ==> Ordinary(u)
    {
      if n in affected {
        CarriedIsOrdinary(s.store, root, n);
        DispositionPlain(s, t, s.store.dag[n], Blast(s.store.dag, root));
      }
    }
    forall n | n in BlastRepairs(s, root) ensures Ordinary(n) {
      if n in affected { CarriedIsOrdinary(s.store, root, n); }
    }
    assert BlastRepairs(s, root).Keys == BlastRepairs(t, root).Keys;
  }

  lemma PlainSetOne(x: Id)
    requires Ordinary(x)
    ensures PlainSet({x}) == {x}
  {
  }

  lemma PlainDagHas(dag: Dag, n: Id)
    requires n in dag && Ordinary(n)
    ensures n in PlainDag(dag) && PlainDag(dag)[n] == dag[n]
  {
  }

  lemma RecurMatch(on: Config, off: Config, s: State, t: State, n: Id, now: int)
    requires Kept(s) && Matches(s, t) && Ordinary(n)
    ensures Kept(Recur(on, s, n, now)) && Matches(Recur(on, s, n, now), Recur(off, t, n, now))
  {
    hide Ordinary, Closure, EdgesOf, BlastRepairs, Apart, PlainStore, Withdrawn;
    BlastRepairsMatch(s, t, n);
  }

  lemma {:induction false} RecurAllMatch(on: Config, off: Config, s: State, t: State, ids: seq<Id>, active: set<Id>, now: int)
    requires Kept(s) && Matches(s, t) && forall n :: n in active ==> Ordinary(n)
    ensures var a, b := RecurAll(on, s, ids, active, now), RecurAll(off, t, Plain(ids), active, now);
            Kept(a) && Matches(a, b)
    decreases |ids|
  {
    hide Ordinary, Recur, Kept, Matches;
    if ids != [] {
      var n := |ids| - 1;
      RecurAllMatch(on, off, s, t, ids[..n], active, now);
      if Ordinary(ids[n]) {
        RecurAllAppend(off, t, Plain(ids[..n]), ids[n], active, now);
        if ids[n] in active {
          RecurMatch(on, off, RecurAll(on, s, ids[..n], active, now), RecurAll(off, t, Plain(ids[..n]), active, now), ids[n], now);
        }
      } else {
        assert Plain(ids) == Plain(ids[..n]) + [] == Plain(ids[..n]);
      }
    }
  }

  lemma RecurAllAppend(cfg: Config, s: State, ids: seq<Id>, n: Id, active: set<Id>, now: int)
    ensures RecurAll(cfg, s, ids + [n], active, now) ==
      var before := RecurAll(cfg, s, ids, active, now);
      if n in active then Recur(cfg, before, n, now) else before
  {
    hide Recur;
    assert (ids + [n])[..|ids|] == ids;
  }

  lemma SameActive(s: State, t: State, now: int)
    requires t.horizon == s.horizon
    ensures Active(s, now) == Active(t, now)
    ensures (forall n :: n in s.horizon ==> Ordinary(n)) ==> forall n :: n in Active(s, now) ==> Ordinary(n)
  {
    hide Ordinary;
  }

  lemma AssessMatch(on: Config, off: Config, s: State, t: State, root: Id, now: int)
    requires Kept(s) && Matches(s, t) && Ordinary(root)
    ensures Kept(Assess(on, s, root, now)) && Matches(Assess(on, s, root, now), Assess(off, t, root, now))
    ensures Assess(on, s, root, now).store == s.store
  {
    hide Ordinary, Closure, EdgesOf, BlastRepairs, Apart, PlainStore, RecurAll, Active;
    var s1, t1 := s.(repairs := BlastRepairs(s, root)), t.(repairs := BlastRepairs(t, root));
    var c := Blast(s.store.dag, root);
    BlastRepairsMatch(s, t, root);
    SameActive(s1, t1, now);
    BlastPlain(s.store.dag, root);
    SortedPlain(c);
    StorePlain(s, t);
    RecurAllMatch(on, off, s1, t1, SortedIds(c), Active(s1, now), now);
    RecurAllKeeps(on, s1, SortedIds(c), Active(s1, now), now);
  }

  lemma StorePlain(s: State, t: State)
    requires Matches(s, t)
    ensures t.store.dag == PlainDag(s.store.dag) && t.store.ledger == PlainSet(s.store.ledger)
  {
  }

  // ---- Submission ----

  predicate OrdinaryPayload(p: Payload) {
    Ordinary(p.id) && forall u :: u in Sources(p) ==> Ordinary(u)
  }

  lemma RejectFields(cfg: Config, s: State, p: Payload, root: Id, now: int)
    ensures var j := Assess(cfg, s.(store := Commit(s.store, p)), root, now);
            var t := Reject(cfg, s, p, root, now).0;
            && t.store == Quarantine(Commit(s.store, p), {p.id})
            && t.repairs == j.repairs && t.checkpoints == s.checkpoints && t.effects == s.effects
            && t.horizon == s.horizon && t.substitutes == s.substitutes
            && j.checkpoints == s.checkpoints && j.effects == s.effects && j.horizon == s.horizon && j.substitutes == s.substitutes
  {
    hide Closure, EdgesOf, Assess, FindReplacement, RejectionEvent, Offered, Commit;
    AssessKeeps(cfg, s.(store := Commit(s.store, p)), root, now);
  }

  lemma RejectMatch(on: Config, off: Config, s: State, t: State, p: Payload, root: Id, now: int)
    requires Kept(s) && Matches(s, t) && OrdinaryPayload(p) && Ordinary(root)
    ensures var a, b := Reject(on, s, p, root, now).0, Reject(off, t, p, root, now).0; Kept(a) && Matches(a, b)
  {
    hide Ordinary, Reject, Assess, Apart, PlainStore, PlainSet, Commit, Quarantine, Sources;
    RejectFields(on, s, p, root, now);
    RejectFields(off, t, p, root, now);
    CommitPlain(s.store, p);
    var s1, t1 := s.(store := Commit(s.store, p)), t.(store := Commit(t.store, p));
    AssessMatch(on, off, s1, t1, root, now);
    QuarantinePlain(s1.store, {p.id});
    PlainSetOne(p.id);
    QuarantineKeepsDag(s1.store, {p.id});
  }

  lemma QuarantineKeepsDag(st: Store, c: set<Id>)
    ensures Quarantine(st, c).dag == st.dag
  {
  }

  lemma AcceptMatch(s: State, t: State, p: Payload)
    requires Kept(s) && Matches(s, t) && OrdinaryPayload(p)
    requires FirstMismatch(p.parents, s.store.dag) == FirstMismatch(p.parents, t.store.dag)
    ensures Kept(Accept(s, p).0) && Matches(Accept(s, p).0, Accept(t, p).0)
  {
    hide Ordinary, Apart, PlainStore, FirstMismatch, Completed, Sources;
    CommitPlain(s.store, p);
    StoreMembers(s, t, p.id);
  }

  lemma StoreMembers(s: State, t: State, x: Id)
    requires Matches(s, t) && Ordinary(x)
    ensures x in t.store.dag <==> x in s.store.dag
    ensures x in s.store.dag ==> t.store.dag[x] == s.store.dag[x]
    ensures x in t.store.ledger <==> x in s.store.ledger
  {
  }

  lemma MismatchPlain(parents: seq<Commitment>, s: State, t: State)
    requires Matches(s, t) && forall c :: c in parents ==> Ordinary(c.parent)
    ensures FirstMismatch(parents, s.store.dag) == FirstMismatch(parents, t.store.dag)
  {
    hide Ordinary, Matches, FirstMismatch;
    forall c | c in parents
      ensures (c.parent in s.store.dag <==> c.parent in t.store.dag)
           && (c.parent in s.store.dag ==> s.store.dag[c.parent].digest == t.store.dag[c.parent].digest)
    {
      StoreMembers(s, t, c.parent);
    }
    SameFirstMismatch(parents, s.store.dag, t.store.dag);
  }

  lemma {:induction false} TaintedPlain(ids: seq<Id>, s: State, t: State)
    requires Matches(s, t) && forall x :: x in ids ==> Ordinary(x)
    ensures Tainted(ids, s.store.ledger) == Tainted(ids, t.store.ledger)
  {
    hide Ordinary, Matches;
    if ids != [] {
      StoreMembers(s, t, ids[0]);
      TaintedPlain(ids[1..], s, t);
    }
  }

  lemma EvaluatePlain(p: Payload, s: State, t: State, auth: Auth, now: int)
    requires Matches(s, t) && forall u :: u in ParentSet(p) ==> Ordinary(u)
    ensures Evaluate(p, s.store, auth, now) == Evaluate(p, t.store, auth, now)
  {
    hide Ordinary, Matches, Evaluate, ParentSet;
    forall u | u in ParentSet(p) ensures (u in s.store.dag <==> u in t.store.dag) && (u in s.store.ledger <==> u in t.store.ledger) {
      StoreMembers(s, t, u);
    }
    SameEvaluation(p, s.store, t.store, auth, now);
  }

  lemma GapMatches(p: Payload, s: State, t: State)
    requires Kept(s) && Matches(s, t) && OrdinaryPayload(p)
    ensures WithGap(p, s.store.dag) == WithGap(p, t.store.dag)
    ensures OrdinaryPayload(WithGap(p, s.store.dag))
  {
    hide Ordinary, Gap, Apart, PlainDag;
    StorePlain(s, t);
    assert forall c :: c in Elements(p.covers) ==> c in Sources(p);
    GapPlain(s.store.dag, Elements(p.covers));
    assert Sources(WithGap(p, s.store.dag)) == Sources(p);
  }

  lemma OrdinaryParts(p: Payload)
    requires OrdinaryPayload(p)
    ensures Ordinary(p.id)
    ensures forall x :: x in p.covers ==> Ordinary(x)
    ensures forall c :: c in p.parents ==> Ordinary(c.parent)
    ensures forall u :: u in ParentSet(p) ==> Ordinary(u)
  {
    hide Ordinary;
    forall c | c in p.parents ensures Ordinary(c.parent) {
      assert c.parent in ParentSet(p);
      assert c.parent in Sources(p);
    }
    assert forall x :: x in p.covers ==> x in Sources(p);
  }

  lemma SubmitMatch(on: Config, off: Config, s: State, t: State, sub: Submission, now: int)
    requires Kept(s) && Matches(s, t) && OrdinaryPayload(sub.payload)
    ensures var a, b := Submit(on, s, sub, now).0, Submit(off, t, sub, now).0; Kept(a) && Matches(a, b)
  {
    hide Ordinary, OrdinaryPayload, Kept, Matches, Submit, Reject, Accept, Evaluate, FirstMismatch, Tainted, WithGap, ParentSet;
    var p := WithGap(sub.payload, s.store.dag);
    GapMatches(sub.payload, s, t);
    OrdinaryParts(sub.payload);
    OrdinaryParts(p);
    SubmitBranches(on, s, sub, now);
    SubmitBranches(off, t, sub, now);
    StoreMembers(s, t, sub.payload.id);
    TaintedPlain(sub.payload.covers, s, t);
    EvaluatePlain(sub.payload, s, t, sub.auth, now);
    DecisionMeaning(sub.payload, s.store, sub.auth, now);
    match Evaluate(sub.payload, s.store, sub.auth, now) {
      case TaintedParent(root) => RejectMatch(on, off, s, t, p, root, now);
      case Admit =>
        MismatchPlain(p.parents, s, t);
        AcceptMatch(s, t, p);
      case _ =>
    }
  }

  // ---- Designation ----

  lemma ContainFields(cfg: Config, s: State, root: Id, now: int)
    ensures Contain(cfg, s, root, now).repairs == Assess(cfg, s, root, now).repairs
    ensures var j := Assess(cfg, s, root, now);
            j.checkpoints == s.checkpoints && j.effects == s.effects && j.horizon == s.horizon && j.substitutes == s.substitutes
  {
    hide Closure, EdgesOf, Assess;
    AssessKeeps(cfg, s, root, now);
  }

  lemma ContainMatch(on: Config, off: Config, s: State, t: State, root: Id, now: int)
    requires Kept(s) && Matches(s, t) && Ordinary(root)
    ensures var a, b := Contain(on, s, root, now), Contain(off, t, root, now); Kept(a) && Matches(a, b)
  {
    hide Ordinary, Contain, Assess, Apart, PlainStore, PlainSet, Quarantine, Closure, EdgesOf;
    ContainFields(on, s, root, now);
    ContainFields(off, t, root, now);
    ContainEffect(on, s, root, now);
    ContainEffect(off, t, root, now);
    AssessMatch(on, off, s, t, root, now);
    var c := Blast(s.store.dag, root);
    QuarantinePlain(s.store, c);
    QuarantineKeepsDag(s.store, c);
    BlastPlain(s.store.dag, root);
    StorePlain(s, t);
  }

  lemma EmissionIsApart(s: State, d: Dependent, token: string, at: int)
    requires Emit(s, d, token, at).Some?
    ensures !Ordinary(Emit(s, d, token, at).value.payload.id)
    ensures forall c :: c in Emit(s, d, token, at).value.payload.parents ==> c.edgeClass != Carried
  {
    hide Ordinary, Emit, ReplayId, SubstituteId;
    EmissionSources(s, d, token, at);
    MintedPrefixes(token, d.node);
  }

  /** Continuity is invisible through ordinary ids. */
  lemma {:induction false} ContinueMatch(snapshot: State, s: State, t: State, deps: seq<Dependent>, token: string, at: int)
    requires Kept(s) && Matches(s, t)
    ensures var a := Continue(snapshot, s, deps, token, at); Kept(a) && Matches(a, t)
    decreases |deps|
  {
    hide Ordinary, Apart, PlainStore, Emit;
    if deps != [] {
      var n := |deps| - 1;
      ContinueMatch(snapshot, s, t, deps[..n], token, at);
      if Emit(snapshot, deps[n], token, at).Some? {
        EmissionIsApart(snapshot, deps[n], token, at);
        CommitPlain(Continue(snapshot, s, deps[..n], token, at).store, Emit(snapshot, deps[n], token, at).value.payload);
      }
    }
  }

  lemma CommitRebuilt(s: State, t: State, r: Repair, comp: Id, token: string, summarizer: string, author: string, at: int)
    requires Kept(s) && Matches(s, t) && Ordinary(comp) && r.Pending? && forall u :: u in r.frontier ==> Ordinary(u)
    ensures var id := RebuiltId(token, comp);
            var p := RebuiltPayload(id, r, summarizer, author);
            var a := s.(store := Commit(s.store, p), horizon := s.horizon[id := at], repairs := s.repairs[comp := Reducible(r.frontier, id)]);
            var b := t.(store := Commit(t.store, p), horizon := t.horizon[id := at], repairs := t.repairs[comp := Reducible(r.frontier, id)]);
            Kept(a) && Matches(a, b)
  {
    hide Ordinary, Apart, PlainStore, Commit, RebuiltId, RebuiltPayload, Sources, Elements;
    var id := RebuiltId(token, comp);
    MintedPrefixes(token, comp);
    RebuiltSources(id, r, summarizer, author);
    FrontierElements(r.frontier);
    RebuiltHasId(id, r, summarizer, author);
    CommitPlain(s.store, RebuiltPayload(id, r, summarizer, author));
  }

  /** The compaction a reconstruction works on, as both runs see it. */
  function CoversIn(st: Store, comp: Id): seq<Id> {
    if comp in st.dag then st.dag[comp].covers else []
  }

  ghost predicate Answers(st: Store, root: Id, comp: Id, r: Repair)
    requires r.Pending?
  {
    AdapterAgrees(st.dag, root, CoversIn(st, comp), r.frontier)
  }

  /** The adapter derives the same frontier from either graph. */
  lemma AnswersMatch(s0: State, t0: State, root: Id, comp: Id, r: Repair)
    requires Kept(s0) && Matches(s0, t0) && Ordinary(root) && Ordinary(comp) && r.Pending?
    ensures Answers(s0.store, root, comp, r) <==> Answers(t0.store, root, comp, r)
  {
    hide Ordinary, Apart, PlainEdges, Inward, Closure, ParentEdges, EdgesOf, FrontierOf, PlainDag;
    var dag := s0.store.dag;
    StorePlain(s0, t0);
    StoreMembers(s0, t0, comp);
    DagEdges(dag);
    ClosurePlain(ParentEdges(dag), ParentEdges(PlainDag(dag)), root);
    var covers := CoversIn(s0.store, comp);
    CoversOrdinary(dag, comp);
    FrontierPlain(covers, ParentClosure(dag, root));
  }

  lemma CoversOrdinary(dag: Dag, comp: Id)
    requires Apart(dag) && Ordinary(comp)
    ensures comp in dag ==> forall u :: u in dag[comp].covers ==> Ordinary(u)
  {
    hide Ordinary;
    if comp in dag {
      assert forall u :: u in dag[comp].covers ==> u in Sources(dag[comp]);
    }
  }

  /** The remote adapter takes requests signed with its own key only. */
  predicate Serves(cfg: Config, key: string) {
    cfg.recovery.Remote? && key != "" && key == cfg.recovery.identity
  }

  /** Inline reconstruction signs with a key of its own; for the remote one both keys must serve or neither. */
  ghost predicate KeysServe(cfg: Config, s0: State, s: State, t: State, root: Id, comp: Id, r: Repair)
    requires r.Pending?
  {
    cfg.recovery.Remote? && Answers(s0.store, root, comp, r) ==> (Serves(cfg, s.adapterKey) <==> Serves(cfg, t.adapterKey))
  }

  /** A rebuilt node, with the key it is signed with left out. */
  function Reintegrated(cfg: Config, s: State, comp: Id, r: Repair, token: string, summarizer: string, author: string, now: int): State
    requires r.Pending?
  {
    var id := RebuiltId(token, comp);
    s.(store := Commit(s.store, RebuiltPayload(id, r, summarizer, author)), horizon := s.horizon[id := now + cfg.horizonSeconds],
       repairs := s.repairs[comp := Reducible(r.frontier, id)])
  }

  lemma RebuildUnfolds(cfg: Config, snapshot: Store, s: State, root: Id, comp: Id, r: Repair, token: string, now: int)
    requires r.Pending?
    ensures Rebuild(cfg, snapshot, s, root, comp, r, token, now) ==
      match cfg.recovery
      case Inline =>
        var key := "key:" + RebuiltId(token, comp);
        Reintegrated(cfg, s, comp, r, token, "", key, now).(adapterKey := key)
      case Remote(identity) =>
        if !Answers(snapshot, root, comp, r) then s.(repairs := s.repairs[comp := Irreducible(BackendUnavailable)])
        else if s.adapterKey == "" || s.adapterKey != identity then s.(repairs := s.repairs[comp := Irreducible(InvalidIdentity)])
        else Reintegrated(cfg, s, comp, r, token, "verified_checkpoint_reconstruction", identity, now)
  {
    hide AdapterAgrees, Commit, RebuiltPayload, RebuiltId;
  }

  lemma RebuildMatch(cfg: Config, off: Config, s0: State, t0: State, s: State, t: State, root: Id, comp: Id, r: Repair, token: string, now: int)
    requires Kept(s0) && Matches(s0, t0) && Ordinary(root)
    requires Kept(s) && Matches(s, t) && Ordinary(comp) && r.Pending? && forall u :: u in r.frontier ==> Ordinary(u)
    requires off == cfg.(continuity := false) && KeysServe(cfg, s0, s, t, root, comp, r)
    ensures var a, b := Rebuild(cfg, s0.store, s, root, comp, r, token, now), Rebuild(off, t0.store, t, root, comp, r, token, now);
            && Kept(a) && Matches(a, b)
            && (cfg.recovery.Remote? ==> a.adapterKey == s.adapterKey && b.adapterKey == t.adapterKey)
  {
    hide Ordinary, Kept, Matches, Rebuild, Answers, RebuiltId;
    AnswersMatch(s0, t0, root, comp, r);
    RebuildUnfolds(cfg, s0.store, s, root, comp, r, token, now);
    RebuildUnfolds(off, t0.store, t, root, comp, r, token, now);
    match cfg.recovery {
      case Inline =>
        var key := "key:" + RebuiltId(token, comp);
        CommitRebuilt(s, t, r, comp, token, "", key, now + cfg.horizonSeconds);
        var a, b := Reintegrated(cfg, s, comp, r, token, "", key, now), Reintegrated(off, t, comp, r, token, "", key, now);
        KeyIsExtra(a, b, a.(adapterKey := key), b.(adapterKey := key));
      case Remote(identity) =>
        CommitRebuilt(s, t, r, comp, token, "verified_checkpoint_reconstruction", identity, now + cfg.horizonSeconds);
        FailedRepair(s, t, comp, BackendUnavailable);
        FailedRepair(s, t, comp, InvalidIdentity);
    }
  }

  lemma FailedRepair(s: State, t: State, comp: Id, reason: Reason)
    requires Kept(s) && Matches(s, t) && Ordinary(comp)
    ensures Kept(s.(repairs := s.repairs[comp := Irreducible(reason)]))
    ensures Matches(s.(repairs := s.repairs[comp := Irreducible(reason)]), t.(repairs := t.repairs[comp := Irreducible(reason)]))
  {
    hide Ordinary, Apart, PlainStore;
  }

  lemma KeyIsExtra(s: State, t: State, s': State, t': State)
    requires Kept(s) && Matches(s, t)
    requires s' == s.(adapterKey := s'.adapterKey) && t' == t.(adapterKey := t'.adapterKey)
    ensures Kept(s') && Matches(s', t')
  {
    hide Ordinary, Apart, PlainStore;
  }

  lemma RebuiltHasId(id: Id, r: Repair, summarizer: string, author: string)
    requires r.Pending?
    ensures RebuiltPayload(id, r, summarizer, author).id == id
  {
  }

  lemma FrontierElements(frontier: seq<Id>)
    requires forall u :: u in frontier ==> Ordinary(u)
    ensures forall u :: u in Elements(frontier) ==> Ordinary(u)
  {
    hide Ordinary;
  }

  /** In remote mode both runs' keys must serve, or neither, wherever the adapter answers. */
  ghost predicate KeysServeAll(cfg: Config, s0: State, s: State, t: State, root: Id) {
    forall comp :: comp in PendingIn(s0.repairs) ==> KeysServe(cfg, s0, s, t, root, comp, s0.repairs[comp])
  }

  lemma {:induction false} RebuildAllMatch(cfg: Config, off: Config, s0: State, t0: State, root: Id, comps: seq<Id>, token: string, now: int)
    requires Kept(s0) && Matches(s0, t0) && Ordinary(root)
    requires off == cfg.(continuity := false) && KeysServeAll(cfg, s0, s0, t0, root)
    requires Elements(comps) <= PendingIn(s0.repairs)
    ensures Elements(comps) <= PendingIn(t0.repairs)
    ensures var a, b := RebuildAll(cfg, s0, s0, root, comps, token, now), RebuildAll(off, t0, t0, root, comps, token, now);
            && Kept(a) && Matches(a, b)
            && (cfg.recovery.Remote? ==> a.adapterKey == s0.adapterKey && b.adapterKey == t0.adapterKey)
    decreases |comps|
  {
    hide Ordinary, Apart, PlainStore, Rebuild, Answers;
    if comps != [] {
      var n := |comps| - 1;
      assert Elements(comps[..n]) <= Elements(comps);
      assert comps[n] in Elements(comps);
      RebuildAllMatch(cfg, off, s0, t0, root, comps[..n], token, now);
      assert KeysServe(cfg, s0, s0, t0, root, comps[n], s0.repairs[comps[n]]);
      RebuildMatch(cfg, off, s0, t0, RebuildAll(cfg, s0, s0, root, comps[..n], token, now),
                   RebuildAll(off, t0, t0, root, comps[..n], token, now), root, comps[n], s0.repairs[comps[n]], token, now);
    }
  }

  lemma ReconstructMatch(cfg: Config, s: State, t: State, root: Id, token: string, now: int)
    requires Kept(s) && Matches(s, t) && Ordinary(root) && KeysServeAll(cfg, s, s, t, root)
    ensures var a, b := Reconstruct(cfg, s, root, token, now), Reconstruct(cfg.(continuity := false), t, root, token, now);
            Kept(a) && Matches(a, b)
  {
    hide Ordinary, Apart, PlainStore, RebuildAll, KeysServe;
    var comps := SortedIds(PendingIn(s.repairs));
    assert Elements(comps) == PendingIn(s.repairs);
    RebuildAllMatch(cfg, cfg.(continuity := false), s, t, root, comps, token, now);
  }

  /** What reconstruction starts from: the designation contained, and with continuity its records emitted. */
  ghost function Continued(cfg: Config, s: State, root: Id, token: string, now: int): State {
    Continuity(cfg, Contain(cfg, s, root, now), Blast(s.store.dag, root), token, now)
  }

  lemma ContinuedMatch(cfg: Config, s: State, t: State, root: Id, token: string, now: int)
    requires Kept(s) && Matches(s, t) && Ordinary(root)
    ensures var a, b := Continued(cfg, s, root, token, now), Continued(cfg.(continuity := false), t, root, token, now);
            Kept(a) && Matches(a, b)
  {
    hide Ordinary, Kept, Matches, Contain, Continue, Closure, EdgesOf, Critical;
    var off := cfg.(continuity := false);
    var s1, t1 := Contain(cfg, s, root, now), Contain(off, t, root, now);
    ContainMatch(cfg, off, s, t, root, now);
    ContinueMatch(s1, s1, t1, Critical(s1.store.dag, s1.store.order, Blast(s.store.dag, root)), token, now);
  }

  lemma DesignateMatch(cfg: Config, s: State, t: State, root: Id, token: string, now: int)
    requires Kept(s) && Matches(s, t) && Ordinary(root)
    requires var a, b := Continued(cfg, s, root, token, now), Continued(cfg.(continuity := false), t, root, token, now);
             KeysServeAll(cfg, a, a, b, root)
    ensures var a, b := Designate(cfg, s, root, token, now).0, Designate(cfg.(continuity := false), t, root, token, now).0;
            Kept(a) && Matches(a, b)
  {
    hide Ordinary, Kept, Matches, Contain, Continuity, Reconstruct, Closure, EdgesOf, KeysServeAll;
    StoreMembers(s, t, root);
    if root in s.store.dag && root !in s.store.ledger {
      ContinuedMatch(cfg, s, t, root, token, now);
      SameBlastArgument(cfg, s, root, token, now);
      SameBlastArgument(cfg.(continuity := false), t, root, token, now);
      ReconstructMatch(cfg, Continued(cfg, s, root, token, now), Continued(cfg.(continuity := false), t, root, token, now), root, token, now);
    }
  }

  lemma SameBlastArgument(cfg: Config, s: State, root: Id, token: string, now: int)
    requires root in s.store.dag && root !in s.store.ledger
    ensures Designate(cfg, s, root, token, now).0 == Reconstruct(cfg, Continued(cfg, s, root, token, now), root, token, now)
  {
    hide Contain, Continuity, Reconstruct, Closure, EdgesOf;
  }

  // ---- Remote reconstruction: continuity overwrites the adapter's key ----

  /** The disposition the remote path gives a pending compaction. */
  ghost function RemoteOutcome(cfg: Config, s0: State, root: Id, comp: Id, token: string): Repair
    requires cfg.recovery.Remote? && comp in PendingIn(s0.repairs)
  {
    var r := s0.repairs[comp];
    if !Answers(s0.store, root, comp, r) then Irreducible(BackendUnavailable)
    else if s0.adapterKey == "" || s0.adapterKey != cfg.recovery.identity then Irreducible(InvalidIdentity)
    else Reducible(r.frontier, RebuiltId(token, comp))
  }

  lemma {:induction false} RemoteDispositions(cfg: Config, s0: State, root: Id, comps: seq<Id>, comp: Id, token: string, now: int)
    requires cfg.recovery.Remote? && Elements(comps) <= PendingIn(s0.repairs)
    ensures var a := RebuildAll(cfg, s0, s0, root, comps, token, now);
            && a.adapterKey == s0.adapterKey
            && (comp in comps ==> comp in PendingIn(s0.repairs) && comp in a.repairs && a.repairs[comp] == RemoteOutcome(cfg, s0, root, comp, token))
    decreases |comps|
  {
    hide Rebuild, Answers, RebuiltId, Commit, RebuiltPayload;
    if comps != [] {
      var n := |comps| - 1;
      assert Elements(comps[..n]) <= Elements(comps);
      assert comps[n] in Elements(comps);
      RemoteDispositions(cfg, s0, root, comps[..n], comp, token, now);
      RebuildUnfolds(cfg, s0.store, RebuildAll(cfg, s0, s0, root, comps[..n], token, now), root, comps[n], s0.repairs[comps[n]], token, now);
      assert comp in comps <==> comp in comps[..n] || comp == comps[n];
      assert comp in comps ==> comp in Elements(comps);
    }
  }

  lemma ReconstructDisposes(cfg: Config, s0: State, root: Id, comp: Id, token: string, now: int)
    requires cfg.recovery.Remote? && comp in PendingIn(s0.repairs)
    ensures var a := Reconstruct(cfg, s0, root, token, now);
            comp in a.repairs && a.repairs[comp] == RemoteOutcome(cfg, s0, root, comp, token)
  {
    hide RebuildAll, RemoteOutcome;
    var comps := SortedIds(PendingIn(s0.repairs));
    assert Elements(comps) == PendingIn(s0.repairs);
    RemoteDispositions(cfg, s0, root, comps, comp, token, now);
  }

  lemma PendingOrdinary(s: State, comp: Id)
    requires Kept(s) && comp in PendingIn(s.repairs)
    ensures Ordinary(comp)
  {
    hide Ordinary;
  }

  // ---- Single requests ----

  /** No id that the request names was minted by continuity. */
  predicate OrdinaryRequest(r: Request) {
    match r
    case SubmitCandidate(sub, _) => OrdinaryPayload(sub.payload)
    case ContextCompacted(ev, _) => Ordinary(ev.node) && forall n :: n in ev.nodes ==> Ordinary(n)
    case SeedRoot(root, _) => Ordinary(root)
    case DesignatePoison(root, _, _) => Ordinary(root)
    case Observe(n, _) => Ordinary(n)
    case DeclareCheckpoint(_) => true
    case DeclareEffect(_, n) => Ordinary(n)
    case SubstituteDeclared(target, source, _) => Ordinary(target) && Ordinary(source)
    case ExposeNode(n) => Ordinary(n)
    case RenewTrust(n, _) => Ordinary(n)
  }

  lemma SeedMatch(s: State, t: State, root: Id, key: string)
    requires Kept(s) && Matches(s, t) && Ordinary(root)
    ensures Kept(Seed(s, root, key).0) && Matches(Seed(s, root, key).0, Seed(t, root, key).0)
  {
    hide Ordinary, Apart, PlainStore;
    var p := Bare(root).(digest := "seed", author := key);
    assert Sources(p) == {};
    CommitPlain(s.store, p);
    StoreMembers(s, t, root);
  }

  lemma CompactMatch(s: State, t: State, ev: CompactionEvent, valid: bool)
    requires Kept(s) && Matches(s, t) && Ordinary(ev.node) && forall n :: n in ev.nodes ==> Ordinary(n)
    ensures Kept(Compact(s, ev, valid).0) && Matches(Compact(s, ev, valid).0, Compact(t, ev, valid).0)
  {
    hide Ordinary, Apart, PlainStore, Tainted;
    forall n | n in ev.nodes ensures (n in t.store.dag <==> n in s.store.dag) && (n in s.store.dag ==> t.store.dag[n] == s.store.dag[n]) {
      StoreMembers(s, t, n);
    }
    TaintedPlain(ev.nodes, s, t);
    var p := CompactionPayload(s.store.dag, ev);
    assert p.parents == CompactionPayload(t.store.dag, ev).parents;
    forall u | u in Sources(p) ensures Ordinary(u) {
    }
    CommitPlain(s.store, p);
  }

  lemma HorizonMatch(s: State, t: State, n: Id, at: int)
    requires Kept(s) && Matches(s, t) && Ordinary(n)
    ensures Kept(s.(horizon := s.horizon[n := at]))
    ensures Matches(s.(horizon := s.horizon[n := at]), t.(horizon := t.horizon[n := at]))
  {
    hide Ordinary, Apart, PlainStore;
  }

  lemma TaintedParentsPlain(s: State, t: State, n: Id)
    requires Kept(s) && Matches(s, t) && Ordinary(n) && n in s.store.dag
    ensures n in t.store.dag && t.store.dag[n] == s.store.dag[n]
    ensures ParentSet(s.store.dag[n]) * s.store.ledger == ParentSet(s.store.dag[n]) * t.store.ledger
  {
    hide Ordinary, ParentSet;
    StoreMembers(s, t, n);
    forall u | u in ParentSet(s.store.dag[n]) ensures u in t.store.ledger <==> u in s.store.ledger {
      assert u in Sources(s.store.dag[n]);
      StoreMembers(s, t, u);
    }
  }

  lemma RenewMatch(on: Config, off: Config, s: State, t: State, n: Id, now: int)
    requires Kept(s) && Matches(s, t) && Ordinary(n) && on.horizonSeconds == off.horizonSeconds
    ensures Kept(Renew(on, s, n, now).0) && Matches(Renew(on, s, n, now).0, Renew(off, t, n, now).0)
  {
    assert t.horizon == s.horizon;
    hide Ordinary, Kept, Matches, ParentSet;
    StoreMembers(s, t, n);
    if n in s.store.dag { TaintedParentsPlain(s, t, n); }
    HorizonMatch(s, t, n, now + on.horizonSeconds);
  }

  lemma CheckpointMatch(s: State, t: State, cp: Checkpoint)
    requires Kept(s) && Matches(s, t)
    ensures Kept(s.(checkpoints := Upserted(s.checkpoints, cp)))
    ensures Matches(s.(checkpoints := Upserted(s.checkpoints, cp)), t.(checkpoints := Upserted(t.checkpoints, cp)))
  {
    hide Ordinary, Apart, PlainStore, Upserted;
  }

  lemma EffectMatch(s: State, t: State, key: string, n: Id)
    requires Kept(s) && Matches(s, t) && Ordinary(n)
    ensures Kept(s.(effects := s.effects[key := n]))
    ensures Matches(s.(effects := s.effects[key := n]), t.(effects := t.effects[key := n]))
  {
    hide Ordinary, Apart, PlainStore;
  }

  lemma SubstituteMatch(s: State, t: State, target: Id, source: Id, at: int)
    requires Kept(s) && Matches(s, t) && Ordinary(source)
    ensures Kept(DeclareSubstitute(s, target, source, at).0)
    ensures Matches(DeclareSubstitute(s, target, source, at).0, DeclareSubstitute(t, target, source, at).0)
  {
    hide Ordinary, Kept, Matches;
    StoreMembers(s, t, source);
    SubstitutesMatch(s, t, target, Declaration(source, at));
  }

  lemma SubstitutesMatch(s: State, t: State, target: Id, d: Declaration)
    requires Kept(s) && Matches(s, t)
    ensures Kept(s.(substitutes := s.substitutes[target := d]))
    ensures Matches(s.(substitutes := s.substitutes[target := d]), t.(substitutes := t.substitutes[target := d]))
  {
    hide Ordinary, Apart, PlainStore;
  }

  lemma ExposeMatch(s: State, t: State, n: Id)
    requires Kept(s) && Matches(s, t)
    ensures Kept(Expose(s, n).0) && Matches(Expose(s, n).0, Expose(t, n).0)
  {
    hide Ordinary, Apart, PlainStore;
  }

  lemma StepMatch(cfg: Config, s: State, t: State, r: Request)
    requires Kept(s) && Matches(s, t) && OrdinaryRequest(r) && !r.DesignatePoison?
    ensures Kept(Next(cfg, s, r)) && Matches(Next(cfg, s, r), Next(cfg.(continuity := false), t, r))
  {
    hide Ordinary, OrdinaryPayload, Kept, Matches, Submit, Compact, Seed, Designate, Recur, Renew, Upserted, DeclareSubstitute, Expose;
    var off := cfg.(continuity := false);
    match r {
      case SubmitCandidate(sub, now) => SubmitMatch(cfg, off, s, t, sub, now);
      case ContextCompacted(ev, valid) => CompactMatch(s, t, ev, valid);
      case SeedRoot(root, key) => SeedMatch(s, t, root, key);
      case Observe(n, now) => RecurMatch(cfg, off, s, t, n, now);
      case RenewTrust(n, now) => RenewMatch(cfg, off, s, t, n, now);
      case DeclareCheckpoint(cp) => CheckpointMatch(s, t, cp);
      case DeclareEffect(key, n) => EffectMatch(s, t, key, n);
      case SubstituteDeclared(target, source, at) => SubstituteMatch(s, t, target, source, at);
      case ExposeNode(n) => ExposeMatch(s, t, n);
    }
  }

  lemma InitialMatch(key: string)
    ensures Kept(Initial(key)) && Matches(Initial(key), Initial(key))
  {
    hide Ordinary, Sources, Plain, PlainDag, PlainSet;
    MintedPrefixes("", "");
    PlainOne(CLEAN_PARENT);
    InitialPlain(key);
  }

  lemma InitialPlain(key: string)
    requires Ordinary(CLEAN_PARENT) && Ordinary(SEED_QUARANTINED)
    ensures PlainDag(Initial(key).store.dag) == Initial(key).store.dag
    ensures PlainSet(Initial(key).store.ledger) == Initial(key).store.ledger
    ensures Sources(Bare(CLEAN_PARENT)) == {}
  {
    hide Ordinary;
  }
}
