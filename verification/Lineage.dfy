/** Clean lineage: what is not quarantined derives only from earlier, unquarantined nodes. */
module Lineage {
  import opened Ids
  import opened Reach
  import opened Records
  import opened BlastRadius
  import opened Admission
  import opened Gateway
  import opened Judgement
  import opened Containment

  /** u was committed strictly before v. */
  predicate Before(order: seq<Id>, u: Id, v: Id) {
    exists i, j :: 0 <= i < j < |order| && order[i] == u && order[j] == v
  }

  ghost predicate CleanLineage(st: Store) {
    forall v :: v in st.dag && v !in st.ledger ==>
      forall u :: u in Sources(st.dag[v]) ==> u in st.dag && u !in st.ledger && Before(st.order, u, v)
  }

  lemma BeforeIrreflexive(order: seq<Id>, u: Id, v: Id, w: Id)
    requires NoDuplicates(order)
    ensures !Before(order, u, u)
    ensures Before(order, u, v) && Before(order, v, w) ==> Before(order, u, w)
  {
  }

  lemma BeforeAppended(order: seq<Id>, u: Id, v: Id, x: Id)
    requires NoDuplicates(order + [x])
    ensures Before(order, u, v) ==> Before(order + [x], u, v)
    ensures u in order ==> Before(order + [x], u, x)
    ensures Before(order + [x], u, v) && v != x ==> Before(order, u, v)
  {
    var all := order + [x];
    if Before(order, u, v) {
      var i, j :| 0 <= i < j < |order| && order[i] == u && order[j] == v;
      assert all[i] == u && all[j] == v;
    }
    if u in order {
      var i :| 0 <= i < |order| && order[i] == u;
      assert all[i] == u && all[|order|] == x;
    }
    if Before(all, u, v) && v != x {
      var i, j :| 0 <= i < j < |all| && all[i] == u && all[j] == v;
      assert order[i] == u && order[j] == v;
    }
  }

  /** Whatever a clean node derives from, over any number of hops, is clean and strictly older. */
  lemma {:induction false} AncestryIsClean(st: Store, u: Id, p: seq<Id>, v: Id)
    requires Filed(st) && CleanLineage(st)
    requires Walk(EdgesOf(st.dag), u, p, v) && v in st.dag && v !in st.ledger
    ensures u in st.dag && u !in st.ledger
    ensures p == [] || Before(st.order, u, v)
    decreases |p|
  {
    if p != [] {
      var w := WalkSplitLast(EdgesOf(st.dag), u, p, v);
      EdgeMeaning(st.dag, w, v);
      AncestryIsClean(st, u, p[..|p| - 1], w);
      BeforeIrreflexive(st.order, u, w, v);
    }
  }

  /** The clean part of the graph has no cycle, whatever the quarantined part looks like. */
  lemma CleanPartIsAcyclic(st: Store, v: Id, p: seq<Id>)
    requires Filed(st) && CleanLineage(st)
    requires v in st.dag && v !in st.ledger && Walk(EdgesOf(st.dag), v, p, v)
    ensures p == []
  {
    AncestryIsClean(st, v, p, v);
    BeforeIrreflexive(st.order, v, v, v);
  }

  /** Clean lineage subsumes closedness: nothing outside the ledger derives from inside it. */
  lemma LineageIsClosed(st: Store)
    requires CleanLineage(st)
    ensures Closed(EdgesOf(st.dag), st.ledger)
  {
    forall u, v | u in st.ledger && (u, v) in EdgesOf(st.dag) ensures v in st.ledger {
      EdgeMeaning(st.dag, u, v);
    }
  }

  // ---- Single changes ----

  predicate Anchored(st: Store, p: Payload) {
    p.id in st.dag || p.id in st.ledger || Sources(p) <= st.dag.Keys - st.ledger
  }

  lemma CommitLineage(st: Store, p: Payload)
    requires Filed(st)
    ensures CleanLineage(Commit(st, p)) <==> CleanLineage(st) && Anchored(st, p)
  {
    if p.id !in st.dag {
      var st' := Commit(st, p);
      assert NoDuplicates(st'.order);
      forall u, v | v in st.dag ensures st'.dag[v] == st.dag[v] && (Before(st'.order, u, v) <==> Before(st.order, u, v)) {
        BeforeAppended(st.order, u, v, p.id);
      }
      forall u ensures u in st.dag ==> Before(st'.order, u, p.id) {
        BeforeAppended(st.order, u, p.id, p.id);
      }
      BeforeIrreflexive(st'.order, p.id, p.id, p.id);
      CommitLineageNew(st, st', p);
    }
  }

  lemma CommitLineageNew(st: Store, st': Store, p: Payload)
    requires st' == Store(st.dag[p.id := p], st.order + [p.id], st.ledger) && p.id !in st.dag
    requires forall u, v :: v in st.dag ==> (Before(st'.order, u, v) <==> Before(st.order, u, v))
    requires forall u :: u in st.dag ==> Before(st'.order, u, p.id)
    requires !Before(st'.order, p.id, p.id)
    requires Filed(st)
    ensures CleanLineage(st') <==> CleanLineage(st) && Anchored(st, p)
  {
    hide Before, Sources;
    if CleanLineage(st') {
      forall v, u | v in st.dag && v !in st.ledger && u in Sources(st.dag[v])
        ensures u in st.dag && u !in st.ledger && Before(st.order, u, v)
      {
        assert st'.dag[v] == st.dag[v];
        assert u in st'.dag && Before(st'.order, u, v);
        if u == p.id {
          LaterIsNotBefore(st, p.id, v);
        }
      }
      if p.id !in st.ledger {
        forall u | u in Sources(p) ensures u in st.dag.Keys - st.ledger {
          assert u in Sources(st'.dag[p.id]);
        }
      }
    }
    if CleanLineage(st) && Anchored(st, p) {
      forall v, u | v in st'.dag && v !in st'.ledger && u in Sources(st'.dag[v])
        ensures u in st'.dag && u !in st'.ledger && Before(st'.order, u, v)
      {
        if v != p.id {
          assert st'.dag[v] == st.dag[v] && v in st.dag;
        }
      }
    }
  }

  lemma LaterIsNotBefore(st: Store, x: Id, v: Id)
    requires Filed(st) && x !in st.dag
    ensures !Before(st.order, x, v)
  {
  }

  lemma QuarantineLineage(st: Store, ids: set<Id>)
    requires CleanLineage(st)
    ensures CleanLineage(Quarantine(st, ids)) <==>
      forall x, v :: x in ids && (x, v) in EdgesOf(st.dag) ==> v in st.ledger + ids
  {
    var st' := Quarantine(st, ids);
    if CleanLineage(st') {
      forall x, v | x in ids && (x, v) in EdgesOf(st.dag) ensures v in st.ledger + ids {
        EdgeMeaning(st.dag, x, v);
      }
    } else {
      var v, u :| v in st.dag && v !in st'.ledger && u in Sources(st.dag[v])
        && !(u in st.dag && u !in st'.ledger && Before(st.order, u, v));
      EdgeMeaning(st.dag, u, v);
      assert u in ids;
    }
  }

  lemma ContainLineage(cfg: Config, s: State, root: Id, now: int)
    requires CleanLineage(s.store)
    ensures CleanLineage(Contain(cfg, s, root, now).store)
  {
    ContainEffect(cfg, s, root, now);
    ClosureIsClosed(EdgesOf(s.store.dag), {root});
    QuarantineLineage(s.store, Blast(s.store.dag, root));
  }

  /** Rejection keeps clean lineage exactly when the id is new, or only quarantined nodes build on it. */
  lemma RejectLineage(st: Store, p: Payload)
    requires Filed(st) && CleanLineage(st) && p.id !in st.ledger
    ensures CleanLineage(Quarantine(Commit(st, p), {p.id})) <==>
      p.id !in st.dag || Children(EdgesOf(st.dag), p.id) <= st.ledger + {p.id}
  {
    var quarantined := Quarantine(st, {p.id});
    assert Quarantine(Commit(st, p), {p.id}) == Commit(quarantined, p);
    QuarantineLineage(st, {p.id});
    forall v ensures v in Children(EdgesOf(st.dag), p.id) <==> (p.id, v) in EdgesOf(st.dag) {
      if (p.id, v) in EdgesOf(st.dag) { assert (p.id, v).1 == v; }
    }
    if p.id !in st.dag {
      forall v | (p.id, v) in EdgesOf(st.dag) ensures v in st.ledger + {p.id} {
        EdgeMeaning(st.dag, p.id, v);
      }
      CommitLineage(quarantined, p);
    }
  }

  // ---- Emitted and rebuilt records ----

  /** A freshly minted id is named nowhere: not committed, not quarantined, not a source, not in a frontier. */
  ghost predicate Unnamed(s: State, token: string) {
    && FreshToken(s.store, token)
    && (forall x, v :: Minted(token, x) ==> (x, v) !in EdgesOf(s.store.dag))
    && (forall n :: n in PendingIn(s.repairs) ==> forall x :: Minted(token, x) ==> x !in s.repairs[n].frontier)
  }

  predicate EmissionAnchored(s: State, d: Dependent, token: string, at: int) {
    Emit(s, d, token, at).Some? ==> Sources(Emit(s, d, token, at).value.payload) <= s.store.dag.Keys - s.store.ledger
  }

  predicate ContinuityAnchored(s: State, deps: seq<Dependent>, token: string, at: int) {
    forall d :: d in deps ==> EmissionAnchored(s, d, token, at)
  }

  lemma CleanParentNotMinted(token: string)
    ensures !Minted(token, CLEAN_PARENT)
  {
    assert CLEAN_PARENT[1] == 'l';
    forall n ensures ReplayId(token, n)[1] == 'o' && SubstituteId(token, n)[1] == 'o' && RebuiltId(token, n)[0] == 'r' {}
    assert CLEAN_PARENT[0] == 'c';
  }

  /** Emissions never derive from freshly minted ids. */
  lemma EmissionNamesNoMinted(s: State, d: Dependent, token: string, at: int)
    requires FreshToken(s.store, token) && forall x, v :: Minted(token, x) ==> (x, v) !in EdgesOf(s.store.dag)
    requires Emit(s, d, token, at).Some?
    ensures forall u :: u in Sources(Emit(s, d, token, at).value.payload) ==> !Minted(token, u)
  {
    hide Minted, Relevant, Replayable;
    var em := Emit(s, d, token, at).value;
    CleanParentNotMinted(token);
    if Replayable(s.checkpoints, Relevant(s.store, d), s.store.ledger, at).Some? {
      var ps := if d.node in s.store.dag then ParentList(s.store.dag[d.node]) else [];
      FrontierOfMeaning(ps, s.store.ledger);
      CommitmentsMeaning(ReplayParents(s.store, d.node), PLACEHOLDER_HASH, Material, em.payload);
      forall u | u in ps ensures !Minted(token, u) {
        ParentListMeaning(s.store.dag[d.node]);
        EdgeMeaning(s.store.dag, u, d.node);
      }
    }
  }

  lemma EmitLineage(snapshot: State, s: State, before: State, d: Dependent, nodes: set<Id>, token: string, at: int)
    requires Filed(before.store) && snapshot.store == s.store
    requires FreshToken(s.store, token) && forall x, v :: Minted(token, x) ==> (x, v) !in EdgesOf(s.store.dag)
    requires AddsOnly(s.store, before.store, token, nodes) && d.node !in nodes
    requires Emit(snapshot, d, token, at).Some?
    ensures CleanLineage(Commit(before.store, Emit(snapshot, d, token, at).value.payload).(ledger := s.store.ledger)) <==>
      CleanLineage(before.store) && EmissionAnchored(snapshot, d, token, at)
  {
    hide EdgesOf, CleanLineage, Emit, Sources;
    var p := Emit(snapshot, d, token, at).value.payload;
    EmitStep(snapshot, s, before, d, nodes, token, at);
    EmissionNamesNoMinted(snapshot, d, token, at);
    EmissionSources(snapshot, d, token, at);
    assert Minted(token, p.id);
    CommitLineage(before.store, p);
    forall u | u in Sources(p) ensures u in before.store.dag <==> u in s.store.dag {
      assert !Minted(token, u);
    }
  }

  lemma {:induction false} ContinueLineage(s: State, deps: seq<Dependent>, token: string, at: int)
    requires Filed(s.store) && DistinctNodes(deps)
    requires FreshToken(s.store, token) && forall x, v :: Minted(token, x) ==> (x, v) !in EdgesOf(s.store.dag)
    ensures CleanLineage(Continue(s, s, deps, token, at).store) <==> CleanLineage(s.store) && ContinuityAnchored(s, deps, token, at)
    decreases |deps|
  {
    hide EdgesOf, CleanLineage, Emit, Sources, FreshToken, Minted, AddsOnly, Filed;
    if deps != [] {
      var init, d := deps[..|deps| - 1], deps[|deps| - 1];
      assert deps == init + [d];
      ContinueLineage(s, init, token, at);
      ContinueClosed(s, s, init, token, at);
      var before := Continue(s, s, init, token, at);
      if Emit(s, d, token, at).Some? {
        EmitLineage(s, s, before, d, Nodes(init), token, at);
        var t := Continue(s, s, deps, token, at);
        assert t.store.ledger == s.store.ledger by { ContinueClosed(s, s, deps, token, at); }
      }
    }
  }

  // ---- Frontiers only name covered nodes ----

  /** Every pending frontier avoids the given ids. */
  ghost predicate FrontiersAvoid(repairs: map<Id, Repair>, token: string) {
    forall n :: n in PendingIn(repairs) ==> forall x :: x in repairs[n].frontier ==> !Minted(token, x)
  }

  ghost predicate CoversAvoid(dag: Dag, token: string) {
    forall n, x :: n in dag && x in dag[n].covers ==> !Minted(token, x)
  }

  lemma JudgedAvoids(s: State, affected: set<Id>, c: set<Id>, token: string)
    requires FrontiersAvoid(s.repairs, token) && CoversAvoid(s.store.dag, token)
    ensures FrontiersAvoid(Judged(s, affected, c), token)
  {
    hide Minted;
    var r := Judged(s, affected, c);
    forall n, x | n in PendingIn(r) && x in r[n].frontier ensures !Minted(token, x) {
      if n in affected && n in s.store.dag && !Terminal(s.repairs, n) {
        FrontierOfMeaning(s.store.dag[n].covers, c);
      } else {
        assert n in PendingIn(s.repairs);
      }
    }
  }

  lemma {:induction false} RecurAllAvoids(cfg: Config, s: State, ids: seq<Id>, active: set<Id>, now: int, token: string)
    requires FrontiersAvoid(s.repairs, token) && CoversAvoid(s.store.dag, token)
    ensures FrontiersAvoid(RecurAll(cfg, s, ids, active, now).repairs, token)
    decreases |ids|
  {
    hide FrontiersAvoid, CoversAvoid, Judged, Closure, EdgesOf;
    if ids != [] {
      RecurAllAvoids(cfg, s, ids[..|ids| - 1], active, now, token);
      RecurAllKeeps(cfg, s, ids[..|ids| - 1], active, now);
      var before := RecurAll(cfg, s, ids[..|ids| - 1], active, now);
      var n := ids[|ids| - 1];
      JudgedAvoids(before, Elements(BlastSearch(before.store, n).carried), Blast(before.store.dag, n), token);
    }
  }

  lemma ContainAvoids(cfg: Config, s: State, root: Id, now: int, token: string)
    requires FrontiersAvoid(s.repairs, token) && CoversAvoid(s.store.dag, token)
    ensures FrontiersAvoid(Contain(cfg, s, root, now).repairs, token)
  {
    hide FrontiersAvoid, CoversAvoid, Judged, Closure, EdgesOf;
    JudgedAvoids(s, Elements(BlastSearch(s.store, root).carried), Blast(s.store.dag, root), token);
    var s1 := s.(repairs := BlastRepairs(s, root));
    RecurAllAvoids(cfg, s1, SortedIds(Blast(s.store.dag, root)), Active(s1, now), now, token);
  }

  // ---- Reconstruction ----

  ghost predicate RebuildAnchored(cfg: Config, s: State, root: Id, comp: Id) {
    && comp in s.repairs && s.repairs[comp].Pending?
    && (Rebuilds(cfg, s.store, s.adapterKey, root, comp, s.repairs[comp]) ==>
          Elements(s.repairs[comp].frontier) <= s.store.dag.Keys - s.store.ledger)
  }

  ghost predicate ReconstructionAnchored(cfg: Config, s: State, root: Id) {
    forall comp :: comp in PendingIn(s.repairs) ==> RebuildAnchored(cfg, s, root, comp)
  }

  lemma RebuildLineage(cfg: Config, s: State, before: State, root: Id, comp: Id, comps: set<Id>, token: string, now: int)
    requires Filed(before.store) && FreshRebuilt(s.store, token) && comp !in comps
    requires RebuiltOnly(s.store, before.store, token, comps) && FrontiersAvoid(s.repairs, token)
    requires cfg.recovery.Remote? ==> before.adapterKey == s.adapterKey
    requires comp in PendingIn(s.repairs)
    ensures CleanLineage(Rebuild(cfg, s.store, before, root, comp, s.repairs[comp], token, now).store) <==>
      CleanLineage(before.store) && RebuildAnchored(cfg, s, root, comp)
  {
    hide EdgesOf, CleanLineage, Sources, Rebuild, Rebuilds;
    var r := s.repairs[comp];
    RebuildEffect(cfg, s, before, root, comp, token, now);
    if Rebuilds(cfg, s.store, s.adapterKey, root, comp, r) {
      var t := Rebuild(cfg, s.store, before, root, comp, r, token, now);
      var p: Payload :| p.id == RebuiltId(token, comp) && Sources(p) == Elements(r.frontier) && t.store == Commit(before.store, p);
      forall n | n in comps ensures p.id != RebuiltId(token, n) {
        MintedDistinct(token, comp, n);
      }
      CommitLineage(before.store, p);
      forall u | u in r.frontier ensures u in before.store.dag <==> u in s.store.dag {
        assert !Minted(token, u);
      }
    }
  }

  lemma {:induction false} RebuildAllLineage(cfg: Config, s: State, root: Id, comps: seq<Id>, token: string, now: int)
    requires Filed(s.store) && FreshRebuilt(s.store, token) && NoDuplicates(comps) && FrontiersAvoid(s.repairs, token)
    requires Elements(comps) <= PendingIn(s.repairs)
    ensures CleanLineage(RebuildAll(cfg, s, s, root, comps, token, now).store) <==>
      CleanLineage(s.store) && forall comp :: comp in comps ==> RebuildAnchored(cfg, s, root, comp)
    decreases |comps|
  {
    hide EdgesOf, CleanLineage, AdapterAgrees, Rebuild, RebuildAnchored, FreshRebuilt, FrontiersAvoid, RebuiltOnly, Filed;
    if comps != [] {
      var init, comp := comps[..|comps| - 1], comps[|comps| - 1];
      assert comps == init + [comp];
      RebuildAllLineage(cfg, s, root, init, token, now);
      RebuildAllClosed(cfg, s, root, init, token, now);
      RebuildLineage(cfg, s, RebuildAll(cfg, s, s, root, init, token, now), root, comp, Elements(init), token, now);
    }
  }

  lemma ReconstructLineage(cfg: Config, s: State, root: Id, token: string, now: int)
    requires Filed(s.store) && FreshRebuilt(s.store, token) && FrontiersAvoid(s.repairs, token)
    ensures CleanLineage(Reconstruct(cfg, s, root, token, now).store) <==>
      CleanLineage(s.store) && ReconstructionAnchored(cfg, s, root)
  {
    hide EdgesOf, CleanLineage, RebuildAnchored, FrontiersAvoid;
    var comps := SortedIds(PendingIn(s.repairs));
    assert Elements(comps) == PendingIn(s.repairs);
    RebuildAllLineage(cfg, s, root, comps, token, now);
  }

  // ---- Whole requests and runs ----

  /** Covers must be committed and clean; a rejected id must be new or have only quarantined dependents. */
  ghost predicate AnchoredSubmission(s: State, sub: Submission, now: int) {
    Considered(s, sub) ==>
      match Evaluate(sub.payload, s.store, sub.auth, now)
      case TaintedParent(_) =>
        sub.payload.id !in s.store.dag || Children(EdgesOf(s.store.dag), sub.payload.id) <= s.store.ledger + {sub.payload.id}
      case Admit =>
        FirstMismatch(sub.payload.parents, s.store.dag).None? ==>
          sub.payload.id in s.store.dag || Elements(sub.payload.covers) <= s.store.dag.Keys - s.store.ledger
      case _ => true
  }

  /** A caller's check before a designation: what is emitted or rebuilt derives from committed nodes that stay clean. */
  ghost predicate AnchoredDesignation(cfg: Config, s: State, root: Id, token: string, now: int) {
    root in s.store.dag && root !in s.store.ledger ==>
      var c := Blast(s.store.dag, root);
      && (cfg.continuity ==> ContinuityAnchored(After(s, c), DependentsOf(s, root), token, now))
      && forall n :: RebuiltAfter(cfg, s, root, token, now, n) ==>
           Elements(RepairAfter(s, root, now, n).frontier) <= s.store.dag.Keys - (s.store.ledger + c)
  }

  ghost predicate AnchoredRequest(cfg: Config, s: State, r: Request) {
    match r
    case SubmitCandidate(sub, now) => AnchoredSubmission(s, sub, now)
    case DesignatePoison(root, token, now) => AnchoredDesignation(cfg, s, root, token, now)
    case _ => true
  }

  ghost predicate UnnamedFor(s: State, r: Request) {
    r.DesignatePoison? ==> Unnamed(s, r.token)
  }

  lemma SubmitLineage(cfg: Config, s: State, sub: Submission, now: int)
    requires Filed(s.store) && CleanLineage(s.store)
    ensures Filed(Submit(cfg, s, sub, now).0.store)
    ensures CleanLineage(Submit(cfg, s, sub, now).0.store) <==> AnchoredSubmission(s, sub, now)
  {
    hide EdgesOf, Reject, Evaluate, WithGap, FirstMismatch, CleanLineage, Submit, Filed, Tainted, ParentSet, Sources, Completed;
    var p := WithGap(sub.payload, s.store.dag);
    GapKeepsFields(sub.payload, s.store.dag);
    GapIsAnnotation(sub.payload, s.store, sub.auth, now);
    SubmitBranches(cfg, s, sub, now);
    if Considered(s, sub) {
      DecisionMeaning(sub.payload, s.store, sub.auth, now);
      CommitEdges(s.store, p);
      match Evaluate(sub.payload, s.store, sub.auth, now) {
        case TaintedParent(root) =>
          RejectEffect(cfg, s, p, root, now);
          RejectLineage(s.store, p);
          QuarantineFiled(Commit(s.store, p), {p.id});
        case Admit =>
          CommitLineage(s.store, p);
          CleanParentsAnchor(s.store, p);
        case _ =>
      }
    }
  }

  lemma QuarantineFiled(st: Store, ids: set<Id>)
    requires Filed(st)
    ensures Filed(Quarantine(st, ids))
  {
  }

  lemma CleanParentsAnchor(st: Store, p: Payload)
    requires ParentSet(p) <= st.dag.Keys - st.ledger && p.id !in st.ledger
    ensures Anchored(st, p) <==> p.id in st.dag || Elements(p.covers) <= st.dag.Keys - st.ledger
  {
    hide ParentSet, Elements;
  }

  lemma ContinuityAnchoredDepends(s: State, t: State, deps: seq<Dependent>, token: string, at: int)
    requires t.store == s.store && t.checkpoints == s.checkpoints && t.substitutes == s.substitutes
    ensures ContinuityAnchored(t, deps, token, at) <==> ContinuityAnchored(s, deps, token, at)
  {
    hide Emit, Sources, EmissionHarmless;
    forall d | d in deps ensures EmissionAnchored(t, d, token, at) <==> EmissionAnchored(s, d, token, at) {
      EmitDepends(s, t, d, token, at);
    }
  }

  /** A frontier names no minted id, so committed by then means committed before. */
  lemma FrontierWasCommitted(cfg: Config, s: State, root: Id, token: string, now: int, frontier: seq<Id>)
    requires FreshToken(s.store, token) && forall x :: Minted(token, x) ==> x !in frontier
    requires root in s.store.dag && Filed(s.store)
    ensures var s2 := Continuity(cfg, Contain(cfg, s, root, now), Blast(s.store.dag, root), token, now);
            && s.store.dag.Keys <= s2.store.dag.Keys
            && forall x :: x in frontier && x in s2.store.dag ==> x in s.store.dag
  {
    hide Contain, Continue, Closure, EdgesOf, Critical, Roots, Minted;
    var c := Blast(s.store.dag, root);
    var s1 := Contain(cfg, s, root, now);
    ContainEffect(cfg, s, root, now);
    if cfg.continuity {
      var deps := Critical(s1.store.dag, s1.store.order, c);
      FreshAfterContain(s, s1, root, token);
      CriticalDistinct(s1.store.dag, s1.store.order, c);
      OrderNoDuplicates(s1.store);
      ContinueClosed(s1, s1, deps, token, now);
      AddedIsMinted(s1.store, Continue(s1, s1, deps, token, now).store, token, Nodes(deps));
    }
  }

  lemma OrderNoDuplicates(st: Store)
    requires Filed(st)
    ensures NoDuplicates(st.order)
  {
  }

  lemma AddedIsMinted(st: Store, st': Store, token: string, nodes: set<Id>)
    requires AddsOnly(st, st', token, nodes)
    ensures st.dag.Keys <= st'.dag.Keys
    ensures forall x :: x in st'.dag && x !in st.dag ==> Minted(token, x)
  {
    hide ReplayId, SubstituteId, RebuiltId;
  }

  lemma AnchoredMeaning(cfg: Config, s: State, root: Id, token: string, now: int)
    requires root in s.store.dag && root !in s.store.ledger && Filed(s.store)
    requires FreshToken(s.store, token) && FrontiersAvoid(Contain(cfg, s, root, now).repairs, token)
    ensures var s1 := Contain(cfg, s, root, now);
            var c := Blast(s.store.dag, root);
            AnchoredDesignation(cfg, s, root, token, now) <==>
              && (cfg.continuity ==> ContinuityAnchored(s1, Critical(s1.store.dag, s1.store.order, c), token, now))
              && ReconstructionAnchored(cfg, Continuity(cfg, s1, c, token, now), root)
  {
    hide Contain, Continuity, Closure, EdgesOf, Critical, ContinuityAnchored, RebuiltAfter, PendingAfter, RepairAfter, Rebuilds, Roots, Filed, Minted, FreshToken;
    var c := Blast(s.store.dag, root);
    var s1 := Contain(cfg, s, root, now);
    var s2 := Continuity(cfg, s1, c, token, now);
    ContainEffect(cfg, s, root, now);
    ContinuedLedger(cfg, s, root, token, now);
    ContinuedRepairs(cfg, s, root, token, now);
    ContinuityAnchoredDepends(After(s, c), s1, DependentsOf(s, root), token, now);
    forall n ensures RebuiltAfter(cfg, s, root, token, now, n) ==> PendingAfter(s, root, now, n) && n in PendingIn(s2.repairs) {
      RebuiltIsPending(cfg, s, root, token, now, n);
      RebuiltMeaning(cfg, s, root, token, now, n);
    }
    forall n | n in PendingIn(s2.repairs)
      ensures RebuildAnchored(cfg, s2, root, n) <==>
        (RebuiltAfter(cfg, s, root, token, now, n) ==>
          PendingAfter(s, root, now, n) && Elements(RepairAfter(s, root, now, n).frontier) <= s.store.dag.Keys - (s.store.ledger + c))
    {
      RebuiltMeaning(cfg, s, root, token, now, n);
      FrontierWasCommitted(cfg, s, root, token, now, s2.repairs[n].frontier);
    }
  }

  lemma ContinuedRepairs(cfg: Config, s: State, root: Id, token: string, now: int)
    ensures var s1 := Contain(cfg, s, root, now);
            Continuity(cfg, s1, Blast(s.store.dag, root), token, now).repairs == s1.repairs
  {
    hide Contain, Continue, Closure, EdgesOf, Critical;
    var s1 := Contain(cfg, s, root, now);
    ContinueKeeps(s1, s1, Critical(s1.store.dag, s1.store.order, Blast(s.store.dag, root)), token, now);
  }

  lemma DesignateLineage(cfg: Config, s: State, root: Id, token: string, now: int)
    requires Filed(s.store) && CleanLineage(s.store) && Unnamed(s, token)
    ensures Filed(Designate(cfg, s, root, token, now).0.store)
    ensures CleanLineage(Designate(cfg, s, root, token, now).0.store) <==> AnchoredDesignation(cfg, s, root, token, now)
  {
    hide Contain, Continuity, Reconstruct, Closure, CleanLineage, Filed, FreshToken, Roots, Minted, AnchoredDesignation;
    if root in s.store.dag && root !in s.store.ledger {
      var s1 := Contain(cfg, s, root, now);
      ContainEffect(cfg, s, root, now);
      ContainLineage(cfg, s, root, now);
      FreshAfterContain(s, s1, root, token);
      forall n, x | n in s.store.dag && x in s.store.dag[n].covers ensures !Minted(token, x) {
        EdgeMeaning(s.store.dag, x, n);
      }
      ContainAvoids(cfg, s, root, now, token);
      DesignateLineageTail(cfg, s1, Blast(s.store.dag, root), root, token, now);
      AnchoredMeaning(cfg, s, root, token, now);
    } else {
      NothingToAnchor(cfg, s, root, token, now);
    }
  }

  lemma NothingToAnchor(cfg: Config, s: State, root: Id, token: string, now: int)
    requires root !in s.store.dag || root in s.store.ledger
    ensures AnchoredDesignation(cfg, s, root, token, now)
  {
  }

  lemma DesignateLineageTail(cfg: Config, s1: State, c: set<Id>, root: Id, token: string, now: int)
    requires Filed(s1.store) && CleanLineage(s1.store) && FreshToken(s1.store, token) && FrontiersAvoid(s1.repairs, token)
    requires forall x, v :: Minted(token, x) ==> (x, v) !in EdgesOf(s1.store.dag)
    ensures var s2 := Continuity(cfg, s1, c, token, now);
            var t := Reconstruct(cfg, s2, root, token, now);
            && Filed(t.store)
            && (CleanLineage(t.store) <==>
                  (cfg.continuity ==> ContinuityAnchored(s1, Critical(s1.store.dag, s1.store.order, c), token, now))
                  && ReconstructionAnchored(cfg, s2, root))
  {
    hide EdgesOf, CleanLineage, Continue, Reconstruct, ReconstructionAnchored, ContinuityAnchored, RebuiltOnly, AddsOnly, FreshRebuilt, FrontiersAvoid, FreshToken, Minted;
    var s2 := Continuity(cfg, s1, c, token, now);
    var deps := Critical(s1.store.dag, s1.store.order, c);
    CriticalDistinct(s1.store.dag, s1.store.order, c);
    FreshStaysRebuilt(s1.store, s1.store, token, {});
    if cfg.continuity {
      ContinueKeeps(s1, s1, deps, token, now);
      ContinueClosed(s1, s1, deps, token, now);
      ContinueLineage(s1, deps, token, now);
      FreshStaysRebuilt(s1.store, s2.store, token, Nodes(deps));
    }
    ReconstructClosed(cfg, s2, root, token, now);
    ReconstructLineage(cfg, s2, root, token, now);
  }

  lemma CompactLineage(s: State, ev: CompactionEvent, valid: bool)
    requires Filed(s.store) && CleanLineage(s.store)
    ensures Filed(Compact(s, ev, valid).0.store) && CleanLineage(Compact(s, ev, valid).0.store)
  {
    hide EdgesOf, CleanLineage, Filed;
    var p := CompactionPayload(s.store.dag, ev);
    TaintedMeaning(ev.nodes, s.store.ledger);
    CompactionSources(s.store.dag, ev);
    CommitEdges(s.store, p);
    CommitLineage(s.store, p);
  }

  /** A context compaction carries exactly what it covers. */
  lemma CompactionSources(dag: Dag, ev: CompactionEvent)
    ensures var p := CompactionPayload(dag, ev);
            ParentSet(p) == Elements(ev.nodes) == Elements(p.covers) == Sources(p)
  {
    var p := CompactionPayload(dag, ev);
    forall u | u in ev.nodes ensures u in ParentSet(p) {
      var i :| 0 <= i < |ev.nodes| && ev.nodes[i] == u;
      assert p.parents[i].parent == u;
    }
  }

  /** One request keeps clean lineage precisely when what it commits is anchored in clean, committed nodes. */
  lemma StepLineage(cfg: Config, s: State, r: Request)
    requires Filed(s.store) && CleanLineage(s.store) && UnnamedFor(s, r)
    ensures Filed(Next(cfg, s, r).store)
    ensures CleanLineage(Next(cfg, s, r).store) <==> AnchoredRequest(cfg, s, r)
  {
    hide EdgesOf, Submit, Compact, Designate, AnchoredSubmission, AnchoredDesignation, Recur, CleanLineage, Filed, Unnamed;
    match r
    case SubmitCandidate(sub, now) => SubmitLineage(cfg, s, sub, now);
    case ContextCompacted(ev, valid) => CompactLineage(s, ev, valid);
    case SeedRoot(root, key) =>
      CommitEdges(s.store, Bare(root).(digest := "seed", author := key));
      CommitLineage(s.store, Bare(root).(digest := "seed", author := key));
    case DesignatePoison(root, token, now) => DesignateLineage(cfg, s, root, token, now);
    case Observe(n, now) => ObserveKeeps(cfg, s, n, now);
    case _ =>
  }

  lemma InitialLineage(key: string)
    ensures CleanLineage(Initial(key).store)
  {
  }

  ghost predicate UnnamedRun(cfg: Config, s: State, rs: seq<Request>) {
    forall i :: 0 <= i < |rs| ==> UnnamedFor(Run(cfg, s, rs[..i]), rs[i])
  }

  ghost predicate AlwaysClean(cfg: Config, s: State, rs: seq<Request>) {
    forall i :: 0 <= i <= |rs| ==> CleanLineage(Run(cfg, s, rs[..i]).store)
  }

  ghost predicate AlwaysAnchored(cfg: Config, s: State, rs: seq<Request>) {
    forall i :: 0 <= i < |rs| ==> AnchoredRequest(cfg, Run(cfg, s, rs[..i]), rs[i])
  }

  lemma RunSplits(cfg: Config, s: State, rs: seq<Request>)
    requires rs != []
    ensures var init, last := rs[..|rs| - 1], rs[|rs| - 1];
            && (AlwaysClean(cfg, s, rs) <==> AlwaysClean(cfg, s, init) && CleanLineage(Run(cfg, s, rs).store))
            && (AlwaysClean(cfg, s, init) ==> CleanLineage(Run(cfg, s, init).store))
            && (AlwaysAnchored(cfg, s, rs) <==> AlwaysAnchored(cfg, s, init) && AnchoredRequest(cfg, Run(cfg, s, init), last))
            && (UnnamedRun(cfg, s, rs) ==> UnnamedRun(cfg, s, init) && UnnamedFor(Run(cfg, s, init), last))
  {
    hide Run, AnchoredRequest, CleanLineage, UnnamedFor;
    var init := rs[..|rs| - 1];
    assert forall i :: 0 <= i <= |init| ==> init[..i] == rs[..i];
    assert rs[..|rs|] == rs && init[..|init|] == init;
  }

  /** Over every run, all states have clean lineage if and only if every request is anchored. */
  lemma {:induction false} RunLineage(cfg: Config, s: State, rs: seq<Request>)
    requires Filed(s.store) && CleanLineage(s.store) && UnnamedRun(cfg, s, rs)
    ensures AlwaysClean(cfg, s, rs) <==> AlwaysAnchored(cfg, s, rs)
    decreases |rs|
  {
    hide EdgesOf, Next, AnchoredRequest, CleanLineage, Filed, UnnamedFor;
    if rs == [] {
      assert forall i :: 0 <= i <= |rs| ==> rs[..i] == [];
    } else {
      hide AlwaysClean, AlwaysAnchored, UnnamedRun;
      var n := |rs| - 1;
      RunSplits(cfg, s, rs);
      RunLineage(cfg, s, rs[..n]);
      RunFiled(cfg, s, rs[..n]);
      if AlwaysClean(cfg, s, rs[..n]) {
        StepLineage(cfg, Run(cfg, s, rs[..n]), rs[n]);
      }
    }
  }
}
