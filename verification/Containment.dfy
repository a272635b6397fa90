/** Exact containment: the quarantine ledger is a graph closure, over whole runs. */
module Containment {
  import opened Ids
  import opened Reach
  import opened Records
  import opened BlastRadius
  import opened Admission
  import opened Replacement
  import opened Gateway
  import opened Judgement

  // ---- The invariant ----

  function DesignatedRoots(events: seq<QuarantineEvent>): set<Id> {
    set e | e in events && e.kind == Designation :: e.root
  }

  function Roots(s: State): set<Id> {
    {SEED_QUARANTINED} + DesignatedRoots(s.events)
  }

  /** The ledger is exactly what derives from the seed and the designated nodes, no more and no less. */
  ghost predicate Contained(s: State) {
    s.store.ledger == Closure(EdgesOf(s.store.dag), Roots(s))
  }

  /** Every quarantined id is accounted for; containment then only lacks closedness. */
  ghost predicate Justified(s: State) {
    Roots(s) <= s.store.ledger <= Closure(EdgesOf(s.store.dag), Roots(s))
  }

  lemma ContainedMeaning(s: State)
    ensures Contained(s) <==> Justified(s) && Closed(EdgesOf(s.store.dag), s.store.ledger)
  {
    var e := EdgesOf(s.store.dag);
    ClosureIsClosed(e, Roots(s));
    if Justified(s) { ClosureIsUnique(e, Roots(s), s.store.ledger); }
  }

  lemma InitialStateIsContained(key: string)
    ensures Filed(Initial(key).store) && Contained(Initial(key))
  {
    assert EdgesOf(Initial(key).store.dag) == {};
    assert Roots(Initial(key)) == {SEED_QUARANTINED};
    hide Closure, EdgesOf, Roots;
    ClosureOfClosed({}, {SEED_QUARANTINED});
  }

  // ---- Committing a node ----

  /** A commit leaves the closure alone when it is a no-op, already quarantined, or built on clean sources. */
  predicate CommitHarmless(st: Store, p: Payload) {
    p.id in st.dag || p.id in st.ledger || Sources(p) !! st.ledger
  }

  lemma CommitEdges(st: Store, p: Payload)
    ensures EdgesOf(st.dag) <= EdgesOf(Commit(st, p).dag)
    ensures forall u, v :: (u, v) in EdgesOf(Commit(st, p).dag) <==>
      (u, v) in EdgesOf(st.dag) || (p.id !in st.dag && v == p.id && u in Sources(p))
    ensures Filed(st) ==> Filed(Commit(st, p))
  {
    var dag' := Commit(st, p).dag;
    forall u, v
      ensures (u, v) in EdgesOf(dag') <==> (u, v) in EdgesOf(st.dag) || (p.id !in st.dag && v == p.id && u in Sources(p))
    {
      EdgeMeaning(st.dag, u, v);
      EdgeMeaning(dag', u, v);
    }
    forall e | e in EdgesOf(st.dag) ensures e in EdgesOf(dag') {
      assert (e.0, e.1) in EdgesOf(dag');
    }
  }

  lemma CommitClosed(st: Store, p: Payload)
    ensures Closed(EdgesOf(Commit(st, p).dag), st.ledger) <==> Closed(EdgesOf(st.dag), st.ledger) && CommitHarmless(st, p)
  {
    CommitEdges(st, p);
    if p.id !in st.dag && !(Sources(p) !! st.ledger) {
      var u :| u in Sources(p) && u in st.ledger;
      assert (u, p.id) in EdgesOf(Commit(st, p).dag);
    }
  }

  lemma CommitJustified(s: State, s': State, p: Payload)
    requires Justified(s) && s'.store == Commit(s.store, p) && Roots(s') == Roots(s)
    ensures Justified(s')
  {
    hide Closure, EdgesOf, Roots;
    CommitEdges(s.store, p);
    ClosureMonotone(EdgesOf(s.store.dag), EdgesOf(s'.store.dag), Roots(s), Roots(s));
  }

  // ---- Rejecting a write with a tainted parent ----

  /** Quarantining one id suffices when the id is new and nothing clean already names it as a source. */
  predicate RejectHarmless(st: Store, p: Payload) {
    p.id !in st.dag && Children(EdgesOf(st.dag), p.id) <= st.ledger + {p.id}
  }

  lemma RejectContainment(s: State, s': State, p: Payload)
    requires Contained(s) && p.id !in s.store.ledger && !(Sources(p) !! s.store.ledger)
    requires s'.store == Quarantine(Commit(s.store, p), {p.id}) && Roots(s') == Roots(s)
    ensures Contained(s') <==> RejectHarmless(s.store, p)
  {
    hide Closure, EdgesOf, Roots, Targets;
    var e, e' := EdgesOf(s.store.dag), EdgesOf(s'.store.dag);
    var ledger' := s.store.ledger + {p.id};
    ContainedMeaning(s);
    ContainedMeaning(s');
    CommitEdges(s.store, p);
    if p.id !in s.store.dag {
      var u :| u in Sources(p) && u in s.store.ledger;
      assert (u, p.id) in e';
      ClosureMonotone(e, e', Roots(s), Roots(s));
      ClosureIsClosed(e', Roots(s));
      assert Justified(s');
      forall v ensures v in Children(e, p.id) <==> (p.id, v) in e {
        if (p.id, v) in e { assert (p.id, v).1 == v; }
      }
    } else {
      assert e == e';
      assert p.id in ledger' && p.id !in Closure(e, Roots(s));
    }
  }

  // ---- What the bookkeeping of a step leaves alone ----

  lemma RejectUnfolds(cfg: Config, s: State, p: Payload, root: Id, now: int)
    ensures var s4 := Refused(cfg, s, p, root, now);
            var event := RejectionEvent(Commit(s.store, p).dag, s.store.ledger, p.id, root, now);
            Reject(cfg, s, p, root, now) ==
              match FindReplacement(s4, root)
              case None => (s4, TaintedLineage(event, None))
              case Some(f) =>
                (s4.(rejections := Offered(s4.rejections, p.id, Offer(f.node, f.target == root))), TaintedLineage(event, Some(f)))
  {
    hide Refused, FindReplacement, RejectionEvent, Offered;
  }

  lemma RejectEffect(cfg: Config, s: State, p: Payload, root: Id, now: int)
    ensures var t := Reject(cfg, s, p, root, now).0;
            && t.store == Quarantine(Commit(s.store, p), {p.id})
            && t.events == s.events + [RejectionEvent(Commit(s.store, p).dag, s.store.ledger, p.id, root, now)]
            && Roots(t) == Roots(s)
  {
    hide Closure, EdgesOf, BlastRepairs, FindReplacement, DesignatedRoots, Active;
    var s1 := s.(store := Commit(s.store, p));
    var s2 := s1.(repairs := BlastRepairs(s1, root));
    RecurAllKeeps(cfg, s2, SortedIds(Blast(s1.store.dag, root)), Active(s2, now), now);
    var t := Reject(cfg, s, p, root, now).0;
    var ev := RejectionEvent(Commit(s.store, p).dag, s.store.ledger, p.id, root, now);
    assert t.events == s.events + [ev];
    RootsOfAppended(s.events, ev);
  }

  lemma RootsOfAppended(events: seq<QuarantineEvent>, ev: QuarantineEvent)
    ensures DesignatedRoots(events + [ev]) == DesignatedRoots(events) + (if ev.kind == Designation then {ev.root} else {})
  {
    assert forall e :: e in events + [ev] <==> e in events || e == ev;
  }

  lemma ContainEffect(cfg: Config, s: State, root: Id, now: int)
    ensures var t := Contain(cfg, s, root, now);
            && t.store == Quarantine(s.store, Blast(s.store.dag, root))
            && Roots(t) == Roots(s) + {root}
            && |t.events| == |s.events| + 1 && t.events[..|s.events|] == s.events
            && t.events[|s.events|] == QuarantineEvent(root, now, SortedIds(Blast(s.store.dag, root)), SortedIds(t.store.ledger), Designation)
            && t.checkpoints == s.checkpoints && t.substitutes == s.substitutes && t.effects == s.effects
            && t.horizon == s.horizon && t.exposures == s.exposures && t.rejections == s.rejections && t.adapterKey == s.adapterKey
  {
    hide Closure, EdgesOf, BlastRepairs, DesignatedRoots, Active;
    var c := Blast(s.store.dag, root);
    var s1 := s.(repairs := BlastRepairs(s, root));
    RecurAllKeeps(cfg, s1, SortedIds(c), Active(s1, now), now);
    RootsOfAppended(s.events, QuarantineEvent(root, now, SortedIds(c), SortedIds(s.store.ledger + c), Designation));
  }

  /** Designation always restores exactness: the new closure is the old one plus the node's own. */
  lemma ContainIsExact(cfg: Config, s: State, root: Id, now: int)
    requires Contained(s)
    ensures Contained(Contain(cfg, s, root, now))
  {
    ContainEffect(cfg, s, root, now);
    ClosureUnion(EdgesOf(s.store.dag), Roots(s), {root});
  }

  // ---- Fresh identities ----

  ghost predicate Minted(token: string, x: Id) {
    exists n :: x == ReplayId(token, n) || x == SubstituteId(token, n) || x == RebuiltId(token, n)
  }

  /** A fresh uuid: no committed or quarantined id carries it. */
  ghost predicate FreshToken(st: Store, token: string) {
    forall x :: Minted(token, x) ==> x !in st.dag && x !in st.ledger
  }

  lemma SuffixInjective(prefix: string, a: Id, b: Id)
    requires prefix + a == prefix + b
    ensures a == b
  {
    assert a == (prefix + a)[|prefix|..];
    assert b == (prefix + b)[|prefix|..];
  }

  /** Minted ids of different kinds or for different nodes differ. */
  lemma MintedDistinct(token: string, a: Id, b: Id)
    ensures ReplayId(token, a) != SubstituteId(token, b)
    ensures ReplayId(token, a) != RebuiltId(token, b)
    ensures SubstituteId(token, a) != RebuiltId(token, b)
    ensures a != b ==> ReplayId(token, a) != ReplayId(token, b)
    ensures a != b ==> SubstituteId(token, a) != SubstituteId(token, b)
    ensures a != b ==> RebuiltId(token, a) != RebuiltId(token, b)
  {
    assert ReplayId(token, a)[11] == 'c' && SubstituteId(token, b)[11] == 's' && SubstituteId(token, a)[0] == 'c';
    assert ReplayId(token, a)[0] == 'c' && RebuiltId(token, b)[0] == 'r';
    if ReplayId(token, a) == ReplayId(token, b) { SuffixInjective("continuity-cp-" + token, a, b); }
    if SubstituteId(token, a) == SubstituteId(token, b) { SuffixInjective("continuity-sub-" + token, a, b); }
    if RebuiltId(token, a) == RebuiltId(token, b) { SuffixInjective("reconstructed-" + token, a, b); }
  }

  // ---- Continuity ----

  /** A replay with no unquarantined parent left is hung on the built-in root. */
  predicate FallsBack(st: Store, d: Dependent) {
    FrontierOf(if d.node in st.dag then ParentList(st.dag[d.node]) else [], st.ledger) == []
  }

  lemma {:induction false} FrontierOfMeaning(covers: seq<Id>, c: set<Id>)
    ensures forall x :: x in FrontierOf(covers, c) <==> x in covers && x !in c
  {
    if covers != [] {
      FrontierOfMeaning(covers[1..], c);
      assert covers == [covers[0]] + covers[1..];
    }
  }

  lemma CommitmentsMeaning(ids: seq<Id>, hash: string, edgeClass: EdgeClass, p: Payload)
    requires p.parents == Commitments(ids, hash, edgeClass)
    ensures ParentSet(p) == Elements(ids)
  {
    forall x | x in ids ensures x in ParentSet(p) {
      var i :| 0 <= i < |ids| && ids[i] == x;
      assert p.parents[i].parent == x;
    }
  }

  predicate EmissionHarmless(s: State, d: Dependent, token: string, at: int) {
    (Emit(s, d, token, at).Some? && Emit(s, d, token, at).value.mechanism == "M4" && FallsBack(s.store, d))
    ==> CLEAN_PARENT !in s.store.ledger
  }

  /** Every emitted record has clean sources, except a replay hung on a quarantined built-in root. */
  lemma EmissionSources(s: State, d: Dependent, token: string, at: int)
    requires Emit(s, d, token, at).Some?
    ensures var p := Emit(s, d, token, at).value.payload;
            && Sources(p) !! s.store.ledger <==> EmissionHarmless(s, d, token, at)
    ensures Emit(s, d, token, at).value.payload.id in {ReplayId(token, d.node), SubstituteId(token, d.node)}
    ensures !Emit(s, d, token, at).value.payload.compaction && Emit(s, d, token, at).value.payload.covers == []
    ensures forall c :: c in Emit(s, d, token, at).value.payload.parents ==> c.edgeClass == Material
  {
    hide Relevant, Replayable;
    var em := Emit(s, d, token, at).value;
    assert "M4"[1] == '4' && "M3"[1] == '3';
    if em.mechanism == "M4" {
      FrontierOfMeaning(if d.node in s.store.dag then ParentList(s.store.dag[d.node]) else [], s.store.ledger);
      CommitmentsMeaning(ReplayParents(s.store, d.node), PLACEHOLDER_HASH, Material, em.payload);
      if FallsBack(s.store, d) {
        assert ReplayParents(s.store, d.node)[0] == CLEAN_PARENT;
      }
    }
  }

  predicate ContinuityHarmless(s: State, deps: seq<Dependent>, token: string, at: int) {
    forall d :: d in deps ==> EmissionHarmless(s, d, token, at)
  }

  predicate DistinctNodes(deps: seq<Dependent>) {
    forall i, j :: 0 <= i < j < |deps| ==> deps[i].node != deps[j].node
  }

  lemma {:induction false} CriticalDistinct(dag: Dag, order: seq<Id>, c: set<Id>)
    requires NoDuplicates(order)
    ensures DistinctNodes(Critical(dag, order, c))
    ensures forall d :: d in Critical(dag, order, c) ==> d.node in order && d.node in dag
  {
    if order != [] {
      CriticalDistinct(dag, order[1..], c);
      assert forall d :: d in Critical(dag, order[1..], c) ==> d.node in order[1..];
    }
  }

  /** Which ids a sequence of emissions may have added. */
  ghost predicate AddsOnly(st: Store, st': Store, token: string, nodes: set<Id>) {
    && st'.ledger == st.ledger
    && (forall x :: x in st.dag ==> x in st'.dag && st'.dag[x] == st.dag[x])
    && (forall x :: x in st'.dag && x !in st.dag ==>
         exists n :: n in nodes && (x == ReplayId(token, n) || x == SubstituteId(token, n)))
  }

  function Nodes(deps: seq<Dependent>): set<Id> {
    set d | d in deps :: d.node
  }

  /** One emission on top of the earlier ones: it commits a new id, so it counts exactly once. */
  lemma EmitStep(snapshot: State, s: State, before: State, d: Dependent, nodes: set<Id>, token: string, at: int)
    requires Filed(before.store) && FreshToken(s.store, token) && d.node !in nodes
    requires snapshot.store.ledger == s.store.ledger && AddsOnly(s.store, before.store, token, nodes)
    requires Emit(snapshot, d, token, at).Some?
    ensures var p := Emit(snapshot, d, token, at).value.payload;
            var st := Commit(before.store, p);
            && p.id !in before.store.dag
            && Filed(st) && AddsOnly(s.store, st, token, nodes + {d.node})
            && (Closed(EdgesOf(st.dag), st.ledger) <==>
                  Closed(EdgesOf(before.store.dag), st.ledger) && EmissionHarmless(snapshot, d, token, at))
  {
    hide Closure, EdgesOf, Roots, Emit;
    var p := Emit(snapshot, d, token, at).value.payload;
    EmissionSources(snapshot, d, token, at);
    assert Minted(token, p.id);
    forall n | n in nodes ensures p.id != ReplayId(token, n) && p.id != SubstituteId(token, n) {
      MintedDistinct(token, d.node, n);
      MintedDistinct(token, n, d.node);
    }
    CommitEdges(before.store, p);
    CommitClosed(before.store, p);
  }

  lemma NoEmission(snapshot: State, st: Store, before: Store, d: Dependent, nodes: set<Id>, token: string, at: int)
    requires Emit(snapshot, d, token, at).None? && AddsOnly(st, before, token, nodes)
    ensures EmissionHarmless(snapshot, d, token, at) && AddsOnly(st, before, token, nodes + {d.node})
  {
  }

  lemma NothingAdded(st: Store, token: string)
    ensures AddsOnly(st, st, token, {})
  {
  }

  lemma {:induction false} ContinueKeeps(snapshot: State, s: State, deps: seq<Dependent>, token: string, at: int)
    ensures var t := Continue(snapshot, s, deps, token, at);
            && t == s.(store := t.store, exposures := t.exposures, adapterKey := t.adapterKey)
            && t.store.ledger == s.store.ledger
    decreases |deps|
  {
    hide Emit;
    if deps != [] { ContinueKeeps(snapshot, s, deps[..|deps| - 1], token, at); }
  }

  lemma {:induction false} ContinueClosed(snapshot: State, s: State, deps: seq<Dependent>, token: string, at: int)
    requires Filed(s.store) && FreshToken(s.store, token) && DistinctNodes(deps)
    requires snapshot.store.ledger == s.store.ledger
    ensures var t := Continue(snapshot, s, deps, token, at);
            && Filed(t.store)
            && t.store.ledger == s.store.ledger
            && AddsOnly(s.store, t.store, token, Nodes(deps))
            && (Closed(EdgesOf(t.store.dag), t.store.ledger) <==>
                  Closed(EdgesOf(s.store.dag), s.store.ledger) && ContinuityHarmless(snapshot, deps, token, at))
    decreases |deps|
  {
    hide Closure, EdgesOf, Roots, Emit, AddsOnly, EmissionHarmless, FreshToken;
    if deps != [] {
      var init, d := deps[..|deps| - 1], deps[|deps| - 1];
      ContinueClosed(snapshot, s, init, token, at);
      var before := Continue(snapshot, s, init, token, at);
      assert deps == init + [d];
      assert Nodes(deps) == Nodes(init) + {d.node};
      if Emit(snapshot, d, token, at).Some? {
        EmitStep(snapshot, s, before, d, Nodes(init), token, at);
      } else {
        NoEmission(snapshot, s.store, before.store, d, Nodes(init), token, at);
      }
    } else {
      NothingAdded(s.store, token);
      assert Nodes(deps) == {};
    }
  }

  // ---- Reconstruction ----

  predicate Emits(s: State, deps: seq<Dependent>, token: string, at: int) {
    exists d :: d in deps && Emit(s, d, token, at).Some?
  }

  lemma {:induction false} ContinueKey(snapshot: State, s: State, deps: seq<Dependent>, token: string, at: int)
    ensures var t := Continue(snapshot, s, deps, token, at);
            if Emits(snapshot, deps, token, at) then "key:" <= t.adapterKey else t.adapterKey == s.adapterKey
    decreases |deps|
  {
    hide Emit, Commit;
    if deps != [] {
      var n := |deps| - 1;
      ContinueKey(snapshot, s, deps[..n], token, at);
      assert deps[n] in deps && forall d :: d in deps <==> d in deps[..n] || d == deps[n];
    }
  }

  ghost predicate FreshRebuilt(st: Store, token: string) {
    forall n :: RebuiltId(token, n) !in st.dag && RebuiltId(token, n) !in st.ledger
  }

  /** Whether a pending compaction gets a rebuilt node: always inline, with a matching adapter key when remote. */
  ghost predicate Rebuilds(cfg: Config, snapshot: Store, key: string, root: Id, comp: Id, r: Repair)
    requires r.Pending?
  {
    match cfg.recovery
    case Inline => true
    case Remote(identity) =>
      && AdapterAgrees(snapshot.dag, root, if comp in snapshot.dag then snapshot.dag[comp].covers else [], r.frontier)
      && key != "" && key == identity
  }

  /** The frontier of every node that is rebuilt is clean. The code records this gate as passed without evaluating it. */
  ghost predicate RebuildHarmless(cfg: Config, s: State, root: Id, comp: Id) {
    && comp in s.repairs && s.repairs[comp].Pending?
    && (Rebuilds(cfg, s.store, s.adapterKey, root, comp, s.repairs[comp]) ==> Elements(s.repairs[comp].frontier) !! s.store.ledger)
  }

  ghost predicate ReconstructionHarmless(cfg: Config, s: State, root: Id) {
    forall comp :: comp in PendingIn(s.repairs) ==> RebuildHarmless(cfg, s, root, comp)
  }

  ghost predicate RebuiltOnly(st: Store, st': Store, token: string, comps: set<Id>) {
    && st'.ledger == st.ledger
    && (forall x :: x in st.dag ==> x in st'.dag && st'.dag[x] == st.dag[x])
    && (forall x :: x in st'.dag && x !in st.dag ==> exists n :: n in comps && x == RebuiltId(token, n))
  }

  lemma RebuiltSources(id: Id, r: Repair, summarizer: string, author: string)
    requires r.Pending?
    ensures Sources(RebuiltPayload(id, r, summarizer, author)) == Elements(r.frontier)
  {
    CommitmentsMeaning(r.frontier, PLACEHOLDER_HASH, Compaction, RebuiltPayload(id, r, summarizer, author));
  }

  /** A rebuild either commits one new node on its frontier or leaves the graph alone. */
  lemma RebuildEffect(cfg: Config, snapshot: State, before: State, root: Id, comp: Id, token: string, now: int)
    requires cfg.recovery.Remote? ==> before.adapterKey == snapshot.adapterKey
    requires comp in PendingIn(snapshot.repairs)
    ensures var r := snapshot.repairs[comp];
            var t := Rebuild(cfg, snapshot.store, before, root, comp, r, token, now);
            && (cfg.recovery.Remote? ==> t.adapterKey == snapshot.adapterKey)
            && t.events == before.events
            && (!Rebuilds(cfg, snapshot.store, snapshot.adapterKey, root, comp, r) ==> t.store == before.store)
            && (Rebuilds(cfg, snapshot.store, snapshot.adapterKey, root, comp, r) ==>
                  exists p: Payload :: p.id == RebuiltId(token, comp) && Sources(p) == Elements(r.frontier) && t.store == Commit(before.store, p))
  {
    hide Closure, EdgesOf, AdapterAgrees, Sources;
    var r := snapshot.repairs[comp];
    var id := RebuiltId(token, comp);
    var t := Rebuild(cfg, snapshot.store, before, root, comp, r, token, now);
    if Rebuilds(cfg, snapshot.store, snapshot.adapterKey, root, comp, r) {
      match cfg.recovery {
        case Inline =>
          RebuiltSources(id, r, "", "key:" + id);
          assert t.store == Commit(before.store, RebuiltPayload(id, r, "", "key:" + id));
        case Remote(identity) =>
          RebuiltSources(id, r, "verified_checkpoint_reconstruction", identity);
          assert t.store == Commit(before.store, RebuiltPayload(id, r, "verified_checkpoint_reconstruction", identity));
      }
    }
  }

  lemma RebuildStep(cfg: Config, snapshot: State, before: State, root: Id, comp: Id, comps: set<Id>, token: string, now: int)
    requires Filed(before.store) && FreshRebuilt(snapshot.store, token) && comp !in comps
    requires RebuiltOnly(snapshot.store, before.store, token, comps)
    requires cfg.recovery.Remote? ==> before.adapterKey == snapshot.adapterKey
    requires comp in PendingIn(snapshot.repairs)
    ensures var t := Rebuild(cfg, snapshot.store, before, root, comp, snapshot.repairs[comp], token, now);
            && Filed(t.store) && RebuiltOnly(snapshot.store, t.store, token, comps + {comp})
            && (cfg.recovery.Remote? ==> t.adapterKey == snapshot.adapterKey)
            && t.events == before.events
            && (Closed(EdgesOf(t.store.dag), t.store.ledger) <==>
                  Closed(EdgesOf(before.store.dag), before.store.ledger) && RebuildHarmless(cfg, snapshot, root, comp))
  {
    hide Closure, EdgesOf, AdapterAgrees, Sources, Rebuild, Rebuilds, RebuiltId, PendingIn;
    assert comp in snapshot.repairs && snapshot.repairs[comp].Pending? by { PendingMeaning(snapshot.repairs, comp); }
    var r := snapshot.repairs[comp];
    RebuildEffect(cfg, snapshot, before, root, comp, token, now);
    if Rebuilds(cfg, snapshot.store, snapshot.adapterKey, root, comp, r) {
      var t := Rebuild(cfg, snapshot.store, before, root, comp, r, token, now);
      var p: Payload :| p.id == RebuiltId(token, comp) && Sources(p) == Elements(r.frontier) && t.store == Commit(before.store, p);
      forall n | n in comps ensures p.id != RebuiltId(token, n) {
        MintedDistinct(token, comp, n);
      }
      CommitEdges(before.store, p);
      CommitClosed(before.store, p);
    }
  }

  lemma PendingMeaning(repairs: map<Id, Repair>, n: Id)
    ensures n in PendingIn(repairs) <==> n in repairs && repairs[n].Pending?
  {
  }

  lemma {:induction false} RebuildAllKeeps(cfg: Config, snapshot: State, s: State, root: Id, comps: seq<Id>, token: string, now: int)
    requires Elements(comps) <= PendingIn(snapshot.repairs)
    ensures var t := RebuildAll(cfg, snapshot, s, root, comps, token, now);
            && t == s.(store := t.store, horizon := t.horizon, repairs := t.repairs, adapterKey := t.adapterKey)
            && t.store.ledger == s.store.ledger
    decreases |comps|
  {
    hide AdapterAgrees, RebuiltPayload;
    if comps != [] {
      assert Elements(comps[..|comps| - 1]) <= Elements(comps);
      assert comps[|comps| - 1] in Elements(comps);
      RebuildAllKeeps(cfg, snapshot, s, root, comps[..|comps| - 1], token, now);
    }
  }

  lemma ReconstructKeeps(cfg: Config, s: State, root: Id, token: string, now: int)
    ensures var t := Reconstruct(cfg, s, root, token, now);
            && t == s.(store := t.store, horizon := t.horizon, repairs := t.repairs, adapterKey := t.adapterKey)
            && t.store.ledger == s.store.ledger
  {
    hide RebuildAll;
    var comps := SortedIds(PendingIn(s.repairs));
    assert Elements(comps) == PendingIn(s.repairs);
    RebuildAllKeeps(cfg, s, s, root, comps, token, now);
  }

  lemma {:induction false} RebuildAllClosed(cfg: Config, s: State, root: Id, comps: seq<Id>, token: string, now: int)
    requires Filed(s.store) && FreshRebuilt(s.store, token) && NoDuplicates(comps)
    requires Elements(comps) <= PendingIn(s.repairs)
    ensures var t := RebuildAll(cfg, s, s, root, comps, token, now);
            && Filed(t.store) && RebuiltOnly(s.store, t.store, token, Elements(comps))
            && t.store.ledger == s.store.ledger && t.events == s.events
            && (cfg.recovery.Remote? ==> t.adapterKey == s.adapterKey)
            && (Closed(EdgesOf(t.store.dag), t.store.ledger) <==>
                  Closed(EdgesOf(s.store.dag), s.store.ledger)
                  && forall comp :: comp in comps ==> RebuildHarmless(cfg, s, root, comp))
    decreases |comps|
  {
    hide Closure, EdgesOf, AdapterAgrees, Rebuild, RebuildHarmless, FreshRebuilt;
    if comps != [] {
      var init, comp := comps[..|comps| - 1], comps[|comps| - 1];
      assert comps == init + [comp];
      assert Elements(comps) == Elements(init) + {comp};
      RebuildAllClosed(cfg, s, root, init, token, now);
      RebuildStep(cfg, s, RebuildAll(cfg, s, s, root, init, token, now), root, comp, Elements(init), token, now);
    }
  }

  lemma ReconstructClosed(cfg: Config, s: State, root: Id, token: string, now: int)
    requires Filed(s.store) && FreshRebuilt(s.store, token)
    ensures var t := Reconstruct(cfg, s, root, token, now);
            && Filed(t.store) && RebuiltOnly(s.store, t.store, token, PendingIn(s.repairs))
            && t.store.ledger == s.store.ledger && t.events == s.events
            && (Closed(EdgesOf(t.store.dag), t.store.ledger) <==>
                  Closed(EdgesOf(s.store.dag), s.store.ledger) && ReconstructionHarmless(cfg, s, root))
  {
    hide Closure, EdgesOf, RebuildHarmless;
    var comps := SortedIds(PendingIn(s.repairs));
    assert Elements(comps) == PendingIn(s.repairs);
    RebuildAllClosed(cfg, s, root, comps, token, now);
  }

  // ---- Whole requests ----

  /** The submission passes every check that comes before the policy decision. */
  predicate Considered(s: State, sub: Submission) {
    && sub.signatureValid && |sub.payload.parents| <= 256 && sub.payload.id !in s.store.ledger
    && !(sub.payload.compaction && Tainted(sub.payload.covers, s.store.ledger) != [])
    && sub.policyUp
  }

  /**
   * A rejected id must be new and not yet named as a source by a clean node;
   * an admitted new id must not cover a quarantined node. The code checks covers on compactions only.
   */
  ghost predicate HarmlessSubmission(s: State, sub: Submission, now: int) {
    Considered(s, sub) ==>
      match Evaluate(sub.payload, s.store, sub.auth, now)
      case TaintedParent(_) => RejectHarmless(s.store, sub.payload)
      case Admit =>
        FirstMismatch(sub.payload.parents, s.store.dag).None? ==>
          sub.payload.id in s.store.dag || Elements(sub.payload.covers) !! s.store.ledger
      case _ => true
  }

  /** What continuity and reconstruction see of a state whose closure c is being quarantined. */
  function After(s: State, c: set<Id>): State {
    s.(store := Quarantine(s.store, c))
  }

  /** The critical dependents a designation would serve, in dictionary order. */
  ghost function DependentsOf(s: State, root: Id): seq<Dependent> {
    Critical(s.store.dag, s.store.order, Blast(s.store.dag, root))
  }

  ghost predicate EmitsAny(cfg: Config, s: State, root: Id, token: string, now: int) {
    cfg.continuity && Emits(After(s, Blast(s.store.dag, root)), DependentsOf(s, root), token, now)
  }

  /**
   * n will be rebuilt: it will be pending and, with a remote adapter, the adapter answers and its key is in place.
   * An emission replaces the key, so the adapter is then asked with the key of the last emitted record.
   */
  ghost predicate RebuiltAfter(cfg: Config, s: State, root: Id, token: string, now: int, n: Id) {
    PendingAfter(s, root, now, n) &&
      var t := After(s, Blast(s.store.dag, root));
      var r := RepairAfter(s, root, now, n);
      if EmitsAny(cfg, s, root, token, now) then
        var e := Continue(t, t, DependentsOf(s, root), token, now);
        Rebuilds(cfg, e.store, e.adapterKey, root, n, r)
      else Rebuilds(cfg, s.store, s.adapterKey, root, n, r)
  }

  /**
   * A caller's check before a designation: no replay hangs on a quarantined built-in root, and every compaction that
   * will be rebuilt keeps a frontier, under its last judge or from before, outside the ledger and the new closure.
   */
  ghost predicate HarmlessDesignation(cfg: Config, s: State, root: Id, token: string, now: int) {
    root in s.store.dag && root !in s.store.ledger ==>
      var c := Blast(s.store.dag, root);
      && (cfg.continuity ==> ContinuityHarmless(After(s, c), DependentsOf(s, root), token, now))
      && forall n :: RebuiltAfter(cfg, s, root, token, now, n) ==>
           Elements(RepairAfter(s, root, now, n).frontier) !! s.store.ledger + c
  }

  ghost predicate Harmless(cfg: Config, s: State, r: Request) {
    match r
    case SubmitCandidate(sub, now) => HarmlessSubmission(s, sub, now)
    case DesignatePoison(root, token, now) => HarmlessDesignation(cfg, s, root, token, now)
    case _ => true
  }

  /** Identities minted while handling a request are new. */
  ghost predicate FreshFor(s: State, r: Request) {
    r.DesignatePoison? ==> FreshToken(s.store, r.token)
  }

  lemma {:induction false} TaintedMeaning(ids: seq<Id>, ledger: set<Id>)
    ensures forall x :: x in Tainted(ids, ledger) <==> x in ids && x in ledger
    ensures Tainted(ids, ledger) == [] <==> Elements(ids) !! ledger
  {
    if ids != [] {
      TaintedMeaning(ids[1..], ledger);
      assert ids == [ids[0]] + ids[1..];
      assert ids[0] in Elements(ids);
      assert Elements(ids) == {ids[0]} + Elements(ids[1..]);
    }
  }

  lemma {:induction false} SameFirstMismatch(parents: seq<Commitment>, a: Dag, b: Dag)
    requires forall c :: c in parents ==> (c.parent in a <==> c.parent in b)
    requires forall c :: c in parents && c.parent in a ==> a[c.parent].digest == b[c.parent].digest
    ensures FirstMismatch(parents, a) == FirstMismatch(parents, b)
  {
    if parents != [] {
      assert parents[0] in parents;
      SameFirstMismatch(parents[1..], a, b);
    }
  }

  /** The gap is an annotation: it changes neither the decision nor the edges. */
  lemma GapIsAnnotation(p: Payload, st: Store, auth: Auth, now: int)
    ensures Evaluate(WithGap(p, st.dag), st, auth, now) == Evaluate(p, st, auth, now)
    ensures Sources(WithGap(p, st.dag)) == Sources(p) && ParentSet(WithGap(p, st.dag)) == ParentSet(p)
  {
    hide AllowStateWrite, AllowReintegration, FirstTainted;
    var q := WithGap(p, st.dag);
    assert ParentList(q) == ParentList(p);
    assert AllowReintegration(q, ParentList(p), st.ledger * Elements(ParentList(p)), auth, now)
        == AllowReintegration(p, ParentList(p), st.ledger * Elements(ParentList(p)), auth, now) by {
      SamePolicy(p, q, ParentList(p), st.ledger * Elements(ParentList(p)), auth, now);
    }
  }

  lemma SamePolicy(p: Payload, q: Payload, frontier: seq<Id>, quarantined: set<Id>, auth: Auth, now: int)
    requires p.justified == q.justified && p.id == q.id
    ensures AllowReintegration(p, frontier, quarantined, auth, now) == AllowReintegration(q, frontier, quarantined, auth, now)
  {
  }

  lemma RejectBranch(cfg: Config, s: State, p: Payload, root: Id, now: int)
    requires Filed(s.store) && Contained(s) && p.id !in s.store.ledger && ParentSet(p) * s.store.ledger != {}
    ensures var t := Reject(cfg, s, p, root, now).0;
            Filed(t.store) && (Contained(t) <==> RejectHarmless(s.store, p))
  {
    hide Closure, EdgesOf, Reject, Roots, Contained, RejectionEvent, RejectHarmless;
    CommitEdges(s.store, p);
    RejectEffect(cfg, s, p, root, now);
    RejectContainment(s, Reject(cfg, s, p, root, now).0, p);
  }

  lemma AcceptBranch(s: State, p: Payload)
    requires Filed(s.store) && Contained(s) && ParentSet(p) !! s.store.ledger && p.id !in s.store.ledger
    ensures var t := Accept(s, p).0;
            && Filed(t.store)
            && (Contained(t) <==> FirstMismatch(p.parents, s.store.dag).Some? || p.id in s.store.dag || Elements(p.covers) !! s.store.ledger)
  {
    hide Closure, EdgesOf, Roots, Contained, FirstMismatch;
    CommitEdges(s.store, p);
    AdmitContainment(s, Accept(s, p).0, p);
  }

  /** Submit, with the annotation resolved and the early exits taken. */
  lemma SubmitBranches(cfg: Config, s: State, sub: Submission, now: int)
    ensures var p := WithGap(sub.payload, s.store.dag);
            var (t, _) := Submit(cfg, s, sub, now);
            if !Considered(s, sub) then t == s
            else match Evaluate(sub.payload, s.store, sub.auth, now)
              case TaintedParent(root) => t == Reject(cfg, s, p, root, now).0
              case Admit => t == Accept(s, p).0
              case _ => t == s
  {
    hide Reject, Accept, Evaluate, WithGap;
    GapKeepsFields(sub.payload, s.store.dag);
    GapIsAnnotation(sub.payload, s.store, sub.auth, now);
  }

  lemma SubmitContainment(cfg: Config, s: State, sub: Submission, now: int)
    requires Filed(s.store) && Contained(s)
    ensures Filed(Submit(cfg, s, sub, now).0.store)
    ensures Contained(Submit(cfg, s, sub, now).0) <==> HarmlessSubmission(s, sub, now)
  {
    hide Closure, EdgesOf, Reject, Accept, Evaluate, WithGap, FirstMismatch, Roots, Contained, Submit, Filed, Tainted;
    var p := WithGap(sub.payload, s.store.dag);
    GapKeepsFields(sub.payload, s.store.dag);
    GapIsAnnotation(sub.payload, s.store, sub.auth, now);
    SubmitBranches(cfg, s, sub, now);
    if Considered(s, sub) {
      DecisionMeaning(sub.payload, s.store, sub.auth, now);
      match Evaluate(sub.payload, s.store, sub.auth, now) {
        case TaintedParent(root) => RejectBranch(cfg, s, p, root, now);
        case Admit => AcceptBranch(s, p);
        case _ =>
      }
    }
  }

  lemma GapKeepsFields(p: Payload, dag: Dag)
    ensures var q := WithGap(p, dag); q == p.(gap := q.gap)
  {
  }

  lemma AdmitContainment(s: State, t: State, p: Payload)
    requires Filed(s.store) && Contained(s) && ParentSet(p) !! s.store.ledger && p.id !in s.store.ledger
    requires t.events == s.events && (t.store == s.store || (t.store == Commit(s.store, p) && p.id !in s.store.dag))
    ensures Contained(t) <==> (t.store == s.store || Elements(p.covers) !! s.store.ledger)
  {
    hide Closure, EdgesOf, Roots, Sources, Elements, Closed, Justified, Contained, CommitHarmless, Filed, ParentSet;
    SameRoots(s, t);
    if t.store == s.store {
      SameStoreContained(s, t);
    } else {
      ContainedMeaning(s);
      ContainedMeaning(t);
      CommitJustified(s, t, p);
      CommitClosed(s.store, p);
      CleanParentsLeaveCovers(s.store, p);
    }
  }

  lemma SameRoots(s: State, t: State)
    requires t.events == s.events
    ensures Roots(t) == Roots(s)
  {
  }

  lemma SameStoreContained(s: State, t: State)
    requires t.store == s.store && t.events == s.events
    ensures Contained(t) <==> Contained(s)
  {
    hide Closure, EdgesOf, Roots;
    SameRoots(s, t);
  }

  lemma CleanParentsLeaveCovers(st: Store, p: Payload)
    requires ParentSet(p) !! st.ledger && p.id !in st.ledger && p.id !in st.dag
    ensures CommitHarmless(st, p) <==> Elements(p.covers) !! st.ledger
  {
    hide ParentSet, Elements;
  }

  lemma EmitDepends(s: State, t: State, d: Dependent, token: string, at: int)
    requires t.store == s.store && t.checkpoints == s.checkpoints && t.substitutes == s.substitutes
    ensures Emit(t, d, token, at) == Emit(s, d, token, at)
    ensures EmissionHarmless(t, d, token, at) <==> EmissionHarmless(s, d, token, at)
  {
    hide Replayable, Relevant, ReplayParents;
    SubstitutableDepends(s, t, SortedIds(Relevant(s.store, d)), at);
  }

  lemma {:induction false} SubstitutableDepends(s: State, t: State, targets: seq<Id>, at: int)
    requires t.store == s.store && t.substitutes == s.substitutes
    ensures FirstSubstitutable(t, targets, at) == FirstSubstitutable(s, targets, at)
  {
    if targets != [] { SubstitutableDepends(s, t, targets[1..], at); }
  }

  lemma {:induction false} ContinueDepends(s: State, t: State, deps: seq<Dependent>, token: string, at: int)
    requires t.store == s.store && t.checkpoints == s.checkpoints && t.substitutes == s.substitutes
    requires t.adapterKey == s.adapterKey
    ensures Continue(t, t, deps, token, at).store == Continue(s, s, deps, token, at).store
    ensures Continue(t, t, deps, token, at).adapterKey == Continue(s, s, deps, token, at).adapterKey
    decreases |deps|
  {
    hide Emit, Commit;
    if deps != [] {
      ContinueDependsOn(s, t, s, t, deps, token, at);
    }
  }

  lemma {:induction false} ContinueDependsOn(s0: State, t0: State, s: State, t: State, deps: seq<Dependent>, token: string, at: int)
    requires t0.store == s0.store && t0.checkpoints == s0.checkpoints && t0.substitutes == s0.substitutes
    requires t.store == s.store && t.adapterKey == s.adapterKey
    ensures Continue(t0, t, deps, token, at).store == Continue(s0, s, deps, token, at).store
    ensures Continue(t0, t, deps, token, at).adapterKey == Continue(s0, s, deps, token, at).adapterKey
    decreases |deps|
  {
    hide Emit, Commit;
    if deps != [] {
      var n := |deps| - 1;
      ContinueDependsOn(s0, t0, s, t, deps[..n], token, at);
      EmitDepends(s0, t0, deps[n], token, at);
    }
  }

  lemma {:induction false} NoEmissionNoChange(snapshot: State, s: State, deps: seq<Dependent>, token: string, at: int)
    requires !Emits(snapshot, deps, token, at)
    ensures Continue(snapshot, s, deps, token, at) == s
    decreases |deps|
  {
    hide Emit;
    if deps != [] {
      assert deps[|deps| - 1] in deps && forall d :: d in deps[..|deps| - 1] ==> d in deps;
      NoEmissionNoChange(snapshot, s, deps[..|deps| - 1], token, at);
    }
  }

  /** What reconstruction starts from, in terms of the state before the designation. */
  lemma ContinuedState(cfg: Config, s: State, root: Id, token: string, now: int)
    ensures var c := Blast(s.store.dag, root);
            var t := After(s, c);
            var s2 := Continuity(cfg, Contain(cfg, s, root, now), c, token, now);
            var e := Continue(t, t, DependentsOf(s, root), token, now);
            && s2.repairs == Contain(cfg, s, root, now).repairs
            && (if EmitsAny(cfg, s, root, token, now) then s2.store == e.store && s2.adapterKey == e.adapterKey
                else s2.store == t.store && s2.adapterKey == s.adapterKey)
  {
    hide Contain, Continue, Closure, EdgesOf, Critical, Emit, Roots;
    var c := Blast(s.store.dag, root);
    var s1, t := Contain(cfg, s, root, now), After(s, c);
    var deps := DependentsOf(s, root);
    ContainEffect(cfg, s, root, now);
    assert Critical(s1.store.dag, s1.store.order, c) == deps;
    if cfg.continuity {
      ContinueKeeps(s1, s1, deps, token, now);
      ContinueDepends(t, s1, deps, token, now);
      if !Emits(t, deps, token, now) { NoEmissionNoChange(t, t, deps, token, now); }
    }
  }

  lemma RebuildsDepends(cfg: Config, a: Store, b: Store, key: string, root: Id, comp: Id, r: Repair)
    requires r.Pending? && a.dag == b.dag
    ensures Rebuilds(cfg, a, key, root, comp, r) <==> Rebuilds(cfg, b, key, root, comp, r)
  {
    hide AdapterAgrees;
  }

  /** The pending entries reconstruction meets, and which of them it rebuilds, in terms of the state before. */
  lemma RebuiltMeaning(cfg: Config, s: State, root: Id, token: string, now: int, n: Id)
    ensures var s2 := Continuity(cfg, Contain(cfg, s, root, now), Blast(s.store.dag, root), token, now);
            && (n in PendingIn(s2.repairs) <==> PendingAfter(s, root, now, n))
            && (n in PendingIn(s2.repairs) ==> s2.repairs[n] == RepairAfter(s, root, now, n))
            && (n in PendingIn(s2.repairs) ==>
                 (Rebuilds(cfg, s2.store, s2.adapterKey, root, n, s2.repairs[n]) <==> RebuiltAfter(cfg, s, root, token, now, n)))
  {
    hide Contain, Continuity, Continue, Closure, EdgesOf, DependentsOf, EmitsAny, Rebuilds, PendingAfter, RepairAfter;
    ContinuedState(cfg, s, root, token, now);
    ContainPending(cfg, s, root, now, n);
    var s2 := Continuity(cfg, Contain(cfg, s, root, now), Blast(s.store.dag, root), token, now);
    if PendingAfter(s, root, now, n) && !EmitsAny(cfg, s, root, token, now) {
      RebuildsDepends(cfg, s2.store, s.store, s.adapterKey, root, n, RepairAfter(s, root, now, n));
    }
  }

  lemma ContinuityHarmlessDepends(s: State, t: State, deps: seq<Dependent>, token: string, at: int)
    requires t.store == s.store && t.checkpoints == s.checkpoints && t.substitutes == s.substitutes
    ensures ContinuityHarmless(t, deps, token, at) <==> ContinuityHarmless(s, deps, token, at)
  {
    hide EmissionHarmless;
    forall d | d in deps ensures EmissionHarmless(t, d, token, at) <==> EmissionHarmless(s, d, token, at) {
      EmitDepends(s, t, d, token, at);
    }
  }

  /** The caller's check is the condition on the states the designation goes through. */
  lemma HarmlessMeaning(cfg: Config, s: State, root: Id, token: string, now: int)
    requires root in s.store.dag && root !in s.store.ledger
    ensures var s1 := Contain(cfg, s, root, now);
            var c := Blast(s.store.dag, root);
            HarmlessDesignation(cfg, s, root, token, now) <==>
              && (cfg.continuity ==> ContinuityHarmless(s1, Critical(s1.store.dag, s1.store.order, c), token, now))
              && ReconstructionHarmless(cfg, Continuity(cfg, s1, c, token, now), root)
  {
    hide Contain, Continuity, Closure, EdgesOf, Critical, ContinuityHarmless, RebuiltAfter, PendingAfter, RepairAfter, Rebuilds, Roots;
    var c := Blast(s.store.dag, root);
    var s1 := Contain(cfg, s, root, now);
    var s2 := Continuity(cfg, s1, c, token, now);
    ContainEffect(cfg, s, root, now);
    ContinuedLedger(cfg, s, root, token, now);
    ContinuityHarmlessDepends(After(s, c), s1, DependentsOf(s, root), token, now);
    forall n ensures RebuiltAfter(cfg, s, root, token, now, n) ==> PendingAfter(s, root, now, n) && n in PendingIn(s2.repairs) {
      RebuiltIsPending(cfg, s, root, token, now, n);
      RebuiltMeaning(cfg, s, root, token, now, n);
    }
    forall n | n in PendingIn(s2.repairs)
      ensures RebuildHarmless(cfg, s2, root, n) <==>
        (RebuiltAfter(cfg, s, root, token, now, n) ==> Elements(RepairAfter(s, root, now, n).frontier) !! s.store.ledger + c)
    {
      RebuiltMeaning(cfg, s, root, token, now, n);
      RebuiltIsPending(cfg, s, root, token, now, n);
    }
  }

  lemma RebuiltIsPending(cfg: Config, s: State, root: Id, token: string, now: int, n: Id)
    ensures RebuiltAfter(cfg, s, root, token, now, n) ==> PendingAfter(s, root, now, n)
  {
    hide PendingAfter, Rebuilds, RepairAfter, EmitsAny, Continue;
  }

  lemma ContinuedLedger(cfg: Config, s: State, root: Id, token: string, now: int)
    ensures var s2 := Continuity(cfg, Contain(cfg, s, root, now), Blast(s.store.dag, root), token, now);
            s2.store.ledger == s.store.ledger + Blast(s.store.dag, root)
  {
    hide Contain, Continue, Closure, EdgesOf, Critical, Roots;
    var s1 := Contain(cfg, s, root, now);
    ContainEffect(cfg, s, root, now);
    ContinueKeeps(s1, s1, Critical(s1.store.dag, s1.store.order, Blast(s.store.dag, root)), token, now);
  }

  lemma DesignateContainment(cfg: Config, s: State, root: Id, token: string, now: int)
    requires Filed(s.store) && Contained(s) && FreshToken(s.store, token)
    ensures Filed(Designate(cfg, s, root, token, now).0.store)
    ensures Contained(Designate(cfg, s, root, token, now).0) <==> HarmlessDesignation(cfg, s, root, token, now)
  {
    hide Contain, Continuity, Reconstruct, Closure, EdgesOf, Contained, Filed, FreshToken, Roots;
    if root in s.store.dag && root !in s.store.ledger {
      hide HarmlessDesignation;
      var s1 := Contain(cfg, s, root, now);
      ContainEffect(cfg, s, root, now);
      ContainIsExact(cfg, s, root, now);
      FreshAfterContain(s, s1, root, token);
      DesignateTail(cfg, s1, Blast(s.store.dag, root), root, token, now);
      HarmlessMeaning(cfg, s, root, token, now);
    }
  }

  lemma FreshAfterContain(s: State, s1: State, root: Id, token: string)
    requires FreshToken(s.store, token) && root in s.store.dag && Filed(s.store)
    requires s1.store == Quarantine(s.store, Blast(s.store.dag, root))
    ensures FreshToken(s1.store, token) && Filed(s1.store)
  {
    BlastIsCommitted(s.store, root);
  }

  /** Traversal only ever reaches the root and committed nodes. */
  lemma BlastIsCommitted(st: Store, root: Id)
    ensures Blast(st.dag, root) <= st.dag.Keys + {root}
  {
    forall v | v in Targets(EdgesOf(st.dag)) ensures v in st.dag {
      var p :| p in EdgesOf(st.dag) && p.1 == v;
      EdgeMeaning(st.dag, p.0, p.1);
    }
  }

  lemma DesignateTail(cfg: Config, s1: State, c: set<Id>, root: Id, token: string, now: int)
    requires Filed(s1.store) && Contained(s1) && FreshToken(s1.store, token)
    ensures var s2 := Continuity(cfg, s1, c, token, now);
            var t := Reconstruct(cfg, s2, root, token, now);
            && Filed(t.store)
            && (Contained(t) <==>
                  (cfg.continuity ==> ContinuityHarmless(s1, Critical(s1.store.dag, s1.store.order, c), token, now))
                  && ReconstructionHarmless(cfg, s2, root))
  {
    var s2 := Continuity(cfg, s1, c, token, now);
    var t := Reconstruct(cfg, s2, root, token, now);
    hide Closure, EdgesOf, Contained, Continue, Reconstruct, ReconstructionHarmless, ContinuityHarmless, RebuiltOnly, AddsOnly, FreshRebuilt, FreshToken;
    var deps := Critical(s1.store.dag, s1.store.order, c);
    CriticalDistinct(s1.store.dag, s1.store.order, c);
    FreshStaysRebuilt(s1.store, s1.store, token, {});
    if cfg.continuity {
      ContinueKeeps(s1, s1, deps, token, now);
      ContinueClosed(s1, s1, deps, token, now);
      FreshStaysRebuilt(s1.store, s2.store, token, Nodes(deps));
    }
    ReconstructClosed(cfg, s2, root, token, now);
    ContainedMeaning(s1);
    ContainedMeaning(t);
    GrowthJustified(s1, t, token, Nodes(deps), PendingIn(s2.repairs), s2);
  }

  lemma FreshStaysRebuilt(st: Store, st': Store, token: string, nodes: set<Id>)
    requires FreshToken(st, token) && (st' == st || AddsOnly(st, st', token, nodes))
    ensures FreshRebuilt(st', token)
  {
    forall n ensures RebuiltId(token, n) !in st'.dag && RebuiltId(token, n) !in st'.ledger {
      assert Minted(token, RebuiltId(token, n));
      forall m ensures RebuiltId(token, n) != ReplayId(token, m) && RebuiltId(token, n) != SubstituteId(token, m) {
        MintedDistinct(token, m, n);
      }
    }
  }

  lemma GrowthJustified(s1: State, t: State, token: string, nodes: set<Id>, comps: set<Id>, s2: State)
    requires Justified(s1) && t.events == s1.events
    requires s2.store == s1.store || AddsOnly(s1.store, s2.store, token, nodes)
    requires RebuiltOnly(s2.store, t.store, token, comps)
    ensures Justified(t)
  {
    hide Closure, Roots, Sources;
    SameRoots(s1, t);
    forall e | e in EdgesOf(s1.store.dag) ensures e in EdgesOf(t.store.dag) {
      EdgeMeaning(s1.store.dag, e.0, e.1);
      EdgeMeaning(t.store.dag, e.0, e.1);
    }
    ClosureMonotone(EdgesOf(s1.store.dag), EdgesOf(t.store.dag), Roots(s1), Roots(s1));
  }

  lemma CommitOnlyContainment(s: State, t: State, p: Payload)
    requires Filed(s.store) && Contained(s) && Sources(p) !! s.store.ledger
    requires t.events == s.events && (t.store == s.store || t.store == Commit(s.store, p))
    ensures Filed(t.store) && Contained(t)
  {
    hide Closure, EdgesOf, Roots, Contained, Closed;
    SameRoots(s, t);
    ContainedMeaning(s);
    ContainedMeaning(t);
    if t.store != s.store {
      CommitEdges(s.store, p);
      CommitJustified(s, t, p);
      CommitClosed(s.store, p);
    }
  }

  lemma CompactContainment(s: State, ev: CompactionEvent, valid: bool)
    requires Filed(s.store) && Contained(s)
    ensures Filed(Compact(s, ev, valid).0.store) && Contained(Compact(s, ev, valid).0)
  {
    var p := CompactionPayload(s.store.dag, ev);
    TaintedMeaning(ev.nodes, s.store.ledger);
    if Tainted(ev.nodes, s.store.ledger) == [] {
      forall u | u in ParentSet(p) ensures u in ev.nodes {
        var c :| c in p.parents && c.parent == u;
        var i :| 0 <= i < |p.parents| && p.parents[i] == c;
        assert ev.nodes[i] == u;
      }
      hide Closure, EdgesOf, Contained;
      CommitOnlyContainment(s, Compact(s, ev, valid).0, p);
    }
  }

  /** One request keeps the ledger an exact closure precisely when it is harmless. */
  lemma StepContainment(cfg: Config, s: State, r: Request)
    requires Filed(s.store) && Contained(s) && FreshFor(s, r)
    ensures Filed(Next(cfg, s, r).store)
    ensures Contained(Next(cfg, s, r)) <==> Harmless(cfg, s, r)
  {
    hide Closure, EdgesOf, Contained, Filed, Submit, Compact, Designate, HarmlessSubmission, HarmlessDesignation, Recur, FreshToken;
    match r
    case SubmitCandidate(sub, now) => SubmitContainment(cfg, s, sub, now);
    case ContextCompacted(ev, valid) => CompactContainment(s, ev, valid);
    case SeedRoot(root, key) => CommitOnlyContainment(s, Next(cfg, s, r), Bare(root).(digest := "seed", author := key));
    case DesignatePoison(root, token, now) => DesignateContainment(cfg, s, root, token, now);
    case Observe(n, now) =>
      ObserveKeeps(cfg, s, n, now);
      SameStoreContained(s, Next(cfg, s, r));
    case _ => SameStoreContained(s, Next(cfg, s, r));
  }

  lemma ObserveKeeps(cfg: Config, s: State, n: Id, now: int)
    ensures var t := Recur(cfg, s, n, now); t.store == s.store && t.events == s.events
  {
  }

  // ---- Whole runs ----

  ghost predicate FreshRun(cfg: Config, s: State, rs: seq<Request>) {
    forall i :: 0 <= i < |rs| ==> FreshFor(Run(cfg, s, rs[..i]), rs[i])
  }

  ghost predicate AlwaysContained(cfg: Config, s: State, rs: seq<Request>) {
    forall i :: 0 <= i <= |rs| ==> Contained(Run(cfg, s, rs[..i]))
  }

  ghost predicate AlwaysHarmless(cfg: Config, s: State, rs: seq<Request>) {
    forall i :: 0 <= i < |rs| ==> Harmless(cfg, Run(cfg, s, rs[..i]), rs[i])
  }

  lemma RunStep(cfg: Config, s: State, rs: seq<Request>, i: nat)
    requires i < |rs|
    ensures Run(cfg, s, rs[..i + 1]) == Next(cfg, Run(cfg, s, rs[..i]), rs[i])
  {
    assert rs[..i + 1][..i] == rs[..i];
  }

  // ---- The graph dictionary stays filed under its ids ----

  lemma CommitFiled(st: Store, p: Payload)
    requires Filed(st)
    ensures Filed(Commit(st, p))
  {
  }

  lemma SameDagFiled(st: Store, st': Store)
    requires Filed(st) && st'.dag == st.dag && st'.order == st.order
    ensures Filed(st')
  {
  }

  lemma {:induction false} ContinueFiled(snapshot: State, s: State, deps: seq<Dependent>, token: string, at: int)
    requires Filed(s.store)
    ensures Filed(Continue(snapshot, s, deps, token, at).store)
    decreases |deps|
  {
    hide Emit, Filed, Commit;
    if deps != [] {
      var n := |deps| - 1;
      ContinueFiled(snapshot, s, deps[..n], token, at);
      if Emit(snapshot, deps[n], token, at).Some? {
        CommitFiled(Continue(snapshot, s, deps[..n], token, at).store, Emit(snapshot, deps[n], token, at).value.payload);
      }
    }
  }

  lemma {:induction false} RebuildAllFiled(cfg: Config, snapshot: State, s: State, root: Id, comps: seq<Id>, token: string, now: int)
    requires Filed(s.store) && Elements(comps) <= PendingIn(snapshot.repairs)
    ensures Filed(RebuildAll(cfg, snapshot, s, root, comps, token, now).store)
    decreases |comps|
  {
    hide AdapterAgrees, RebuiltPayload, Filed, Commit;
    if comps != [] {
      var n := |comps| - 1;
      assert Elements(comps[..n]) <= Elements(comps);
      assert comps[n] in Elements(comps);
      RebuildAllFiled(cfg, snapshot, s, root, comps[..n], token, now);
      var before := RebuildAll(cfg, snapshot, s, root, comps[..n], token, now);
      var r := snapshot.repairs[comps[n]];
      var id := RebuiltId(token, comps[n]);
      CommitFiled(before.store, RebuiltPayload(id, r, "", "key:" + id));
      match cfg.recovery {
        case Inline =>
        case Remote(identity) =>
          CommitFiled(before.store, RebuiltPayload(id, r, "verified_checkpoint_reconstruction", identity));
      }
    }
  }

  lemma DesignateFiled(cfg: Config, s: State, root: Id, token: string, now: int)
    requires Filed(s.store)
    ensures Filed(Designate(cfg, s, root, token, now).0.store)
  {
    hide Filed, Contain, Continue, Reconstruct, Closure, EdgesOf, Critical, Roots;
    var s1 := Contain(cfg, s, root, now);
    var c := Blast(s.store.dag, root);
    ContainEffect(cfg, s, root, now);
    SameDagFiled(s.store, s1.store);
    ContinueFiled(s1, s1, Critical(s1.store.dag, s1.store.order, c), token, now);
    ReconstructFiled(cfg, Continuity(cfg, s1, c, token, now), root, token, now);
  }

  lemma ReconstructFiled(cfg: Config, s: State, root: Id, token: string, now: int)
    requires Filed(s.store)
    ensures Filed(Reconstruct(cfg, s, root, token, now).store)
  {
    hide Filed, RebuildAll;
    var comps := SortedIds(PendingIn(s.repairs));
    assert Elements(comps) == PendingIn(s.repairs);
    RebuildAllFiled(cfg, s, s, root, comps, token, now);
  }

  lemma SubmitFiled(cfg: Config, s: State, sub: Submission, now: int)
    requires Filed(s.store)
    ensures Filed(Submit(cfg, s, sub, now).0.store)
  {
    hide Filed, Submit, Reject, Evaluate, WithGap, FirstMismatch, Commit, Completed, RejectionEvent, Roots, Considered;
    var p := WithGap(sub.payload, s.store.dag);
    SubmitBranches(cfg, s, sub, now);
    CommitFiled(s.store, p);
    match Evaluate(sub.payload, s.store, sub.auth, now) {
      case TaintedParent(root) =>
        RejectEffect(cfg, s, p, root, now);
        SameDagFiled(Commit(s.store, p), Quarantine(Commit(s.store, p), {p.id}));
      case _ =>
    }
  }

  lemma StepFiled(cfg: Config, s: State, r: Request)
    requires Filed(s.store)
    ensures Filed(Next(cfg, s, r).store)
  {
    hide Filed, Submit, Designate, Recur, CompactionPayload, Tainted, Upserted, Commit;
    match r {
      case SubmitCandidate(sub, now) => SubmitFiled(cfg, s, sub, now);
      case DesignatePoison(root, token, now) => DesignateFiled(cfg, s, root, token, now);
      case ContextCompacted(ev, valid) => CommitFiled(s.store, CompactionPayload(s.store.dag, ev));
      case SeedRoot(root, key) => CommitFiled(s.store, Bare(root).(digest := "seed", author := key));
      case Observe(n, now) => ObserveKeeps(cfg, s, n, now);
      case _ =>
    }
  }

  /** Along every run each payload is filed under its own id and listed once. */
  lemma {:induction false} RunFiled(cfg: Config, s: State, rs: seq<Request>)
    requires Filed(s.store)
    ensures Filed(Run(cfg, s, rs).store)
    decreases |rs|
  {
    hide Filed, Next;
    if rs != [] {
      RunFiled(cfg, s, rs[..|rs| - 1]);
      StepFiled(cfg, Run(cfg, s, rs[..|rs| - 1]), rs[|rs| - 1]);
    }
  }

  // ---- Whole runs ----

  lemma RunSplits(cfg: Config, s: State, rs: seq<Request>)
    requires rs != []
    ensures var init, last := rs[..|rs| - 1], rs[|rs| - 1];
            && (AlwaysContained(cfg, s, rs) <==> AlwaysContained(cfg, s, init) && Contained(Run(cfg, s, rs)))
            && (AlwaysContained(cfg, s, init) ==> Contained(Run(cfg, s, init)))
            && (AlwaysHarmless(cfg, s, rs) <==> AlwaysHarmless(cfg, s, init) && Harmless(cfg, Run(cfg, s, init), last))
            && (FreshRun(cfg, s, rs) ==> FreshRun(cfg, s, init) && FreshFor(Run(cfg, s, init), last))
  {
    hide Run, Harmless, Contained, FreshFor;
    var init := rs[..|rs| - 1];
    assert forall i :: 0 <= i <= |init| ==> init[..i] == rs[..i];
    assert rs[..|rs|] == rs && init[..|init|] == init;
  }

  /** Over every run, the ledger is the exact closure in every state if and only if every request is harmless. */
  lemma {:induction false} RunContainment(cfg: Config, s: State, rs: seq<Request>)
    requires Filed(s.store) && Contained(s) && FreshRun(cfg, s, rs)
    ensures AlwaysContained(cfg, s, rs) <==> AlwaysHarmless(cfg, s, rs)
    decreases |rs|
  {
    hide Closure, EdgesOf, Next, Harmless, Contained, Filed, FreshFor;
    if rs == [] {
      assert forall i :: 0 <= i <= |rs| ==> rs[..i] == [];
    } else {
      hide AlwaysContained, AlwaysHarmless, FreshRun;
      var n := |rs| - 1;
      RunSplits(cfg, s, rs);
      RunContainment(cfg, s, rs[..n]);
      RunFiled(cfg, s, rs[..n]);
      if AlwaysContained(cfg, s, rs[..n]) {
        StepContainment(cfg, Run(cfg, s, rs[..n]), rs[n]);
      }
    }
  }

  /** A run that is exact throughout ends in an exact state. */
  lemma RunEndsContained(cfg: Config, s: State, rs: seq<Request>)
    requires AlwaysContained(cfg, s, rs)
    ensures Contained(Run(cfg, s, rs))
  {
    hide Run, Contained;
    assert rs[..|rs|] == rs;
  }
}
