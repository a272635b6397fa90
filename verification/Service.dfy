/** The request handlers over the in-memory backend, each proved to do what the state functions say. */
module Service {
  import opened Ids
  import opened Reach
  import opened Records
  import opened BlastRadius
  import opened Admission
  import opened Replacement
  import opened CoversGap
  import opened Gateway
  import opened Containment
  import opened MemoryBackend
  import Adapter

  // ---- Backend operations in terms of the state they represent ----

  method StoreNode(backend: MemoryStateBackend, p: Payload) returns (isNew: bool)
    requires backend.Valid()
    modifies backend`dag, backend`order
    ensures backend.Valid()
    ensures backend.View() == old(backend.View()).(store := Commit(old(backend.View()).store, p))
    ensures isNew <==> p.id !in old(backend.View()).store.dag
  {
    hide Filed, Commit;
    isNew := backend.CommitNode(p);
  }

  method Traverse(backend: MemoryStateBackend, root: Id) returns (c: seq<Id>)
    requires backend.Valid()
    modifies backend`repairCandidates
    ensures backend.Valid()
    ensures c == SortedIds(Blast(old(backend.View()).store.dag, root))
    ensures backend.View() == old(backend.View()).(repairs := BlastRepairs(old(backend.View()), root))
  {
    hide Filed, Closure, EdgesOf, BlastRepairs;
    c := backend.ComputeBlastRadius(root);
  }

  method LogRecurrence(backend: MemoryStateBackend, event: Recurrence, ids: seq<Id>, now: int)
    requires backend.Valid()
    modifies backend`recurrenceEvents, backend`withdrawalLedger
    ensures backend.Valid()
    ensures var s := old(backend.View());
            backend.View() == s.(recurrences := s.recurrences + [event],
                                 withdrawals := Withdrawn(s.withdrawals, ids, |s.recurrences|, now))
  {
    hide Filed, Withdrawn;
    backend.ApplyWithdrawalTransaction(event, ids, now);
  }

  /** Log a quarantine event, whose digest lists the ledger it leads to, and quarantine the given ids. */
  method LogAndQuarantine(backend: MemoryStateBackend, root: Id, c: seq<Id>, ids: seq<Id>, kind: EventKind, now: int)
    returns (event: QuarantineEvent)
    requires backend.Valid()
    modifies backend`quarantineLedger, backend`quarantineEvents
    ensures backend.Valid()
    ensures var s := old(backend.View());
            && event == QuarantineEvent(root, now, c, SortedIds(s.store.ledger + Elements(c) + Elements(ids)), kind)
            && backend.View() == s.(store := Quarantine(s.store, Elements(ids)), events := s.events + [event])
  {
    hide Filed, Elements;
    var digest := SortedIds(Elements(backend.quarantineLedger) + Elements(c) + Elements(ids));
    event := QuarantineEvent(root, now, c, digest, kind);
    backend.ApplyQuarantineTransaction(event, ids);
  }

  method RecordRow(backend: MemoryStateBackend, node: Id, parent: Id, now: int, author: string)
    requires backend.Valid()
    modifies backend`taintedRejections
    ensures backend.Valid()
    ensures var s := old(backend.View());
            backend.View() == s.(rejections := s.rejections + [Row(node, parent, now, author, None, None)])
  {
    hide Filed;
    backend.RecordTaintedRejection(node, parent, now, author);
  }

  // ---- Recurrence ----

  lemma WithdrawNothing(w: map<Id, Withdrawal>, event: nat, now: int)
    ensures Withdrawn(w, [], event, now) == w
  {
  }

  lemma RecurUnfolds(cfg: Config, s: State, n: Id, now: int, s1: State, event: Recurrence, ids: seq<Id>)
    requires s1 == s.(repairs := BlastRepairs(s, n))
    requires var c := Blast(s.store.dag, n);
             && event == Recurrence(n, now, |c| > cfg.maxAmplification, c)
             && ids == if |c| > cfg.maxAmplification then [] else SortedIds(c)
    ensures Recur(cfg, s, n, now) ==
      s1.(recurrences := s1.recurrences + [event], withdrawals := Withdrawn(s1.withdrawals, ids, |s1.recurrences|, now))
  {
    hide Closure, EdgesOf, BlastRepairs, Withdrawn;
    WithdrawNothing(s.withdrawals, |s.recurrences|, now);
  }

  lemma SortedElements(c: set<Id>)
    ensures Elements(SortedIds(c)) == c
  {
  }

  /** Compute the withdrawal closure; over the amplification limit the event is logged and withdraws nothing. */
  method ProcessRecurrence(backend: MemoryStateBackend, cfg: Config, n: Id, now: int)
    requires backend.Valid()
    modifies backend`repairCandidates, backend`recurrenceEvents, backend`withdrawalLedger
    ensures backend.Valid()
    ensures backend.View() == Recur(cfg, old(backend.View()), n, now)
  {
    hide *;
    ghost var s := backend.View();
    var w := Traverse(backend, n);
    SortedElements(Blast(s.store.dag, n));
    var escalated := |w| > cfg.maxAmplification;
    var event := Recurrence(n, now, escalated, Elements(w));
    RecurUnfolds(cfg, s, n, now, backend.View(), event, if escalated then [] else w);
    LogRecurrence(backend, event, if escalated then [] else w, now);
  }

  /** Every affected node that is on the reintegration horizon is processed as a recurrence of its own. */
  method ProcessActive(backend: MemoryStateBackend, cfg: Config, c: seq<Id>, active: set<Id>, now: int)
    requires backend.Valid()
    modifies backend`repairCandidates, backend`recurrenceEvents, backend`withdrawalLedger
    ensures backend.Valid()
    ensures backend.View() == RecurAll(cfg, old(backend.View()), c, active, now)
  {
    hide Recur, Filed;
    ghost var s := backend.View();
    assert RecurAll(cfg, s, c[..0], active, now) == s;
    for i := 0 to |c|
      modifies backend`repairCandidates, backend`recurrenceEvents, backend`withdrawalLedger
      invariant backend.Valid()
      invariant backend.View() == RecurAll(cfg, s, c[..i], active, now)
    {
      assert c[..i + 1][..i] == c[..i];
      if c[i] in active {
        ProcessRecurrence(backend, cfg, c[i], now);
      }
    }
    assert c[..|c|] == c;
  }

  // ---- Submission ----

  /** Traverse from `root`, judging compactions on the way, then process the active nodes it reached. */
  method AssessFrom(backend: MemoryStateBackend, cfg: Config, root: Id, now: int) returns (c: seq<Id>)
    requires backend.Valid()
    modifies backend`repairCandidates, backend`recurrenceEvents, backend`withdrawalLedger
    ensures backend.Valid()
    ensures c == SortedIds(Blast(old(backend.View()).store.dag, root))
    ensures backend.View() == Assess(cfg, old(backend.View()), root, now)
  {
    hide Closure, EdgesOf, BlastRepairs, Filed, Active, RecurAll;
    c := Traverse(backend, root);
    var active := backend.GetActiveHorizonSet(now);
    ProcessActive(backend, cfg, c, active, now);
  }

  lemma RefusedUnfolds(cfg: Config, s: State, p: Payload, root: Id, now: int)
    ensures var s1 := s.(store := Commit(s.store, p));
            var s2 := Assess(cfg, s1, root, now);
            var event := RejectionEvent(s1.store.dag, s2.store.ledger, p.id, root, now);
            && event == QuarantineEvent(root, now, SortedIds(Blast(s1.store.dag, root)),
                                        SortedIds(s2.store.ledger + Blast(s1.store.dag, root) + {p.id}), Rejection)
            && event == RejectionEvent(Commit(s.store, p).dag, s.store.ledger, p.id, root, now)
            && Refused(cfg, s, p, root, now) ==
                 s2.(store := Quarantine(s2.store, {p.id}), events := s2.events + [event],
                     rejections := s2.rejections + [Row(p.id, root, now, p.author, None, None)])
  {
    hide Assess, Closure, EdgesOf, Quarantine;
    AssessKeeps(cfg, s.(store := Commit(s.store, p)), root, now);
  }

  /** The refusal up to its row: committed, assessed, its own id quarantined, recorded. */
  method StoreRefusal(backend: MemoryStateBackend, cfg: Config, p: Payload, root: Id, now: int) returns (event: QuarantineEvent)
    requires backend.Valid()
    modifies backend
    ensures backend.Valid()
    ensures backend.View() == Refused(cfg, old(backend.View()), p, root, now)
    ensures var s := old(backend.View()); event == RejectionEvent(Commit(s.store, p).dag, s.store.ledger, p.id, root, now)
  {
    hide *;
    RefusedUnfolds(cfg, backend.View(), p, root, now);
    var isNew := StoreNode(backend, p);
    ghost var s1 := backend.View();
    var c := AssessFrom(backend, cfg, root, now);
    SortedElements(Blast(s1.store.dag, root));
    OneElement(p.id);
    event := LogAndQuarantine(backend, root, c, [p.id], Rejection, now);
    RecordRow(backend, p.id, root, now, p.author);
  }

  method MakeOffer(backend: MemoryStateBackend, node: Id, root: Id) returns (replacement: Option<Found>)
    requires backend.Valid()
    modifies backend`taintedRejections
    ensures backend.Valid()
    ensures var s := old(backend.View());
            && replacement == FindReplacement(s, root)
            && backend.View() == match replacement
                 case None => s
                 case Some(f) => s.(rejections := Offered(s.rejections, node, Offer(f.node, f.target == root)))
  {
    hide FindReplacement, Filed, Offered;
    replacement := backend.FindContinuityReplacement(root);
    if replacement.Some? {
      var f := replacement.value;
      backend.RecordTaintedOffer(node, Offer(f.node, f.target == root));
    }
  }

  /** A refused write is committed, its own id quarantined, the refusal recorded and a replacement offered. */
  method RecordRefusal(backend: MemoryStateBackend, cfg: Config, p: Payload, root: Id, now: int) returns (resp: Response)
    requires backend.Valid()
    modifies backend
    ensures backend.Valid()
    ensures (backend.View(), resp) == Reject(cfg, old(backend.View()), p, root, now)
  {
    hide *;
    ghost var s := backend.View();
    var event := StoreRefusal(backend, cfg, p, root, now);
    RejectUnfolds(cfg, s, p, root, now);
    var replacement := MakeOffer(backend, p.id, root);
    resp := TaintedLineage(event, replacement);
  }

  method FirstMismatchOf(backend: MemoryStateBackend, parents: seq<Commitment>) returns (r: Option<Id>)
    ensures r == FirstMismatch(parents, backend.dag)
  {
    for i := 0 to |parents|
      invariant FirstMismatch(parents, backend.dag) == FirstMismatch(parents[i..], backend.dag)
    {
      assert parents[i..][1..] == parents[i + 1..];
      var u := parents[i].parent;
      if u in backend.dag && backend.dag[u].digest != "" && parents[i].hash != backend.dag[u].digest {
        return Some(u);
      }
    }
    r := None;
  }

  /** An admitted write is committed once its hashes match, and a new node may complete earlier refusals. */
  method AcceptWrite(backend: MemoryStateBackend, p: Payload) returns (resp: Response)
    requires backend.Valid()
    modifies backend
    ensures backend.Valid()
    ensures (backend.View(), resp) == Accept(old(backend.View()), p)
  {
    hide FirstMismatch, Completed, Filed;
    var mismatch := FirstMismatchOf(backend, p.parents);
    if mismatch.Some? { return HashMismatch(mismatch.value); }
    var isNew := backend.CommitNode(p);
    if isNew { backend.CheckRetryCompletion(p); }
    resp := Ok(!isNew);
  }

  method AnnotateGap(backend: MemoryStateBackend, p: Payload) returns (q: Payload)
    requires backend.Valid()
    ensures q == WithGap(p, backend.dag)
  {
    q := p;
    if p.compaction {
      var gap := ComputeCoversIntervalGap(backend.dag, backend.order, p.covers);
      q := p.(gap := gap);
    }
  }

  method SubmitCandidate(backend: MemoryStateBackend, cfg: Config, sub: Submission, now: int) returns (resp: Response)
    requires backend.Valid()
    modifies backend
    ensures backend.Valid()
    ensures (backend.View(), resp) == Submit(cfg, old(backend.View()), sub, now)
  {
    hide WithGap, Evaluate, Reject, Accept, Tainted, Filed;
    if !sub.signatureValid { return Unauthorized; }
    var p := AnnotateGap(backend, sub.payload);
    if |p.parents| > 256 { return BadRequest; }
    var ledger := Elements(backend.quarantineLedger);
    if p.id in ledger { return Conflict; }
    if p.compaction {
      var tainted := Tainted(p.covers, ledger);
      if tainted != [] { return TaintedCovers(tainted); }
    }
    if !sub.policyUp { return Unavailable; }
    var decision := Evaluate(p, Store(backend.dag, backend.order, ledger), sub.auth, now);
    match decision {
      case TaintedParent(root) => resp := RecordRefusal(backend, cfg, p, root, now);
      case InvalidLineage => resp := BadRequest;
      case VerificationFailed => resp := VerificationRefused;
      case Admit => resp := AcceptWrite(backend, p);
    }
  }

  // ---- Compaction and seeding ----

  method DeclareContextCompacted(backend: MemoryStateBackend, ev: CompactionEvent, signatureValid: bool) returns (resp: Response)
    requires backend.Valid()
    modifies backend
    ensures backend.Valid()
    ensures (backend.View(), resp) == Compact(old(backend.View()), ev, signatureValid)
  {
    hide Tainted, Filed;
    var parents: seq<Commitment> := [];
    for i := 0 to |ev.nodes|
      invariant forall n :: n in ev.nodes[..i] ==> n in backend.dag
      invariant |parents| == i && forall k :: 0 <= k < i ==> ev.nodes[k] in backend.dag
      invariant forall k :: 0 <= k < i ==> parents[k] == Commitment(ev.nodes[k], DigestOr(backend.dag[ev.nodes[k]], ZERO_HASH), Carried)
    {
      if ev.nodes[i] !in backend.dag {
        assert ev.nodes[i] in ev.nodes;
        return BadRequest;
      }
      parents := parents + [Commitment(ev.nodes[i], DigestOr(backend.dag[ev.nodes[i]], ZERO_HASH), Carried)];
    }
    var p := Payload(ev.node, true, parents, ev.nodes, [], ev.digest, ev.summarizer, 0.0, ev.author, true, false, "", None);
    assert p.parents == CompactionPayload(backend.dag, ev).parents;
    if !signatureValid { return Unauthorized; }
    var tainted := Tainted(ev.nodes, Elements(backend.quarantineLedger));
    if tainted != [] { return TaintedCovers(tainted); }
    var isNew := backend.CommitNode(p);
    resp := Ok(!isNew);
  }

  method SeedNewRoot(backend: MemoryStateBackend, root: Id, key: string) returns (resp: Response)
    requires backend.Valid()
    modifies backend
    ensures backend.Valid()
    ensures (backend.View(), resp) == Seed(old(backend.View()), root, key)
  {
    hide Filed;
    if root == "" { return BadRequest; }
    if root in backend.dag { return Conflict; }
    var isNew := backend.CommitNode(Bare(root).(digest := "seed", author := key));
    resp := Ok(false);
  }

  // ---- Safe continuity ----

  /** Copies of the backend's collections, taken once. */
  method Snapshot(backend: MemoryStateBackend) returns (s: State)
    ensures s == backend.View()
  {
    s := State(Store(backend.dag, backend.order, Elements(backend.quarantineLedger)), backend.quarantineEvents,
               backend.repairCandidates, backend.checkpoints, backend.externalEffects, backend.reintegrationHorizon,
               backend.recurrenceEvents, backend.withdrawalLedger, backend.continuityExposures,
               backend.substituteDeclarations, backend.taintedRejections, backend.adapterKey);
  }

  method FindCheckpoint(checkpoints: seq<Checkpoint>, relevant: set<Id>, ledger: set<Id>, at: int) returns (r: Option<Checkpoint>)
    ensures r == Replayable(checkpoints, relevant, ledger, at)
  {
    for i := 0 to |checkpoints|
      invariant Replayable(checkpoints, relevant, ledger, at) == Replayable(checkpoints[i..], relevant, ledger, at)
    {
      assert checkpoints[i..][1..] == checkpoints[i + 1..];
      var cp := checkpoints[i];
      if cp.target !in relevant { continue; }
      if cp.declaredAt >= at { continue; }
      if cp.refs == {} { continue; }
      if !(cp.refs !! ledger) { continue; }
      return Some(cp);
    }
    r := None;
  }

  method FindSubstitutable(s: State, targets: seq<Id>, at: int) returns (r: Option<Id>)
    ensures r == FirstSubstitutable(s, targets, at)
  {
    for i := 0 to |targets|
      invariant FirstSubstitutable(s, targets, at) == FirstSubstitutable(s, targets[i..], at)
    {
      assert targets[i..][1..] == targets[i + 1..];
      var target := targets[i];
      if target !in s.substitutes { continue; }
      var declaration := s.substitutes[target];
      if declaration.declaredAt >= at { continue; }
      if declaration.source == "" { continue; }
      if declaration.source !in s.store.dag || declaration.source in s.store.ledger { continue; }
      return Some(target);
    }
    r := None;
  }

  /** A checkpoint replay is preferred; without one, a substitution; otherwise nothing is emitted. */
  method EmitFor(s: State, d: Dependent, token: string, at: int) returns (em: Option<Emission>)
    ensures em == Emit(s, d, token, at)
  {
    hide Replayable, Relevant, FirstSubstitutable, ReplayParents;
    var relevant := Relevant(s.store, d);
    var cp := FindCheckpoint(s.checkpoints, relevant, s.store.ledger, at);
    if cp.Some? {
      em := Some(Emission(Bare(ReplayId(token, d.node)).(
        parents := Commitments(ReplayParents(s.store, d.node), PLACEHOLDER_HASH, Material),
        digest := "sha256:" + cp.value.id, criticality := d.criticality, originalTarget := Some(cp.value.target)), "M4"));
      return;
    }
    var target := FindSubstitutable(s, SortedIds(relevant), at);
    if target.None? { return None; }
    var source := s.substitutes[target.value].source;
    em := Some(Emission(Bare(SubstituteId(token, d.node)).(
      parents := [Commitment(source, DigestOr(s.store.dag[source], PLACEHOLDER_HASH), Material)],
      digest := "sha256:" + source, criticality := d.criticality, originalTarget := target), "M3"));
  }

  method Expose(backend: MemoryStateBackend, em: Emission)
    requires backend.Valid()
    modifies backend
    ensures backend.Valid()
    ensures var s := old(backend.View());
            backend.View() == s.(store := Commit(s.store, em.payload),
                                 exposures := s.exposures + [Exposure(em.payload.id, em.mechanism)],
                                 adapterKey := "key:" + em.payload.id)
  {
    hide Filed, Commit;
    backend.adapterKey := "key:" + em.payload.id;
    var isNew := StoreNode(backend, em.payload);
    backend.continuityExposures := backend.continuityExposures + [Exposure(em.payload.id, em.mechanism)];
  }

  lemma ContinueAt(snapshot: State, s: State, deps: seq<Dependent>, i: nat, token: string, at: int)
    requires i < |deps|
    ensures Continue(snapshot, s, deps[..i + 1], token, at) ==
      var before := Continue(snapshot, s, deps[..i], token, at);
      match Emit(snapshot, deps[i], token, at)
      case None => before
      case Some(em) =>
        before.(store := Commit(before.store, em.payload),
                exposures := before.exposures + [Exposure(em.payload.id, em.mechanism)],
                adapterKey := "key:" + em.payload.id)
  {
    hide Emit, Commit;
    assert deps[..i + 1][..i] == deps[..i];
  }

  /** Emissions are judged against copies taken at the start and committed one after the other. */
  method AttemptSafeContinuity(backend: MemoryStateBackend, cfg: Config, c: set<Id>, token: string, at: int)
    requires backend.Valid()
    modifies backend
    ensures backend.Valid()
    ensures backend.View() == Continuity(cfg, old(backend.View()), c, token, at)
  {
    hide Emit, Continue, Critical, Filed, Commit;
    if !cfg.continuity { return; }
    var deps := backend.GetCriticalDependents(c);
    var snapshot := Snapshot(backend);
    NothingContinued(snapshot, deps, token, at);
    for i := 0 to |deps|
      invariant backend.Valid()
      invariant backend.View() == Continue(snapshot, snapshot, deps[..i], token, at)
    {
      ContinueAt(snapshot, snapshot, deps, i, token, at);
      var em := EmitFor(snapshot, deps[i], token, at);
      if em.Some? { Expose(backend, em.value); }
    }
    assert deps[..|deps|] == deps;
  }

  lemma NothingContinued(s: State, deps: seq<Dependent>, token: string, at: int)
    ensures Continue(s, s, deps[..0], token, at) == s
  {
  }

  // ---- Reconstruction ----

  /** Commit the rebuilt node and put it on the horizon. */
  method Reintegrate(backend: MemoryStateBackend, cfg: Config, comp: Id, r: Repair, p: Payload, key: string, now: int)
    requires backend.Valid() && r.Pending?
    modifies backend
    ensures backend.Valid()
    ensures var s := old(backend.View());
            backend.View() == s.(store := Commit(s.store, p), horizon := s.horizon[p.id := now + cfg.horizonSeconds],
                                 repairs := s.repairs[comp := Reducible(r.frontier, p.id)], adapterKey := key)
  {
    hide Filed, Commit;
    backend.adapterKey := key;
    var isNew := StoreNode(backend, p);
    backend.reintegrationHorizon := backend.reintegrationHorizon[p.id := now + cfg.horizonSeconds];
    backend.repairCandidates := backend.repairCandidates[comp := Reducible(r.frontier, p.id)];
  }

  method MarkIrreducible(backend: MemoryStateBackend, comp: Id, reason: Reason)
    requires backend.Valid()
    modifies backend
    ensures backend.Valid()
    ensures var s := old(backend.View()); backend.View() == s.(repairs := s.repairs[comp := Irreducible(reason)])
  {
    hide Filed;
    backend.repairCandidates := backend.repairCandidates[comp := Irreducible(reason)];
  }

  method RebuildOne(backend: MemoryStateBackend, cfg: Config, snapshot: State, root: Id, comp: Id, r: Repair, token: string, now: int)
    requires backend.Valid() && r.Pending?
    requires forall n :: n in snapshot.store.order <==> n in snapshot.store.dag
    modifies backend
    ensures backend.Valid()
    ensures backend.View() == Rebuild(cfg, snapshot.store, old(backend.View()), root, comp, r, token, now)
  {
    hide Filed, Commit, AdapterAgrees, RebuiltId, Commitments;
    var id := RebuiltId(token, comp);
    match cfg.recovery {
      case Inline =>
        Reintegrate(backend, cfg, comp, r, RebuiltPayload(id, r, "", "key:" + id), "key:" + id, now);
      case Remote(identity) =>
        var covers := if comp in snapshot.store.dag then snapshot.store.dag[comp].covers else [];
        var answer := Adapter.Reconstruct(snapshot.store.dag, snapshot.store.order, root, covers, r.frontier);
        if answer.None? {
          MarkIrreducible(backend, comp, BackendUnavailable);
        } else if backend.adapterKey == "" || backend.adapterKey != identity {
          MarkIrreducible(backend, comp, InvalidIdentity);
        } else {
          Reintegrate(backend, cfg, comp, r, RebuiltPayload(id, r, "verified_checkpoint_reconstruction", identity),
                      backend.adapterKey, now);
        }
    }
  }

  lemma RebuildAt(cfg: Config, s: State, root: Id, comps: seq<Id>, i: nat, token: string, now: int)
    requires i < |comps| && Elements(comps) <= PendingIn(s.repairs)
    ensures Elements(comps[..i]) <= PendingIn(s.repairs) && Elements(comps[..i + 1]) <= PendingIn(s.repairs)
    ensures comps[i] in PendingIn(s.repairs)
    ensures RebuildAll(cfg, s, s, root, comps[..i + 1], token, now) ==
      Rebuild(cfg, s.store, RebuildAll(cfg, s, s, root, comps[..i], token, now), root, comps[i], s.repairs[comps[i]], token, now)
  {
    hide Rebuild;
    assert comps[i] in Elements(comps);
    assert comps[..i + 1][..i] == comps[..i];
    assert forall x :: x in comps[..i + 1] ==> x in Elements(comps);
  }

  lemma NothingRebuilt(cfg: Config, s: State, root: Id, comps: seq<Id>, token: string, now: int)
    ensures Elements(comps[..0]) <= PendingIn(s.repairs)
    ensures RebuildAll(cfg, s, s, root, comps[..0], token, now) == s
  {
  }

  /** Every pending compaction is rebuilt from its recorded frontier, against one snapshot of the graph. */
  method AttemptReconstruction(backend: MemoryStateBackend, cfg: Config, root: Id, token: string, now: int)
    requires backend.Valid()
    modifies backend
    ensures backend.Valid()
    ensures backend.View() == Reconstruct(cfg, old(backend.View()), root, token, now)
  {
    var snapshot := Snapshot(backend);
    assert forall n :: n in snapshot.store.order <==> n in snapshot.store.dag;
    hide Filed, Rebuild, RebuildAll, PendingIn;
    var comps := SortedIds(PendingIn(backend.repairCandidates));
    assert Elements(comps) == PendingIn(snapshot.repairs);
    NothingRebuilt(cfg, snapshot, root, comps, token, now);
    for i := 0 to |comps|
      invariant backend.Valid()
      invariant Elements(comps[..i]) <= PendingIn(snapshot.repairs)
      invariant backend.View() == RebuildAll(cfg, snapshot, snapshot, root, comps[..i], token, now)
    {
      RebuildAt(cfg, snapshot, root, comps, i, token, now);
      PendingHas(snapshot.repairs, comps[i]);
      RebuildOne(backend, cfg, snapshot, root, comps[i], snapshot.repairs[comps[i]], token, now);
    }
    assert comps[..|comps|] == comps;
  }

  lemma PendingHas(repairs: map<Id, Repair>, n: Id)
    requires n in PendingIn(repairs)
    ensures n in repairs && repairs[n].Pending?
  {
  }

  // ---- Designation ----

  lemma ContainUnfolds(cfg: Config, s: State, root: Id, now: int)
    ensures var c := Blast(s.store.dag, root);
            var s2 := Assess(cfg, s, root, now);
            Contain(cfg, s, root, now) ==
              s2.(store := Quarantine(s2.store, c),
                  events := s2.events + [QuarantineEvent(root, now, SortedIds(c), SortedIds(s2.store.ledger + c + c), Designation)])
  {
    hide Closure, EdgesOf, Assess, Quarantine;
    AssessKeeps(cfg, s, root, now);
    var c := Blast(s.store.dag, root);
    assert s.store.ledger + c + c == s.store.ledger + c;
  }

  method ContainNode(backend: MemoryStateBackend, cfg: Config, root: Id, now: int) returns (c: set<Id>)
    requires backend.Valid()
    modifies backend
    ensures backend.Valid()
    ensures c == Blast(old(backend.View()).store.dag, root)
    ensures backend.View() == Contain(cfg, old(backend.View()), root, now)
  {
    hide *;
    ghost var s := backend.View();
    ContainUnfolds(cfg, s, root, now);
    var ids := AssessFrom(backend, cfg, root, now);
    SortedElements(Blast(s.store.dag, root));
    var event := LogAndQuarantine(backend, root, ids, ids, Designation, now);
    c := Elements(ids);
  }

  method DesignatePoison(backend: MemoryStateBackend, cfg: Config, root: Id, token: string, now: int) returns (resp: Response)
    requires backend.Valid()
    modifies backend
    ensures backend.Valid()
    ensures (backend.View(), resp) == Designate(cfg, old(backend.View()), root, token, now)
  {
    hide Closure, EdgesOf, Contain, Continuity, Reconstruct, Filed;
    if root !in backend.dag { return NotFound; }
    if root in backend.quarantineLedger { return Ok(true); }
    var c := ContainNode(backend, cfg, root, now);
    AttemptSafeContinuity(backend, cfg, c, token, now);
    AttemptReconstruction(backend, cfg, root, token, now);
    resp := Ok(false);
  }

  // ---- Declarations ----

  /** A dictionary assignment: a known checkpoint id keeps its place and gets the new content. */
  method AddCheckpoint(checkpoints: seq<Checkpoint>, cp: Checkpoint) returns (r: seq<Checkpoint>)
    ensures r == Upserted(checkpoints, cp)
  {
    hide Upserted;
    assert checkpoints[..0] == [] && checkpoints[0..] == checkpoints;
    for i := 0 to |checkpoints|
      invariant Upserted(checkpoints, cp) == checkpoints[..i] + Upserted(checkpoints[i..], cp)
    {
      UpsertedAt(checkpoints, i, cp);
      if checkpoints[i].id == cp.id { return checkpoints[i := cp]; }
    }
    UpsertedAtEnd(checkpoints, cp);
    r := checkpoints + [cp];
  }

  lemma UpsertedAt(checkpoints: seq<Checkpoint>, i: nat, cp: Checkpoint)
    requires i < |checkpoints|
    ensures checkpoints[..i] + Upserted(checkpoints[i..], cp) ==
      if checkpoints[i].id == cp.id then checkpoints[i := cp] else checkpoints[..i + 1] + Upserted(checkpoints[i + 1..], cp)
  {
    assert checkpoints[i..][1..] == checkpoints[i + 1..];
  }

  lemma UpsertedAtEnd(checkpoints: seq<Checkpoint>, cp: Checkpoint)
    ensures checkpoints[..|checkpoints|] + Upserted(checkpoints[|checkpoints|..], cp) == checkpoints + [cp]
  {
    assert checkpoints[..|checkpoints|] == checkpoints;
  }

  method RenewTrust(backend: MemoryStateBackend, cfg: Config, n: Id, now: int) returns (resp: Response)
    requires backend.Valid()
    modifies backend
    ensures backend.Valid()
    ensures (backend.View(), resp) == Renew(cfg, old(backend.View()), n, now)
  {
    hide Filed;
    if n in backend.quarantineLedger { return Forbidden; }
    if n in backend.dag && ParentSet(backend.dag[n]) * Elements(backend.quarantineLedger) != {} { return Forbidden; }
    if n !in backend.reintegrationHorizon { return Ok(true); }
    backend.reintegrationHorizon := backend.reintegrationHorizon[n := now + cfg.horizonSeconds];
    resp := Ok(false);
  }

  method Declare(backend: MemoryStateBackend, r: Request) returns (resp: Response)
    requires backend.Valid()
    requires r.DeclareCheckpoint? || r.DeclareEffect? || r.SubstituteDeclared? || r.ExposeNode?
    modifies backend
    ensures backend.Valid()
    ensures forall cfg :: (backend.View(), resp) == Handle(cfg, old(backend.View()), r)
  {
    hide Filed, Upserted;
    resp := Ok(false);
    match r {
      case DeclareCheckpoint(cp) =>
        var all := AddCheckpoint(backend.checkpoints, cp);
        backend.checkpoints := all;
      case DeclareEffect(key, n) =>
        backend.externalEffects := backend.externalEffects[key := n];
      case SubstituteDeclared(target, source, at) =>
        if target == "" || source == "" { return BadRequest; }
        if source !in backend.dag { return NotFound; }
        if source in backend.quarantineLedger { return Forbidden; }
        backend.substituteDeclarations := backend.substituteDeclarations[target := Declaration(source, at)];
      case ExposeNode(n) =>
        if n == "" { return BadRequest; }
        if n in backend.quarantineLedger { return Forbidden; }
        backend.continuityExposures := backend.continuityExposures + [Exposure(n, "unknown")];
    }
  }

  /** One request, dispatched to its handler: the object takes exactly the step of the state machine. */
  method Serve(backend: MemoryStateBackend, cfg: Config, r: Request) returns (resp: Response)
    requires backend.Valid()
    modifies backend
    ensures backend.Valid()
    ensures (backend.View(), resp) == Handle(cfg, old(backend.View()), r)
  {
    hide Filed, Submit, Compact, Seed, Designate, Recur, Renew;
    match r {
      case SubmitCandidate(sub, now) => resp := SubmitCandidate(backend, cfg, sub, now);
      case ContextCompacted(ev, valid) => resp := DeclareContextCompacted(backend, ev, valid);
      case SeedRoot(root, key) => resp := SeedNewRoot(backend, root, key);
      case DesignatePoison(root, token, now) => resp := DesignatePoison(backend, cfg, root, token, now);
      case Observe(n, now) =>
        ProcessRecurrence(backend, cfg, n, now);
        resp := Ok(false);
      case RenewTrust(n, now) => resp := RenewTrust(backend, cfg, n, now);
      case _ => resp := Declare(backend, r);
    }
  }
}
