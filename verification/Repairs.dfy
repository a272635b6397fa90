/** The disposition machine for compactions, and why a rebuilt node never derives from quarantine. */
module Repairs {
  import opened Ids
  import opened Reach
  import opened Records
  import opened BlastRadius
  import opened Admission
  import opened Replacement
  import opened Gateway
  import opened Judgement
  import opened Containment
  import opened Lineage

  predicate IsCarried(p: Payload) {
    exists c :: c in p.parents && c.edgeClass == Carried
  }

  /** A write that carries anything is a compaction that carries exactly what it covers. */
  predicate PairedPayload(p: Payload) {
    IsCarried(p) ==>
      p.compaction && (forall c :: c in p.parents ==> c.edgeClass == Carried) && ParentSet(p) == Elements(p.covers)
  }

  ghost predicate Paired(dag: Dag) {
    forall n :: n in dag ==> PairedPayload(dag[n]) && (IsCarried(dag[n]) ==> Sources(dag[n]) <= dag.Keys)
  }

  /** Between steps, a carrying compaction with a quarantined cover has a terminal disposition. */
  ghost predicate Settled(s: State) {
    forall n :: n in s.store.dag && IsCarried(s.store.dag[n]) && !(Elements(s.store.dag[n].covers) !! s.store.ledger)
      ==> Terminal(s.repairs, n)
  }

  ghost predicate PendingCarried(dag: Dag, repairs: map<Id, Repair>) {
    forall n :: n in PendingIn(repairs) ==>
      n in dag && IsCarried(dag[n]) && Elements(repairs[n].frontier) <= Elements(dag[n].covers)
  }

  /** Once terminal, always terminal. */
  ghost predicate Advances(r: map<Id, Repair>, r': map<Id, Repair>) {
    forall n :: Terminal(r, n) ==> n in r' && r'[n] == r[n]
  }

  // ---- Which compactions a traversal affects ----

  lemma PairedSource(p: Payload, u: Id)
    requires PairedPayload(p) && u in Sources(p)
    ensures CarriedFrom(p, u) <==> IsCarried(p)
  {
    if IsCarried(p) {
      assert u in ParentSet(p);
      var c :| c in p.parents && c.parent == u;
      assert c.edgeClass == Carried;
    }
  }

  /** With paired compactions the scan order is irrelevant: every carried node of the closure but the root is affected. */
  lemma AffectedMeaning(st: Store, root: Id, n: Id)
    requires Filed(st) && Paired(st.dag)
    ensures n in BlastSearch(st, root).carried <==>
      n in Blast(st.dag, root) && n != root && n in st.dag && IsCarried(st.dag[n])
  {
    hide Closure, EdgesOf, SearchFrom, CarriedFrom, IsCarried, PairedPayload;
    SearchIsClosure(st, root);
    SearchClassifies(st.dag, st.order, {root}, [root], n);
    var search := BlastSearch(st, root);
    assert n in search.visit <==> n in Elements(search.visit);
    if n in search.visit && n != root {
      var carried := n in search.carried;
      assert DiscoveredFrom(st.dag, search.visit, n, carried);
      var u :| u in search.visit && u in Sources(st.dag[n]) && CarriedFrom(st.dag[n], u) == carried;
      PairedSource(st.dag[n], u);
    }
  }

  lemma JudgedPending(s: State, root: Id)
    requires Filed(s.store) && Paired(s.store.dag) && PendingCarried(s.store.dag, s.repairs)
    ensures PendingCarried(s.store.dag, BlastRepairs(s, root))
    ensures Advances(s.repairs, BlastRepairs(s, root))
  {
    hide Closure, EdgesOf, SearchFrom, IsCarried, PairedPayload;
    var c := Blast(s.store.dag, root);
    var r := BlastRepairs(s, root);
    forall n | n in PendingIn(r)
      ensures n in s.store.dag && IsCarried(s.store.dag[n]) && Elements(r[n].frontier) <= Elements(s.store.dag[n].covers)
    {
      if n in BlastSearch(s.store, root).carried && n in s.store.dag && !Terminal(s.repairs, n) {
        AffectedMeaning(s.store, root, n);
        FrontierOfMeaning(s.store.dag[n].covers, c);
      } else {
        assert n in PendingIn(s.repairs);
      }
    }
  }

  lemma {:induction false} RecurAllPending(cfg: Config, s: State, ids: seq<Id>, active: set<Id>, now: int)
    requires Filed(s.store) && Paired(s.store.dag) && PendingCarried(s.store.dag, s.repairs)
    ensures PendingCarried(s.store.dag, RecurAll(cfg, s, ids, active, now).repairs)
    ensures Advances(s.repairs, RecurAll(cfg, s, ids, active, now).repairs)
    decreases |ids|
  {
    hide Closure, EdgesOf, Paired, PendingCarried, BlastRepairs, Filed;
    if ids != [] {
      RecurAllPending(cfg, s, ids[..|ids| - 1], active, now);
      RecurAllKeeps(cfg, s, ids[..|ids| - 1], active, now);
      var before := RecurAll(cfg, s, ids[..|ids| - 1], active, now);
      JudgedPending(before, ids[|ids| - 1]);
    }
  }

  lemma {:induction false} RecurAllInactive(cfg: Config, s: State, ids: seq<Id>, active: set<Id>, now: int)
    requires forall n :: n in ids ==> n !in active
    ensures RecurAll(cfg, s, ids, active, now) == s
    decreases |ids|
  {
    if ids != [] {
      RecurAllInactive(cfg, s, ids[..|ids| - 1], active, now);
    }
  }

  // ---- Designation judges every newly tainted compaction afresh ----

  /** No node in the closure is still inside its reintegration horizon. */
  ghost predicate Unobserved(s: State, root: Id, now: int) {
    Active(s, now) !! Blast(s.store.dag, root)
  }

  lemma ContainRepairs(cfg: Config, s: State, root: Id, now: int)
    requires Unobserved(s, root, now)
    ensures Contain(cfg, s, root, now).repairs == BlastRepairs(s, root)
  {
    hide Closure, EdgesOf, BlastRepairs;
    var s1 := s.(repairs := BlastRepairs(s, root));
    RecurAllInactive(cfg, s1, SortedIds(Blast(s.store.dag, root)), Active(s1, now), now);
  }

  /** A clean node is never reached from what derives from it. */
  lemma RootCoversNothingBelow(st: Store, root: Id)
    requires Filed(st) && CleanLineage(st) && root in st.dag && root !in st.ledger
    ensures Sources(st.dag[root]) !! Blast(st.dag, root)
  {
    hide EdgesOf, Sources, CleanLineage;
    forall u | u in Sources(st.dag[root]) ensures u !in Blast(st.dag, root) {
      EdgeMeaning(st.dag, u, root);
      if u in Blast(st.dag, root) {
        assert Reaches(EdgesOf(st.dag), root, u);
        var p :| Walk(EdgesOf(st.dag), root, p, u);
        WalkStep(EdgesOf(st.dag), root, p, u, root);
        CleanPartIsAcyclic(st, root, p + [root]);
      }
    }
  }

  /** A pending candidate was either judged by this very traversal or left untouched by it. */
  lemma JudgedValue(s: State, root: Id, n: Id)
    requires Filed(s.store) && n in PendingIn(BlastRepairs(s, root))
    ensures !Terminal(s.repairs, n)
    ensures n in BlastSearch(s.store, root).carried ==>
      n in s.store.dag && BlastRepairs(s, root)[n].frontier == FrontierOf(s.store.dag[n].covers, Blast(s.store.dag, root))
  {
    hide Closure, EdgesOf, SearchFrom, FirstCheckpoint;
    SearchClassifies(s.store.dag, s.store.order, {root}, [root], n);
  }

  lemma JudgedFrontier(s: State, root: Id, n: Id)
    requires Filed(s.store) && CleanLineage(s.store) && Paired(s.store.dag) && Settled(s)
    requires PendingCarried(s.store.dag, s.repairs)
    requires root in s.store.dag && root !in s.store.ledger
    requires n in PendingIn(BlastRepairs(s, root))
    ensures Elements(BlastRepairs(s, root)[n].frontier) !! s.store.ledger + Blast(s.store.dag, root)
  {
    hide Closure, EdgesOf, CleanLineage, IsCarried, PairedPayload, SearchFrom, BlastSearch, BlastRepairs, Blast, Filed, Paired;
    JudgedPending(s, root);
    JudgedValue(s, root, n);
    var covers := Elements(s.store.dag[n].covers);
    assert covers !! s.store.ledger;
    if n in BlastSearch(s.store, root).carried {
      FrontierOfMeaning(s.store.dag[n].covers, Blast(s.store.dag, root));
    } else {
      UnaffectedCovers(s.store, root, n);
    }
  }

  /** Every frontier pending after containment avoids the whole post-designation ledger. */
  lemma PendingFrontiersAreClean(cfg: Config, s: State, root: Id, now: int, n: Id)
    requires Filed(s.store) && CleanLineage(s.store) && Paired(s.store.dag) && Settled(s)
    requires PendingCarried(s.store.dag, s.repairs)
    requires root in s.store.dag && root !in s.store.ledger && Unobserved(s, root, now)
    requires n in PendingIn(Contain(cfg, s, root, now).repairs)
    ensures Elements(Contain(cfg, s, root, now).repairs[n].frontier) !! Contain(cfg, s, root, now).store.ledger
  {
    hide Closure, EdgesOf, Contain, BlastRepairs, Blast, Filed, CleanLineage, Paired, Settled, PendingCarried, Unobserved, PendingIn;
    ContainRepairs(cfg, s, root, now);
    ContainEffect(cfg, s, root, now);
    JudgedFrontier(s, root, n);
  }

  lemma UnaffectedCovers(st: Store, root: Id, n: Id)
    requires Filed(st) && CleanLineage(st) && Paired(st.dag) && n in st.dag && IsCarried(st.dag[n])
    requires root in st.dag && root !in st.ledger
    requires n !in BlastSearch(st, root).carried
    ensures Elements(st.dag[n].covers) !! Blast(st.dag, root)
  {
    AffectedMeaning(st, root, n);
    hide Closure, CleanLineage, IsCarried, SearchFrom, BlastSearch, Paired;
    if n == root {
      RootCoversNothingBelow(st, root);
    } else {
      forall u | u in st.dag[n].covers ensures u !in Blast(st.dag, root) {
        EdgeMeaning(st.dag, u, n);
        ClosureIsClosed(EdgesOf(st.dag), {root});
      }
    }
  }

  /** After containment every carrying compaction with a quarantined cover has been judged. */
  lemma TaintedCompactionsAreJudged(cfg: Config, s: State, root: Id, now: int, n: Id)
    requires Filed(s.store) && CleanLineage(s.store) && Paired(s.store.dag) && Settled(s)
    requires PendingCarried(s.store.dag, s.repairs)
    requires root in s.store.dag && root !in s.store.ledger && Unobserved(s, root, now)
    requires n in s.store.dag && IsCarried(s.store.dag[n])
    requires !(Elements(s.store.dag[n].covers) !! Contain(cfg, s, root, now).store.ledger)
    ensures n in Contain(cfg, s, root, now).repairs
  {
    ContainRepairs(cfg, s, root, now);
    ContainEffect(cfg, s, root, now);
    JudgedPending(s, root);
    hide Contain, Closure, EdgesOf, CleanLineage, IsCarried, PairedPayload, Unobserved, SearchFrom, BlastSearch;
    if n !in BlastSearch(s.store, root).carried {
      UnaffectedCovers(s.store, root, n);
      assert Terminal(s.repairs, n);
    }
  }

  // ---- Reconstruction terminates every pending compaction ----

  lemma RebuildSettles(cfg: Config, snapshot: Store, s: State, root: Id, comp: Id, r: Repair, token: string, now: int)
    returns (q: Repair)
    requires r.Pending?
    ensures !q.Pending? && Rebuild(cfg, snapshot, s, root, comp, r, token, now).repairs == s.repairs[comp := q]
  {
    hide AdapterAgrees, Commit, RebuiltPayload, RebuiltId;
    var id := RebuiltId(token, comp);
    match cfg.recovery {
      case Inline => q := Reducible(r.frontier, id);
      case Remote(identity) =>
        if !AdapterAgrees(snapshot.dag, root, if comp in snapshot.dag then snapshot.dag[comp].covers else [], r.frontier) {
          q := Irreducible(BackendUnavailable);
        } else if s.adapterKey == "" || s.adapterKey != identity {
          q := Irreducible(InvalidIdentity);
        } else {
          q := Reducible(r.frontier, id);
        }
    }
  }

  lemma {:induction false} RebuildAllSettles(cfg: Config, s: State, root: Id, comps: seq<Id>, token: string, now: int)
    requires Elements(comps) <= PendingIn(s.repairs) && NoDuplicates(comps)
    ensures var t := RebuildAll(cfg, s, s, root, comps, token, now);
            && t.repairs.Keys == s.repairs.Keys
            && (forall n :: n in comps ==> Terminal(t.repairs, n))
            && (forall n :: n in s.repairs && n !in comps ==> t.repairs[n] == s.repairs[n])
    decreases |comps|
  {
    hide Rebuild, Closure, EdgesOf;
    if comps != [] {
      var init, comp := comps[..|comps| - 1], comps[|comps| - 1];
      assert comps == init + [comp];
      assert comp in Elements(comps);
      assert Elements(init) <= Elements(comps);
      RebuildAllSettles(cfg, s, root, init, token, now);
      var q := RebuildSettles(cfg, s.store, RebuildAll(cfg, s, s, root, init, token, now), root, comp, s.repairs[comp], token, now);
    }
  }

  lemma ReconstructSettles(cfg: Config, s: State, root: Id, token: string, now: int)
    ensures var t := Reconstruct(cfg, s, root, token, now);
            && t.repairs.Keys == s.repairs.Keys && PendingIn(t.repairs) == {}
            && Advances(s.repairs, t.repairs)
            && forall n :: n in s.repairs ==> Terminal(t.repairs, n)
  {
    hide RebuildAll, Rebuild;
    var comps := SortedIds(PendingIn(s.repairs));
    assert Elements(comps) == PendingIn(s.repairs);
    RebuildAllSettles(cfg, s, root, comps, token, now);
    SettledTable(s.repairs, Reconstruct(cfg, s, root, token, now).repairs, comps);
  }

  lemma SettledTable(r: map<Id, Repair>, r': map<Id, Repair>, comps: seq<Id>)
    requires Elements(comps) == PendingIn(r) && r'.Keys == r.Keys
    requires forall n :: n in comps ==> Terminal(r', n)
    requires forall n :: n in r && n !in comps ==> r'[n] == r[n]
    ensures PendingIn(r') == {} && Advances(r, r') && forall n :: n in r ==> Terminal(r', n)
  {
    forall n | n in r ensures Terminal(r', n) {
      if n !in comps {
        assert n !in Elements(comps);
        assert n !in PendingIn(r);
      }
    }
    forall n | Terminal(r, n) ensures n in r' && r'[n] == r[n] {
      assert n !in PendingIn(r);
      assert n !in Elements(comps);
    }
  }

  // ---- New nodes are not carried ----

  /** The graph only grew, and what was added is paired and does not carry. */
  ghost predicate GrewUncarried(dag: Dag, dag': Dag) {
    && (forall x :: x in dag ==> x in dag' && dag'[x] == dag[x])
    && (forall x :: x in dag' && x !in dag ==> !IsCarried(dag'[x]))
  }

  lemma GrewPaired(dag: Dag, dag': Dag)
    requires Paired(dag) && GrewUncarried(dag, dag')
    ensures Paired(dag')
  {
    hide IsCarried, Sources;
  }

  lemma {:induction false} ContinueUncarried(snapshot: State, s: State, deps: seq<Dependent>, token: string, at: int)
    ensures GrewUncarried(s.store.dag, Continue(snapshot, s, deps, token, at).store.dag)
    decreases |deps|
  {
    hide Emit;
    if deps != [] {
      var d := deps[|deps| - 1];
      ContinueUncarried(snapshot, s, deps[..|deps| - 1], token, at);
      if Emit(snapshot, d, token, at).Some? {
        EmissionSources(snapshot, d, token, at);
        assert !IsCarried(Emit(snapshot, d, token, at).value.payload);
      }
    }
  }

  lemma RebuiltIsUncarried(id: Id, r: Repair, summarizer: string, author: string)
    requires r.Pending?
    ensures !IsCarried(RebuiltPayload(id, r, summarizer, author))
  {
  }

  lemma UngrownUncarried(dag: Dag)
    ensures GrewUncarried(dag, dag)
  {
  }

  lemma CommitUncarried(st: Store, p: Payload)
    requires !IsCarried(p)
    ensures GrewUncarried(st.dag, Commit(st, p).dag)
  {
    hide IsCarried;
  }

  lemma RebuildUncarried(cfg: Config, snapshot: Store, s: State, root: Id, comp: Id, r: Repair, token: string, now: int)
    requires r.Pending?
    ensures GrewUncarried(s.store.dag, Rebuild(cfg, snapshot, s, root, comp, r, token, now).store.dag)
  {
    hide AdapterAgrees, IsCarried, RebuiltPayload, RebuiltId, Commit, GrewUncarried;
    var id := RebuiltId(token, comp);
    UngrownUncarried(s.store.dag);
    match cfg.recovery {
      case Inline =>
        RebuiltIsUncarried(id, r, "", "key:" + id);
        CommitUncarried(s.store, RebuiltPayload(id, r, "", "key:" + id));
      case Remote(identity) =>
        RebuiltIsUncarried(id, r, "verified_checkpoint_reconstruction", identity);
        CommitUncarried(s.store, RebuiltPayload(id, r, "verified_checkpoint_reconstruction", identity));
    }
  }

  lemma {:induction false} RebuildAllUncarried(cfg: Config, s: State, root: Id, comps: seq<Id>, token: string, now: int)
    requires Elements(comps) <= PendingIn(s.repairs)
    ensures GrewUncarried(s.store.dag, RebuildAll(cfg, s, s, root, comps, token, now).store.dag)
    decreases |comps|
  {
    hide Rebuild, IsCarried;
    if comps != [] {
      var init, comp := comps[..|comps| - 1], comps[|comps| - 1];
      assert Elements(init) <= Elements(comps);
      assert comp in Elements(comps);
      RebuildAllUncarried(cfg, s, root, init, token, now);
      RebuildUncarried(cfg, s.store, RebuildAll(cfg, s, s, root, init, token, now), root, comp, s.repairs[comp], token, now);
    }
  }

  // ---- Good states and disciplined requests ----

  ghost predicate Good(s: State) {
    && Filed(s.store) && Contained(s) && CleanLineage(s.store)
    && Paired(s.store.dag) && Settled(s) && PendingCarried(s.store.dag, s.repairs)
  }

  /** What the repository's own conventions promise of a submission. */
  ghost predicate DisciplinedSubmission(s: State, p: Payload) {
    && (p.covers != [] ==> p.compaction)
    && Elements(p.covers) <= s.store.dag.Keys
    && (p.id in s.store.dag ==> p.parents == s.store.dag[p.id].parents)
    && PairedPayload(p)
  }

  ghost predicate DisciplinedDesignation(cfg: Config, s: State, root: Id, token: string, now: int) {
    && Unnamed(s, token)
    && Unobserved(s, root, now)
    && (cfg.continuity ==> ContinuityAnchored(After(s, Blast(s.store.dag, root)), DependentsOf(s, root), token, now))
  }

  ghost predicate Disciplined(cfg: Config, s: State, r: Request) {
    match r
    case SubmitCandidate(sub, _) => DisciplinedSubmission(s, sub.payload)
    case DesignatePoison(root, token, now) => DisciplinedDesignation(cfg, s, root, token, now)
    case _ => true
  }

  lemma InitialIsGood(key: string)
    ensures Good(Initial(key))
  {
    InitialStateIsContained(key);
    InitialLineage(key);
  }

  // ---- Submissions ----

  lemma DisciplinedRejection(s: State, sub: Submission, now: int)
    requires Good(s) && DisciplinedSubmission(s, sub.payload) && Considered(s, sub)
    requires Evaluate(sub.payload, s.store, sub.auth, now).TaintedParent?
    ensures sub.payload.id !in s.store.dag && RejectHarmless(s.store, sub.payload) && !IsCarried(sub.payload)
  {
    var p := sub.payload;
    DecisionMeaning(p, s.store, sub.auth, now);
    TaintedMeaning(p.covers, s.store.ledger);
    hide Evaluate, Contained, Paired, Settled, PendingCarried, Tainted, IsCarried;
    assert p.id in s.store.dag ==> ParentSet(p) == ParentSet(s.store.dag[p.id]);
    forall v | v in Children(EdgesOf(s.store.dag), p.id) ensures v in s.store.ledger + {p.id} {
      EdgeMeaning(s.store.dag, p.id, v);
      assert (p.id, v) in EdgesOf(s.store.dag);
    }
  }

  lemma DisciplinedSubmissionIsHarmless(s: State, sub: Submission, now: int)
    requires Good(s) && DisciplinedSubmission(s, sub.payload)
    ensures HarmlessSubmission(s, sub, now) && AnchoredSubmission(s, sub, now)
  {
    var p := sub.payload;
    if Considered(s, sub) {
      TaintedMeaning(p.covers, s.store.ledger);
      if Evaluate(p, s.store, sub.auth, now).TaintedParent? {
        DisciplinedRejection(s, sub, now);
      }
    }
  }

  lemma RejectRepairs(cfg: Config, s: State, p: Payload, root: Id, now: int)
    requires Filed(s.store) && Paired(s.store.dag) && PendingCarried(s.store.dag, s.repairs)
    requires p.id !in s.store.dag && !IsCarried(p)
    ensures var t := Reject(cfg, s, p, root, now).0;
            Paired(t.store.dag) && PendingCarried(t.store.dag, t.repairs) && Advances(s.repairs, t.repairs)
  {
    hide Closure, EdgesOf, BlastRepairs, FindReplacement, Paired, PendingCarried, Filed, RejectionEvent, Active, IsCarried, Advances, Blast;
    var s1 := s.(store := Commit(s.store, p));
    var s2 := s1.(repairs := BlastRepairs(s1, root));
    var ids := SortedIds(Blast(s1.store.dag, root));
    CommitEdges(s.store, p);
    CommitUncarried(s.store, p);
    GrewPaired(s.store.dag, s1.store.dag);
    CarriedStays(s.store.dag, s1.store.dag, s.repairs);
    JudgedPending(s1, root);
    RecurAllPending(cfg, s2, ids, Active(s2, now), now);
    RecurAllKeeps(cfg, s2, ids, Active(s2, now), now);
    AdvancesTransitive(s.repairs, s2.repairs, RecurAll(cfg, s2, ids, Active(s2, now), now).repairs);
  }

  lemma AdvancesTransitive(r: map<Id, Repair>, q: map<Id, Repair>, t: map<Id, Repair>)
    requires Advances(r, q) && Advances(q, t)
    ensures Advances(r, t)
  {
  }

  lemma CarriedStays(dag: Dag, dag': Dag, repairs: map<Id, Repair>)
    requires PendingCarried(dag, repairs) && GrewUncarried(dag, dag')
    ensures PendingCarried(dag', repairs)
  {
    hide IsCarried;
  }

  /** Quarantining one new id taints no committed compaction, because covers are committed before the compaction. */
  lemma RejectSettled(s: State, t: State, p: Payload)
    requires Settled(s) && Paired(s.store.dag) && p.id !in s.store.dag && !IsCarried(p)
    requires t.store == Quarantine(Commit(s.store, p), {p.id}) && Advances(s.repairs, t.repairs)
    ensures Settled(t)
  {
    hide IsCarried, PairedPayload;
    forall n | n in t.store.dag && IsCarried(t.store.dag[n]) && !(Elements(t.store.dag[n].covers) !! t.store.ledger)
      ensures Terminal(t.repairs, n)
    {
      assert n != p.id && t.store.dag[n] == s.store.dag[n];
      assert Elements(s.store.dag[n].covers) <= s.store.dag.Keys;
      assert !(Elements(s.store.dag[n].covers) !! s.store.ledger);
      assert Terminal(s.repairs, n);
    }
  }

  /** Committing a node with clean, committed sources keeps the repair invariants. */
  lemma CommitSettled(s: State, t: State, p: Payload)
    requires Settled(s) && Paired(s.store.dag) && PendingCarried(s.store.dag, s.repairs)
    requires t.store == Commit(s.store, p) && t.repairs == s.repairs
    requires PairedPayload(p) && (IsCarried(p) ==> Sources(p) <= s.store.dag.Keys - s.store.ledger)
    ensures Settled(t) && Paired(t.store.dag) && PendingCarried(t.store.dag, t.repairs)
  {
    hide IsCarried, PairedPayload;
    forall n | n in t.store.dag && n in s.store.dag ensures t.store.dag[n] == s.store.dag[n] {}
  }

  lemma SubmitGood(cfg: Config, s: State, sub: Submission, now: int)
    requires Good(s) && DisciplinedSubmission(s, sub.payload)
    ensures Good(Submit(cfg, s, sub, now).0)
  {
    DisciplinedSubmissionIsHarmless(s, sub, now);
    SubmitContainment(cfg, s, sub, now);
    SubmitLineage(cfg, s, sub, now);
    if Considered(s, sub) {
      DecisionMeaning(sub.payload, s.store, sub.auth, now);
      if Evaluate(sub.payload, s.store, sub.auth, now).TaintedParent? {
        DisciplinedRejection(s, sub, now);
      }
    }
    hide Closure, EdgesOf, Reject, Accept, Evaluate, WithGap, Contained, CleanLineage, Submit, Filed, Tainted, IsCarried,
         PairedPayload, Paired, Settled, PendingCarried, Sources, ParentSet, RejectHarmless;
    SubmitBranches(cfg, s, sub, now);
    var p := WithGap(sub.payload, s.store.dag);
    var t := Submit(cfg, s, sub, now).0;
    GapKeepsFields(sub.payload, s.store.dag);
    GapKeepsPairing(sub.payload, s.store.dag);
    GapIsAnnotation(sub.payload, s.store, sub.auth, now);
    if Considered(s, sub) {
      match Evaluate(sub.payload, s.store, sub.auth, now) {
        case TaintedParent(root) =>
          RejectEffect(cfg, s, p, root, now);
          RejectRepairs(cfg, s, p, root, now);
          RejectSettled(s, t, p);
        case Admit => AcceptGood(s, p, t);
        case _ =>
      }
    }
  }

  lemma GapKeepsPairing(p: Payload, dag: Dag)
    ensures IsCarried(WithGap(p, dag)) == IsCarried(p) && PairedPayload(WithGap(p, dag)) == PairedPayload(p)
  {
    var q := WithGap(p, dag);
    GapKeepsFields(p, dag);
    hide WithGap;
    assert ParentSet(q) == ParentSet(p);
  }

  lemma AcceptGood(s: State, p: Payload, t: State)
    requires Paired(s.store.dag) && Settled(s) && PendingCarried(s.store.dag, s.repairs)
    requires PairedPayload(p) && ParentSet(p) <= s.store.dag.Keys - s.store.ledger
    requires t == Accept(s, p).0
    ensures Paired(t.store.dag) && Settled(t) && PendingCarried(t.store.dag, t.repairs)
  {
    hide FirstMismatch, Completed, Paired, Settled, PendingCarried;
    if t.store == s.store {
      SettledDepends(s, t);
    } else {
      CommitSettled(s, t, p);
    }
  }

  lemma SettledDepends(s: State, t: State)
    requires t.store == s.store && t.repairs == s.repairs && Settled(s)
    ensures Settled(t)
  {
  }

  // ---- Designations ----

  lemma DisciplinedDesignationIsHarmless(cfg: Config, s: State, root: Id, token: string, now: int)
    requires Good(s) && DisciplinedDesignation(cfg, s, root, token, now)
    ensures HarmlessDesignation(cfg, s, root, token, now) && AnchoredDesignation(cfg, s, root, token, now)
  {
    hide Closure, EdgesOf, Contained, Continuity, Contain, Unobserved, CleanLineage, Filed, Settled, Paired, PendingCarried,
         ContinuityAnchored, ContinuityHarmless, RebuiltAfter, PendingAfter, RepairAfter, DependentsOf, Unnamed;
    if root in s.store.dag && root !in s.store.ledger {
      var c := Blast(s.store.dag, root);
      if cfg.continuity {
        AnchoredIsHarmless(After(s, c), DependentsOf(s, root), token, now);
      }
      forall n ensures RebuiltAfter(cfg, s, root, token, now, n) ==>
        PendingAfter(s, root, now, n) && Elements(RepairAfter(s, root, now, n).frontier) <= s.store.dag.Keys - (s.store.ledger + c)
      {
        RebuiltIsPending(cfg, s, root, token, now, n);
        if PendingAfter(s, root, now, n) { PendingAfterIsClean(cfg, s, root, now, n); }
      }
    }
  }

  /** In a good state without active nodes in the closure, every frontier that will be pending is committed and clean. */
  lemma PendingAfterIsClean(cfg: Config, s: State, root: Id, now: int, n: Id)
    requires Good(s) && Unobserved(s, root, now) && root in s.store.dag && root !in s.store.ledger
    requires PendingAfter(s, root, now, n)
    ensures Elements(RepairAfter(s, root, now, n).frontier) <= s.store.dag.Keys - (s.store.ledger + Blast(s.store.dag, root))
  {
    hide Contain, Closure, EdgesOf, Contained, Blast, Unobserved, BlastRepairs, CleanLineage, Filed, Settled, Paired,
         PendingCarried, PendingAfter, RepairAfter;
    ContainPending(cfg, s, root, now, n);
    ContainRepairs(cfg, s, root, now);
    ContainEffect(cfg, s, root, now);
    JudgedPending(s, root);
    PendingFrontiersAreClean(cfg, s, root, now, n);
    CoversAreCommitted(s.store.dag, Contain(cfg, s, root, now).repairs, n);
  }

  lemma ContinuityKeeps(cfg: Config, s: State, c: set<Id>, token: string, at: int)
    ensures var t := Continuity(cfg, s, c, token, at);
            && t == s.(store := t.store, exposures := t.exposures, adapterKey := t.adapterKey)
            && t.store.ledger == s.store.ledger
            && GrewUncarried(s.store.dag, t.store.dag)
  {
    hide Continue, Critical;
    ContinueKeeps(s, s, Critical(s.store.dag, s.store.order, c), token, at);
    ContinueUncarried(s, s, Critical(s.store.dag, s.store.order, c), token, at);
  }

  lemma AnchoredIsHarmless(s: State, deps: seq<Dependent>, token: string, at: int)
    requires ContinuityAnchored(s, deps, token, at)
    ensures ContinuityHarmless(s, deps, token, at)
  {
    hide Emit, Sources, EmissionHarmless;
    forall d | d in deps ensures EmissionHarmless(s, d, token, at) {
      assert EmissionAnchored(s, d, token, at);
      if Emit(s, d, token, at).Some? {
        EmissionSources(s, d, token, at);
      } else {
        NoEmissionHarmless(s, d, token, at);
      }
    }
  }

  lemma NoEmissionHarmless(s: State, d: Dependent, token: string, at: int)
    requires Emit(s, d, token, at).None?
    ensures EmissionHarmless(s, d, token, at)
  {
  }

  lemma CoversAreCommitted(dag: Dag, repairs: map<Id, Repair>, n: Id)
    requires Paired(dag) && PendingCarried(dag, repairs) && n in PendingIn(repairs)
    ensures Elements(repairs[n].frontier) <= dag.Keys
  {
    hide IsCarried;
    assert Elements(dag[n].covers) <= Sources(dag[n]);
  }

  lemma DesignateGood(cfg: Config, s: State, root: Id, token: string, now: int)
    requires Good(s) && DisciplinedDesignation(cfg, s, root, token, now)
    ensures Good(Designate(cfg, s, root, token, now).0)
  {
    hide Contain, Closure, EdgesOf, Continuity, Unnamed, Contained, Blast, Reconstruct, CleanLineage, Filed, Settled, Paired,
         PendingCarried, Unobserved, FreshToken, HarmlessDesignation, AnchoredDesignation, ContinuityAnchored, Critical;
    DisciplinedDesignationIsHarmless(cfg, s, root, token, now);
    assert FreshToken(s.store, token) by { UnnamedIsFresh(s, token); }
    DesignateContainment(cfg, s, root, token, now);
    DesignateLineage(cfg, s, root, token, now);
    if root in s.store.dag && root !in s.store.ledger {
      DesignateSettles(cfg, s, root, token, now);
    }
  }

  lemma UnnamedIsFresh(s: State, token: string)
    requires Unnamed(s, token)
    ensures FreshToken(s.store, token)
  {
    hide Minted, EdgesOf;
  }

  lemma DesignateSettles(cfg: Config, s: State, root: Id, token: string, now: int)
    requires Good(s) && Unobserved(s, root, now) && root in s.store.dag && root !in s.store.ledger
    ensures var t := Designate(cfg, s, root, token, now).0;
            Paired(t.store.dag) && Settled(t) && PendingCarried(t.store.dag, t.repairs)
  {
    hide Contain, Closure, EdgesOf, Continuity, Contained, Blast, Reconstruct, CleanLineage, Filed, Paired,
         Unobserved, IsCarried, PairedPayload, BlastRepairs, GrewUncarried;
    var s1 := Contain(cfg, s, root, now);
    var s2 := Continuity(cfg, s1, Blast(s.store.dag, root), token, now);
    var t := Reconstruct(cfg, s2, root, token, now);
    assert t == Designate(cfg, s, root, token, now).0;
    ContainEffect(cfg, s, root, now);
    ContinuityKeeps(cfg, s1, Blast(s.store.dag, root), token, now);
    ReconstructUncarried(cfg, s2, root, token, now);
    ReconstructKeeps(cfg, s2, root, token, now);
    ReconstructSettles(cfg, s2, root, token, now);
    GrewTransitive(s.store.dag, s2.store.dag, t.store.dag);
    GrewPaired(s.store.dag, t.store.dag);
    forall n | n in t.store.dag && IsCarried(t.store.dag[n]) && !(Elements(t.store.dag[n].covers) !! t.store.ledger)
      ensures Terminal(t.repairs, n)
    {
      GrewOld(s.store.dag, t.store.dag, n);
      TaintedCompactionsAreJudged(cfg, s, root, now, n);
    }
  }

  lemma GrewTransitive(dag: Dag, dag': Dag, dag'': Dag)
    requires GrewUncarried(dag, dag') && GrewUncarried(dag', dag'')
    ensures GrewUncarried(dag, dag'')
  {
    hide IsCarried;
  }

  lemma GrewOld(dag: Dag, dag': Dag, n: Id)
    requires GrewUncarried(dag, dag') && n in dag' && IsCarried(dag'[n])
    ensures n in dag && dag'[n] == dag[n]
  {
    hide IsCarried;
  }

  lemma ReconstructUncarried(cfg: Config, s: State, root: Id, token: string, now: int)
    ensures GrewUncarried(s.store.dag, Reconstruct(cfg, s, root, token, now).store.dag)
  {
    var comps := SortedIds(PendingIn(s.repairs));
    assert Elements(comps) == PendingIn(s.repairs);
    RebuildAllUncarried(cfg, s, root, comps, token, now);
  }

  // ---- Every other request, and whole runs ----

  lemma CompactionPaired(dag: Dag, ev: CompactionEvent)
    ensures PairedPayload(CompactionPayload(dag, ev))
  {
    hide IsCarried;
    CompactionSources(dag, ev);
  }

  /** A context compaction changes nothing or commits a payload whose sources are all committed and clean. */
  lemma CompactBranches(s: State, ev: CompactionEvent, valid: bool)
    ensures var (t, p) := (Compact(s, ev, valid).0, CompactionPayload(s.store.dag, ev));
            t == s || (t == s.(store := Commit(s.store, p)) && Sources(p) <= s.store.dag.Keys - s.store.ledger)
  {
    hide CompactionPayload, Commit, Tainted, Sources;
    TaintedMeaning(ev.nodes, s.store.ledger);
    CompactionSources(s.store.dag, ev);
  }

  lemma CompactGood(s: State, ev: CompactionEvent, valid: bool)
    requires Good(s)
    ensures Good(Compact(s, ev, valid).0)
  {
    hide CompactionPayload, Compact, Commit, PairedPayload, Contained, CleanLineage, IsCarried, Sources, Settled, Paired, PendingCarried, Filed;
    CompactContainment(s, ev, valid);
    CompactLineage(s, ev, valid);
    CompactBranches(s, ev, valid);
    var p := CompactionPayload(s.store.dag, ev);
    CompactionPaired(s.store.dag, ev);
    var t := Compact(s, ev, valid).0;
    if t.store != s.store {
      CommitSettled(s, t, p);
    } else {
      SettledDepends(s, t);
    }
  }

  lemma SeedGood(s: State, root: Id, key: string)
    requires Good(s)
    ensures Settled(Seed(s, root, key).0) && Paired(Seed(s, root, key).0.store.dag)
    ensures PendingCarried(Seed(s, root, key).0.store.dag, s.repairs)
  {
    var p := Bare(root).(digest := "seed", author := key);
    assert !IsCarried(p);
    hide Contained, CleanLineage, IsCarried, Sources, Settled, Paired, PendingCarried, Filed;
    var t := Seed(s, root, key).0;
    if t.store != s.store {
      CommitSettled(s, t, p);
    } else {
      SettledDepends(s, t);
    }
  }

  lemma ObserveGood(cfg: Config, s: State, n: Id, now: int)
    requires Good(s)
    ensures Settled(Recur(cfg, s, n, now)) && PendingCarried(s.store.dag, Recur(cfg, s, n, now).repairs)
  {
    JudgedPending(s, n);
    hide Contained, CleanLineage, IsCarried, BlastRepairs, Closure, EdgesOf;
  }

  /** One disciplined request keeps containment, clean lineage and the repair invariants. */
  lemma StepGood(cfg: Config, s: State, r: Request)
    requires Good(s) && Disciplined(cfg, s, r)
    ensures Good(Next(cfg, s, r))
  {
    hide Closure, EdgesOf, Submit, Compact, Designate, Recur, Contained, CleanLineage, Filed, Settled, Paired, PendingCarried,
         DisciplinedSubmission, DisciplinedDesignation, Seed, DeclareSubstitute, Expose, Renew, Upserted;
    StepContainmentAndLineage(cfg, s, r);
    match r
    case SubmitCandidate(sub, now) => SubmitGood(cfg, s, sub, now);
    case ContextCompacted(ev, valid) => CompactGood(s, ev, valid);
    case SeedRoot(root, key) =>
      SeedGood(s, root, key);
      SeedKeepsRepairs(s, root, key);
    case DesignatePoison(root, token, now) => DesignateGood(cfg, s, root, token, now);
    case Observe(n, now) =>
      ObserveGood(cfg, s, n, now);
      ObserveKeeps(cfg, s, n, now);
    case _ =>
      DeclarationsKeep(cfg, s, r);
      SettledDepends(s, Next(cfg, s, r));
  }

  lemma DeclarationsKeep(cfg: Config, s: State, r: Request)
    requires r.DeclareCheckpoint? || r.DeclareEffect? || r.SubstituteDeclared? || r.ExposeNode? || r.RenewTrust?
    ensures Next(cfg, s, r).store == s.store && Next(cfg, s, r).repairs == s.repairs
  {
    hide ParentSet, Upserted;
  }

  lemma SeedKeepsRepairs(s: State, root: Id, key: string)
    ensures Seed(s, root, key).0.repairs == s.repairs
  {
  }

  lemma StepContainmentAndLineage(cfg: Config, s: State, r: Request)
    requires Good(s) && Disciplined(cfg, s, r)
    ensures Filed(Next(cfg, s, r).store) && Contained(Next(cfg, s, r)) && CleanLineage(Next(cfg, s, r).store)
  {
    hide Closure, EdgesOf, Submit, Compact, Designate, Recur, Contained, CleanLineage, Filed, Settled, Paired, PendingCarried,
         HarmlessSubmission, HarmlessDesignation, AnchoredSubmission, AnchoredDesignation, FreshToken;
    if r.SubmitCandidate? { DisciplinedSubmissionIsHarmless(s, r.sub, r.now); }
    if r.DesignatePoison? { DisciplinedDesignationIsHarmless(cfg, s, r.root, r.token, r.now); }
    StepContainment(cfg, s, r);
    StepLineage(cfg, s, r);
  }

  ghost predicate DisciplinedRun(cfg: Config, s: State, rs: seq<Request>) {
    forall i :: 0 <= i < |rs| ==> Disciplined(cfg, Run(cfg, s, rs[..i]), rs[i])
  }

  /**
   * In every state of every disciplined run from the initial state the ledger is the exact closure, clean nodes
   * have clean and older sources, and every carrying compaction with a quarantined cover has a terminal disposition.
   */
  lemma {:induction false} DisciplinedRunsAreGood(cfg: Config, key: string, rs: seq<Request>)
    requires DisciplinedRun(cfg, Initial(key), rs)
    ensures Good(Run(cfg, Initial(key), rs))
    decreases |rs|
  {
    hide Good, Next, Disciplined;
    if rs == [] {
      InitialIsGood(key);
    } else {
      var init := rs[..|rs| - 1];
      assert forall i :: 0 <= i <= |init| ==> init[..i] == rs[..i];
      DisciplinedRunsAreGood(cfg, key, init);
      StepGood(cfg, Run(cfg, Initial(key), init), rs[|rs| - 1]);
    }
  }
}
