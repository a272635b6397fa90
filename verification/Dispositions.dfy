/** Which compactions ever get a disposition: exactly those with a CARRIED commitment that a traversal reaches. */
module Dispositions {
  import opened Ids
  import opened Reach
  import opened Records
  import opened BlastRadius
  import opened Admission
  import opened Replacement
  import opened Gateway
  import opened Judgement
  import opened Containment
  import opened Lineage
  import opened Repairs
  import opened Audit

  // ---- One designation ----

  /** An entry appears exactly when some traversal of the designation judges the node. */
  lemma DisposedWhenJudged(cfg: Config, s: State, root: Id, now: int, n: Id)
    ensures n in Contain(cfg, s, root, now).repairs <==>
      n in s.repairs || JudgesOf(s.store, Traversals(s, root, now), n) != []
  {
    hide Contain, Traversals, JudgesOf, AllPending, Verdict;
    ContainSettles(cfg, s, root, now);
    assert Settles(s, Traversals(s, root, now), Contain(cfg, s, root, now).repairs, n);
  }

  lemma {:induction false} ActiveInMembers(ids: seq<Id>, active: set<Id>)
    ensures forall m :: m in ActiveIn(ids, active) <==> m in ids && m in active
    decreases |ids|
  {
    if ids != [] {
      ActiveInMembers(ids[..|ids| - 1], active);
      assert ids == ids[..|ids| - 1] + [ids[|ids| - 1]];
    }
  }

  lemma TraversalsMembers(s: State, root: Id, now: int)
    ensures forall m :: m in Traversals(s, root, now) <==> m == root || (m in Blast(s.store.dag, root) && m in Active(s, now))
  {
    hide Closure, EdgesOf, ActiveIn, Active;
    ActiveInMembers(SortedIds(Blast(s.store.dag, root)), Active(s, now));
  }

  lemma BlastNests(dag: Dag, root: Id, m: Id)
    requires m in Blast(dag, root)
    ensures Blast(dag, m) <= Blast(dag, root)
  {
    hide Closure, EdgesOf;
    ClosureIsClosed(EdgesOf(dag), {root});
    ClosureIsLeast(EdgesOf(dag), {m}, Blast(dag, root));
  }

  /** What a traversal from a clean node reaches does not lead back to that node. */
  lemma RootIsNotBelow(st: Store, root: Id, m: Id)
    requires Filed(st) && CleanLineage(st) && root in st.dag && root !in st.ledger
    requires m in Blast(st.dag, root) && root in Blast(st.dag, m)
    ensures m == root
  {
    var e := EdgesOf(st.dag);
    hide EdgesOf, CleanLineage, Filed;
    ClosureContainsReached(e, {root}, m);
    ClosureContainsReached(e, {m}, root);
    var p :| Walk(e, root, p, m);
    var q :| Walk(e, m, q, root);
    WalkJoin(e, root, p, m, q, root);
    CleanPartIsAcyclic(st, root, p + q);
    assert |p + q| == |p| + |q|;
  }

  /**
   * In an honest graph the compactions that get a disposition are the carrying ones below the designated node, the
   * node itself excepted. A compaction that carries nothing, such as a rebuilt one, gets none.
   */
  lemma DisposedMeaning(cfg: Config, s: State, root: Id, now: int, n: Id)
    requires Filed(s.store) && CleanLineage(s.store) && Paired(s.store.dag)
    requires root in s.store.dag && root !in s.store.ledger
    ensures n in Contain(cfg, s, root, now).repairs <==>
      n in s.repairs || (n in Blast(s.store.dag, root) && n != root && n in s.store.dag && IsCarried(s.store.dag[n]))
  {
    hide Contain, Traversals, JudgesOf, SearchFrom, Closure, EdgesOf, CleanLineage, Filed, Paired, IsCarried, Active;
    var traversals := Traversals(s, root, now);
    DisposedWhenJudged(cfg, s, root, now, n);
    JudgesOfMembers(s.store, traversals, n);
    TraversalsMembers(s, root, now);
    var judges := JudgesOf(s.store, traversals, n);
    if judges != [] {
      var m := judges[0];
      assert m in judges;
      AffectedMeaning(s.store, m, n);
      ClosureIsClosed(EdgesOf(s.store.dag), {root});
      BlastNests(s.store.dag, root, m);
      if n == root { RootIsNotBelow(s.store, root, m); }
    } else {
      assert root in traversals && root !in judges;
      AffectedMeaning(s.store, root, n);
    }
  }

  // ---- Every run ----

  /** Only committed nodes with a CARRIED commitment have an entry. */
  ghost predicate OnlyCarrying(s: State) {
    forall n :: n in s.repairs ==> n in s.store.dag && IsCarried(s.store.dag[n])
  }

  lemma JudgedCarries(st: Store, m: Id, n: Id)
    requires Judges(st, m, n)
    ensures n in st.dag && IsCarried(st.dag[n])
  {
    hide SearchFrom;
    SearchClassifies(st.dag, st.order, {m}, [m], n);
  }

  lemma BlastRepairsCarry(s: State, root: Id)
    requires OnlyCarrying(s)
    ensures OnlyCarrying(s.(repairs := BlastRepairs(s, root)))
  {
    hide IsCarried, SearchFrom, Closure, EdgesOf, BlastRepairs;
    forall n | n in BlastRepairs(s, root) ensures n in s.store.dag && IsCarried(s.store.dag[n]) {
      JudgedEntry(s, root, n);
      if n !in s.repairs { JudgedCarries(s.store, root, n); }
    }
  }

  lemma CarryDepends(s: State, t: State)
    requires OnlyCarrying(s) && Extends(s.store, t.store) && t.repairs.Keys <= s.repairs.Keys
    ensures OnlyCarrying(t)
  {
    hide IsCarried;
  }

  lemma SameStoreCarries(s: State, t: State)
    requires OnlyCarrying(s) && t.store == s.store && t.repairs == s.repairs
    ensures OnlyCarrying(t)
  {
    hide IsCarried;
  }

  lemma {:induction false} RecurAllCarries(cfg: Config, s: State, ids: seq<Id>, active: set<Id>, now: int)
    requires OnlyCarrying(s)
    ensures OnlyCarrying(RecurAll(cfg, s, ids, active, now))
    decreases |ids|
  {
    hide OnlyCarrying, BlastRepairs, Closure, EdgesOf, Withdrawn;
    if ids != [] {
      var n := |ids| - 1;
      RecurAllCarries(cfg, s, ids[..n], active, now);
      var before := RecurAll(cfg, s, ids[..n], active, now);
      BlastRepairsCarry(before, ids[n]);
      SameStoreCarries(before.(repairs := BlastRepairs(before, ids[n])), Recur(cfg, before, ids[n], now));
    }
  }

  lemma AssessCarries(cfg: Config, s: State, root: Id, now: int)
    requires OnlyCarrying(s)
    ensures OnlyCarrying(Assess(cfg, s, root, now))
  {
    hide OnlyCarrying, BlastRepairs, Closure, EdgesOf, RecurAll, Active;
    var s1 := s.(repairs := BlastRepairs(s, root));
    BlastRepairsCarry(s, root);
    RecurAllCarries(cfg, s1, SortedIds(Blast(s.store.dag, root)), Active(s1, now), now);
  }

  lemma DesignateCarries(cfg: Config, s: State, root: Id, token: string, now: int)
    requires OnlyCarrying(s)
    ensures OnlyCarrying(Designate(cfg, s, root, token, now).0)
  {
    hide OnlyCarrying, Assess, Continue, Reconstruct, Closure, EdgesOf, Critical, Extends;
    if root in s.store.dag && root !in s.store.ledger {
      var j := Assess(cfg, s, root, now);
      var s1 := Contain(cfg, s, root, now);
      var c := Blast(s.store.dag, root);
      var s2 := Continuity(cfg, s1, c, token, now);
      AssessCarries(cfg, s, root, now);
      AssessKeeps(cfg, s, root, now);
      ContinueKeeps(s1, s1, Critical(s1.store.dag, s1.store.order, c), token, now);
      ReconstructSettles(cfg, s2, root, token, now);
      DesignateExtends(cfg, s, root, token, now);
      CarryDepends(j, Designate(cfg, s, root, token, now).0);
    }
  }

  lemma SubmitCarries(cfg: Config, s: State, sub: Submission, now: int)
    requires OnlyCarrying(s)
    ensures OnlyCarrying(Submit(cfg, s, sub, now).0)
  {
    hide OnlyCarrying, Submit, Reject, Accept, Evaluate, WithGap, Considered, Extends, Commit;
    var p := WithGap(sub.payload, s.store.dag);
    SubmitBranches(cfg, s, sub, now);
    match Evaluate(sub.payload, s.store, sub.auth, now) {
      case TaintedParent(root) => RejectCarries(cfg, s, p, root, now);
      case _ =>
        SubmitExtends(cfg, s, sub, now);
        AcceptRepairs(s, p);
        CarryDepends(s, Submit(cfg, s, sub, now).0);
    }
  }

  lemma AcceptRepairs(s: State, p: Payload)
    ensures Accept(s, p).0.repairs == s.repairs
  {
    hide FirstMismatch, Completed;
  }

  lemma RejectCarries(cfg: Config, s: State, p: Payload, root: Id, now: int)
    requires OnlyCarrying(s)
    ensures OnlyCarrying(Reject(cfg, s, p, root, now).0)
  {
    hide OnlyCarrying, Assess, FindReplacement, RejectionEvent, Offered, Closure, EdgesOf, Extends;
    var s1 := s.(store := Commit(s.store, p));
    var t := Reject(cfg, s, p, root, now).0;
    CommitExtends(s.store, p);
    CarryDepends(s, s1);
    AssessCarries(cfg, s1, root, now);
    AssessKeeps(cfg, s1, root, now);
    QuarantineExtends(s1.store, {p.id});
    CarryDepends(Assess(cfg, s1, root, now), t);
  }

  lemma QuarantineExtends(st: Store, ids: set<Id>)
    ensures Extends(st, Quarantine(st, ids))
  {
  }

  lemma StepCarries(cfg: Config, s: State, r: Request)
    requires OnlyCarrying(s)
    ensures OnlyCarrying(Next(cfg, s, r))
  {
    hide OnlyCarrying, Submit, Designate, CompactionPayload, Tainted, Upserted, BlastRepairs, Closure, EdgesOf, Withdrawn, Extends;
    match r {
      case SubmitCandidate(sub, now) => SubmitCarries(cfg, s, sub, now);
      case DesignatePoison(root, token, now) => DesignateCarries(cfg, s, root, token, now);
      case Observe(n, now) =>
        BlastRepairsCarry(s, n);
        SameStoreCarries(s.(repairs := BlastRepairs(s, n)), Recur(cfg, s, n, now));
      case _ =>
        StepExtends(cfg, s, r);
        CarryDepends(s, Next(cfg, s, r));
    }
  }

  /** In every run, whatever the requests, only nodes with a CARRIED commitment have a disposition. */
  lemma {:induction false} RunsDisposeCarrying(cfg: Config, key: string, rs: seq<Request>)
    ensures OnlyCarrying(Run(cfg, Initial(key), rs))
    decreases |rs|
  {
    hide Next, OnlyCarrying;
    if rs == [] {
      NothingDisposed(key);
    } else {
      RunsDisposeCarrying(cfg, key, rs[..|rs| - 1]);
      StepCarries(cfg, Run(cfg, Initial(key), rs[..|rs| - 1]), rs[|rs| - 1]);
    }
  }

  lemma NothingDisposed(key: string)
    ensures OnlyCarrying(Initial(key))
  {
  }

  // ---- Dispositions are final ----

  lemma AssessAdvances(cfg: Config, s: State, root: Id, now: int)
    ensures Advances(s.repairs, Assess(cfg, s, root, now).repairs)
  {
    hide Assess, Traversals, JudgesOf, AllPending, Verdict;
    ContainSettles(cfg, s, root, now);
    forall n | Terminal(s.repairs, n) ensures n in Assess(cfg, s, root, now).repairs && Assess(cfg, s, root, now).repairs[n] == s.repairs[n] {
      assert Settles(s, Traversals(s, root, now), Contain(cfg, s, root, now).repairs, n);
    }
  }

  lemma DesignateAdvances(cfg: Config, s: State, root: Id, token: string, now: int)
    ensures Advances(s.repairs, Designate(cfg, s, root, token, now).0.repairs)
  {
    hide Advances, Assess, Continue, Reconstruct, Closure, EdgesOf, Critical;
    if root in s.store.dag && root !in s.store.ledger {
      var s1, c := Contain(cfg, s, root, now), Blast(s.store.dag, root);
      var s2 := Continuity(cfg, s1, c, token, now);
      AssessAdvances(cfg, s, root, now);
      ContinueKeeps(s1, s1, Critical(s1.store.dag, s1.store.order, c), token, now);
      ReconstructSettles(cfg, s2, root, token, now);
      AdvancesTransitive(s.repairs, s2.repairs, Reconstruct(cfg, s2, root, token, now).repairs);
    } else {
      Unadvanced(s.repairs);
    }
  }

  lemma Unadvanced(r: map<Id, Repair>)
    ensures Advances(r, r)
  {
  }

  lemma SubmitAdvances(cfg: Config, s: State, sub: Submission, now: int)
    ensures Advances(s.repairs, Submit(cfg, s, sub, now).0.repairs)
  {
    hide Advances, Submit, Assess, FindReplacement, RejectionEvent, Offered, Accept, Evaluate, WithGap, Considered, Commit;
    var p := WithGap(sub.payload, s.store.dag);
    Unadvanced(s.repairs);
    SubmitBranches(cfg, s, sub, now);
    AcceptRepairs(s, p);
    match Evaluate(sub.payload, s.store, sub.auth, now) {
      case TaintedParent(root) => AssessAdvances(cfg, s.(store := Commit(s.store, p)), root, now);
      case _ =>
    }
  }

  lemma BlastRepairsAdvances(s: State, n: Id)
    ensures Advances(s.repairs, BlastRepairs(s, n))
  {
    hide BlastRepairs, Judges;
    forall x | Terminal(s.repairs, x) ensures x in BlastRepairs(s, n) && BlastRepairs(s, n)[x] == s.repairs[x] {
      JudgedEntry(s, n, x);
    }
  }

  /** Whatever the request, a terminal disposition stays as it is. */
  lemma StepAdvances(cfg: Config, s: State, r: Request)
    ensures Advances(s.repairs, Next(cfg, s, r).repairs)
  {
    hide Advances, Submit, Designate, Compact, Seed, Renew, DeclareSubstitute, Expose, Upserted, BlastRepairs, Closure, EdgesOf, Withdrawn;
    Unadvanced(s.repairs);
    match r {
      case SubmitCandidate(sub, now) => SubmitAdvances(cfg, s, sub, now);
      case DesignatePoison(root, token, now) => DesignateAdvances(cfg, s, root, token, now);
      case Observe(n, now) => BlastRepairsAdvances(s, n);
      case _ => OtherRepairs(cfg, s, r);
    }
  }

  lemma OtherRepairs(cfg: Config, s: State, r: Request)
    requires !r.SubmitCandidate? && !r.DesignatePoison? && !r.Observe?
    ensures Next(cfg, s, r).repairs == s.repairs && Next(cfg, s, r).adapterKey == s.adapterKey
  {
    hide CompactionPayload, Tainted, Upserted, Commit, ParentSet;
  }

  /** A terminal disposition stays through every run. */
  lemma {:induction false} DispositionsAreFinal(cfg: Config, s: State, rs: seq<Request>)
    ensures Advances(s.repairs, Run(cfg, s, rs).repairs)
    decreases |rs|
  {
    hide Next, Advances;
    if rs == [] {
      Unadvanced(s.repairs);
    } else {
      var before := Run(cfg, s, rs[..|rs| - 1]);
      DispositionsAreFinal(cfg, s, rs[..|rs| - 1]);
      StepAdvances(cfg, before, rs[|rs| - 1]);
      AdvancesTransitive(s.repairs, before.repairs, Run(cfg, s, rs).repairs);
    }
  }
}
