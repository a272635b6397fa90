/** Runs with continuity on and off: when they agree, and how a remote adapter's lost key makes them differ. */
module RemoteRuns {
  import opened Ids
  import opened Records
  import opened BlastRadius
  import opened Reach
  import opened Admission
  import opened Replacement
  import opened Gateway
  import opened Judgement
  import opened Containment
  import opened Repairs
  import opened Dispositions
  import opened Recurrences
  import opened NonInterference

  // ---- The adapter's key along a run ----

  /** Keys minted in process are told apart by their prefix. */
  predicate MintedKey(key: string) {
    "key:" <= key
  }

  lemma DesignateKey(cfg: Config, s: State, root: Id, token: string, now: int)
    requires cfg.recovery.Remote?
    ensures var t := Designate(cfg, s, root, token, now).0;
            if root in s.store.dag && root !in s.store.ledger && EmitsAny(cfg, s, root, token, now) then MintedKey(t.adapterKey)
            else t.adapterKey == s.adapterKey
  {
    hide Designate, Continued, Reconstruct, Closure, EdgesOf;
    if root in s.store.dag && root !in s.store.ledger {
      SameBlastArgument(cfg, s, root, token, now);
      ContinuedKey(cfg, s, root, token, now);
      ReconstructKey(cfg, Continued(cfg, s, root, token, now), root, token, now);
    } else {
      UnchangedDesignation(cfg, s, root, token, now);
    }
  }

  lemma ContinuedKey(cfg: Config, s: State, root: Id, token: string, now: int)
    ensures var t := Continued(cfg, s, root, token, now);
            if EmitsAny(cfg, s, root, token, now) then MintedKey(t.adapterKey) else t.adapterKey == s.adapterKey
  {
    hide Contain, Continuity, Continue, DependentsOf, Closure, EdgesOf, Emits;
    var t := After(s, Blast(s.store.dag, root));
    ContinuedState(cfg, s, root, token, now);
    ContinueKey(t, t, DependentsOf(s, root), token, now);
  }

  lemma ReconstructKey(cfg: Config, s: State, root: Id, token: string, now: int)
    requires cfg.recovery.Remote?
    ensures Reconstruct(cfg, s, root, token, now).adapterKey == s.adapterKey
  {
    hide RebuildAll;
    var comps := SortedIds(PendingIn(s.repairs));
    assert Elements(comps) == PendingIn(s.repairs);
    RemoteDispositions(cfg, s, root, comps, "", token, now);
  }

  /** Only a designation that emits a record changes the key, and without continuity none does. */
  lemma StepKey(cfg: Config, s: State, r: Request)
    requires cfg.recovery.Remote?
    ensures var t := Next(cfg, s, r);
            t.adapterKey == s.adapterKey || (cfg.continuity && MintedKey(t.adapterKey))
  {
    hide Submit, Designate, Compact, Seed, Upserted, BlastRepairs, Closure, EdgesOf, Withdrawn, Emits, MintedKey;
    match r {
      case DesignatePoison(root, token, now) => DesignateKey(cfg, s, root, token, now);
      case SubmitCandidate(sub, now) => SubmitKey(cfg, s, sub, now);
      case Observe(n, now) =>
      case _ => OtherRepairs(cfg, s, r);
    }
  }

  lemma SubmitKey(cfg: Config, s: State, sub: Submission, now: int)
    ensures Submit(cfg, s, sub, now).0.adapterKey == s.adapterKey
  {
    hide Submit, Assess, FindReplacement, RejectionEvent, Offered, Completed, FirstMismatch, Evaluate, WithGap, Considered, Commit;
    var p := WithGap(sub.payload, s.store.dag);
    SubmitBranches(cfg, s, sub, now);
    match Evaluate(sub.payload, s.store, sub.auth, now) {
      case TaintedParent(root) => AssessKeeps(cfg, s.(store := Commit(s.store, p)), root, now);
      case _ =>
    }
  }

  // ---- One designation ----

  /** Some compaction will be pending that the adapter would rebuild. */
  ghost predicate AdapterWouldRebuild(s: State, root: Id, now: int) {
    exists n :: PendingAfter(s, root, now, n) && Answers(s.store, root, n, RepairAfter(s, root, now, n))
  }

  /**
   * A caller's check: the designation takes effect, the gateway was configured with the adapter's key, that key has
   * been replaced or is about to be, and the adapter would rebuild something with it.
   */
  ghost predicate Disturbs(cfg: Config, key: string, s: State, r: Request) {
    match r
    case DesignatePoison(root, token, now) =>
      && root in s.store.dag && root !in s.store.ledger
      && Serves(cfg, key) && (s.adapterKey != key || EmitsAny(cfg, s, root, token, now))
      && AdapterWouldRebuild(s, root, now)
    case _ => false
  }

  /** Some compaction is settled in both states, differently. */
  ghost predicate Diverged(s: State, t: State) {
    exists n :: Terminal(s.repairs, n) && Terminal(t.repairs, n) && s.repairs[n] != t.repairs[n]
  }

  lemma DivergedStates(s: State, t: State)
    requires Diverged(s, t)
    ensures !Matches(s, t)
  {
  }

  lemma StaysDiverged(s: State, t: State, s': State, t': State)
    requires Diverged(s, t) && Advances(s.repairs, s'.repairs) && Advances(t.repairs, t'.repairs)
    ensures Diverged(s', t')
  {
    var n :| Terminal(s.repairs, n) && Terminal(t.repairs, n) && s.repairs[n] != t.repairs[n];
    assert Terminal(s'.repairs, n) && Terminal(t'.repairs, n);
  }

  /** The two runs hold keys that serve alike, unless continuity has replaced the one of the first. */
  ghost predicate KeysInStep(key: string, s: State, t: State) {
    t.adapterKey == key && (s.adapterKey == key || MintedKey(s.adapterKey))
  }

  lemma AnswersContinued(cfg: Config, s: State, t: State, root: Id, token: string, now: int, n: Id)
    requires Kept(s) && Matches(s, t) && Ordinary(root) && root in s.store.dag && root !in s.store.ledger
    ensures var a := Continued(cfg, s, root, token, now);
            && (n in PendingIn(a.repairs) <==> PendingAfter(s, root, now, n))
            && (n in PendingIn(a.repairs) ==>
                 (Answers(a.store, root, n, a.repairs[n]) <==> Answers(s.store, root, n, RepairAfter(s, root, now, n))))
  {
    hide Ordinary, Kept, Matches, Contain, Continuity, PendingAfter, RepairAfter, Closure, EdgesOf, Answers, RebuiltAfter, Rebuilds;
    var off := cfg.(continuity := false);
    var a, b := Continued(cfg, s, root, token, now), Continued(off, t, root, token, now);
    RebuiltMeaning(cfg, s, root, token, now, n);
    ContinuedMatch(cfg, s, t, root, token, now);
    if n in PendingIn(a.repairs) {
      PendingOrdinary(a, n);
      AnswersMatch(a, b, root, n, a.repairs[n]);
      AnswersMatch(s, t, root, n, a.repairs[n]);
      WithoutContinuity(off, t, root, token, now);
      AnswersDepend(b.store, t.store, root, n, a.repairs[n]);
    }
  }

  lemma WithoutContinuity(off: Config, t: State, root: Id, token: string, now: int)
    requires !off.continuity
    ensures var b := Continued(off, t, root, token, now); b.store.dag == t.store.dag && b.adapterKey == t.adapterKey
  {
    hide Contain, Closure, EdgesOf;
    ContainEffect(off, t, root, now);
  }

  lemma AnswersDepend(a: Store, b: Store, root: Id, n: Id, r: Repair)
    requires r.Pending? && a.dag == b.dag
    ensures Answers(a, root, n, r) <==> Answers(b, root, n, r)
  {
    hide AdapterAgrees;
  }

  lemma MintedNeverServes(cfg: Config, key: string)
    requires cfg.recovery.Remote? ==> !MintedKey(cfg.recovery.identity)
    ensures MintedKey(key) ==> !Serves(cfg, key)
  {
  }

  /** A designation that does not disturb the remote path comes out the same with and without continuity. */
  lemma UndisturbedDesignation(cfg: Config, key: string, s: State, t: State, root: Id, token: string, now: int)
    requires Kept(s) && Matches(s, t) && Ordinary(root)
    requires cfg.recovery.Remote? ==> !MintedKey(cfg.recovery.identity) && KeysInStep(key, s, t)
    requires !Disturbs(cfg, key, s, DesignatePoison(root, token, now))
    ensures var a, b := Designate(cfg, s, root, token, now).0, Designate(cfg.(continuity := false), t, root, token, now).0;
            Kept(a) && Matches(a, b)
  {
    hide Ordinary, Kept, Matches, Designate, Continued, PendingAfter, RepairAfter, EmitsAny, Answers, MintedKey, Closure, EdgesOf;
    var off := cfg.(continuity := false);
    StoreMembers(s, t, root);
    if root !in s.store.dag || root in s.store.ledger {
      UnchangedDesignation(cfg, s, root, token, now);
      UnchangedDesignation(off, t, root, token, now);
    } else {
      var a, b := Continued(cfg, s, root, token, now), Continued(off, t, root, token, now);
      if cfg.recovery.Remote? {
        ContinuedKey(cfg, s, root, token, now);
        WithoutContinuity(off, t, root, token, now);
        MintedNeverServes(cfg, a.adapterKey);
        forall n | n in PendingIn(a.repairs) ensures KeysServe(cfg, a, a, b, root, n, a.repairs[n]) {
          AnswersContinued(cfg, s, t, root, token, now, n);
        }
      }
      DesignateMatch(cfg, s, t, root, token, now);
    }
  }

  /** A designation that disturbs it settles some compaction differently. */
  lemma DisturbedDesignation(cfg: Config, key: string, s: State, t: State, root: Id, token: string, now: int)
    requires Kept(s) && Matches(s, t) && Ordinary(root)
    requires cfg.recovery.Remote? ==> !MintedKey(cfg.recovery.identity) && KeysInStep(key, s, t)
    requires Disturbs(cfg, key, s, DesignatePoison(root, token, now))
    ensures Diverged(Designate(cfg, s, root, token, now).0, Designate(cfg.(continuity := false), t, root, token, now).0)
  {
    hide Ordinary, Kept, Matches, Designate, Continued, PendingAfter, RepairAfter, EmitsAny, Answers, MintedKey, Closure, EdgesOf, Reconstruct;
    var off := cfg.(continuity := false);
    StoreMembers(s, t, root);
    var a, b := Continued(cfg, s, root, token, now), Continued(off, t, root, token, now);
    ContinuedKey(cfg, s, root, token, now);
    WithoutContinuity(off, t, root, token, now);
    MintedNeverServes(cfg, a.adapterKey);
    var n :| PendingAfter(s, root, now, n) && Answers(s.store, root, n, RepairAfter(s, root, now, n));
    AnswersContinued(cfg, s, t, root, token, now, n);
    ContinuedMatch(cfg, s, t, root, token, now);
    PendingOrdinary(a, n);
    AnswersMatch(a, b, root, n, a.repairs[n]);
    MatchedRepairs(a, b);
    SameBlastArgument(cfg, s, root, token, now);
    SameBlastArgument(off, t, root, token, now);
    ReconstructDisposes(cfg, a, root, n, token, now);
    ReconstructDisposes(off, b, root, n, token, now);
  }

  lemma MatchedRepairs(a: State, b: State)
    requires Matches(a, b)
    ensures b.repairs == a.repairs
  {
  }

  // ---- Whole runs ----

  ghost predicate OrdinaryRun(rs: seq<Request>) {
    forall i :: 0 <= i < |rs| ==> OrdinaryRequest(rs[i])
  }

  ghost predicate Undisturbed(cfg: Config, key: string, rs: seq<Request>) {
    forall i :: 0 <= i < |rs| ==> !Disturbs(cfg, key, Run(cfg, Initial(key), rs[..i]), rs[i])
  }

  lemma UndisturbedPrefix(cfg: Config, key: string, rs: seq<Request>)
    requires rs != []
    ensures var n := |rs| - 1;
            Undisturbed(cfg, key, rs) <==>
              Undisturbed(cfg, key, rs[..n]) && !Disturbs(cfg, key, Run(cfg, Initial(key), rs[..n]), rs[n])
  {
    hide Run, Disturbs;
    var n := |rs| - 1;
    assert forall i :: 0 <= i < n ==> rs[..n][..i] == rs[..i] && rs[..n][i] == rs[i];
  }

  lemma {:induction false} RunKeys(cfg: Config, key: string, rs: seq<Request>)
    requires cfg.recovery.Remote?
    ensures KeysInStep(key, Run(cfg, Initial(key), rs), Run(cfg.(continuity := false), Initial(key), rs))
    decreases |rs|
  {
    hide Next, MintedKey;
    if rs != [] {
      var n := |rs| - 1;
      RunKeys(cfg, key, rs[..n]);
      StepKey(cfg, Run(cfg, Initial(key), rs[..n]), rs[n]);
      StepKey(cfg.(continuity := false), Run(cfg.(continuity := false), Initial(key), rs[..n]), rs[n]);
    }
  }

  lemma StepAgrees(cfg: Config, key: string, s: State, t: State, r: Request)
    requires Kept(s) && Matches(s, t) && OrdinaryRequest(r)
    requires cfg.recovery.Remote? ==> !MintedKey(cfg.recovery.identity) && KeysInStep(key, s, t)
    ensures var a, b := Next(cfg, s, r), Next(cfg.(continuity := false), t, r);
            if Disturbs(cfg, key, s, r) then Diverged(a, b) else Kept(a) && Matches(a, b)
  {
    hide Ordinary, Kept, Matches, Designate, Diverged, KeysInStep, MintedKey, EmitsAny, AdapterWouldRebuild;
    if r.DesignatePoison? {
      if Disturbs(cfg, key, s, r) { DisturbedDesignation(cfg, key, s, t, r.root, r.token, r.now); }
      else { UndisturbedDesignation(cfg, key, s, t, r.root, r.token, r.now); }
    } else {
      StepMatch(cfg, s, t, r);
    }
  }

  lemma {:induction false} RunsAgreeOrDiverge(cfg: Config, key: string, rs: seq<Request>)
    requires OrdinaryRun(rs) && (cfg.recovery.Remote? ==> !MintedKey(cfg.recovery.identity))
    ensures var a, b := Run(cfg, Initial(key), rs), Run(cfg.(continuity := false), Initial(key), rs);
            if Undisturbed(cfg, key, rs) then Kept(a) && Matches(a, b) else Diverged(a, b)
    decreases |rs|
  {
    hide OrdinaryRequest, Kept, Matches, Next, Diverged, Undisturbed, Disturbs, KeysInStep, MintedKey;
    if rs == [] {
      NothingDisturbs(cfg, key);
      InitialMatch(key);
    } else {
      var n := |rs| - 1;
      assert forall i :: 0 <= i < n ==> rs[..n][i] == rs[i];
      var off := cfg.(continuity := false);
      var s, t := Run(cfg, Initial(key), rs[..n]), Run(off, Initial(key), rs[..n]);
      RunsAgreeOrDiverge(cfg, key, rs[..n]);
      UndisturbedPrefix(cfg, key, rs);
      if Undisturbed(cfg, key, rs[..n]) {
        if cfg.recovery.Remote? { RunKeys(cfg, key, rs[..n]); }
        StepAgrees(cfg, key, s, t, rs[n]);
      } else {
        StepAdvances(cfg, s, rs[n]);
        StepAdvances(off, t, rs[n]);
        StaysDiverged(s, t, Next(cfg, s, rs[n]), Next(off, t, rs[n]));
      }
    }
  }

  lemma NothingDisturbs(cfg: Config, key: string)
    ensures Undisturbed(cfg, key, [])
  {
  }

  /**
   * Run the same requests with continuity on and off, none naming an id continuity minted. Restricted to ordinary ids,
   * graph, order and ledger come out the same, and so do all dispositions, exactly when no request disturbs the
   * remote adapter; with inline reconstruction none does.
   */
  lemma ContinuityDoesNotInterfere(cfg: Config, key: string, rs: seq<Request>)
    requires OrdinaryRun(rs) && (cfg.recovery.Remote? ==> !MintedKey(cfg.recovery.identity))
    ensures Matches(Run(cfg, Initial(key), rs), Run(cfg.(continuity := false), Initial(key), rs)) <==> Undisturbed(cfg, key, rs)
    ensures cfg.recovery == Inline ==> Undisturbed(cfg, key, rs)
  {
    hide Run, OrdinaryRun, Kept, Matches, Diverged, MintedKey;
    RunsAgreeOrDiverge(cfg, key, rs);
    if !Undisturbed(cfg, key, rs) {
      DivergedStates(Run(cfg, Initial(key), rs), Run(cfg.(continuity := false), Initial(key), rs));
    }
  }
}
