/** Where every stored payload comes from: one request of the run, and what that request prescribes for it. */
module Provenance {
  import opened Ids
  import opened Reach
  import opened Records
  import opened BlastRadius
  import opened Admission
  import opened Gateway
  import opened Judgement
  import opened Containment
  import opened Recurrences
  import opened Submissions
  import opened Declarations
  import opened Emissions
  import opened Rebuilding
  import opened Audit
  import opened Credits

  /** The designation emitted p for a served node, or rebuilt a pending compaction as p. */
  ghost predicate Produced(cfg: Config, s: State, root: Id, token: string, now: int, n: Id, p: Payload) {
    var c := Blast(s.store.dag, root);
    var view := s.(store := Quarantine(s.store, c));
    || (cfg.continuity && exists m :: Serves(view, c, now, m) && n == ExposureOf(view, token, now, m).node && RecordFor(view, token, now, m, p))
    || exists m :: RebuiltFor(cfg, s, root, token, now, m, n, p)
  }

  ghost predicate RebuiltFor(cfg: Config, s: State, root: Id, token: string, now: int, m: Id, n: Id, p: Payload) {
    && PendingAfter(s, root, now, m) && RebuiltAfter(cfg, s, root, token, now, m)
    && n == RebuiltId(token, m) && IsRebuilt(cfg, token, m, RepairAfter(s, root, now, m), p)
  }

  /** The request adds n to the state it meets, as p. */
  ghost predicate AddedBy(cfg: Config, s: State, r: Request, n: Id, p: Payload) {
    n !in s.store.dag &&
    match r
    case SubmitCandidate(sub, _) => n == sub.payload.id && StoredFor(s.store.dag, sub.payload, p)
    case ContextCompacted(ev, _) => n == ev.node && IsCompactionOf(s.store.dag, ev, p)
    case SeedRoot(root, key) => n == root && p == Payload(root, false, [], [], [], "seed", "", 0.0, key, true, false, "", None)
    case DesignatePoison(root, token, now) =>
      root in s.store.dag && root !in s.store.ledger && Produced(cfg, s, root, token, now, n, p)
    case _ => false
  }

  lemma NewInContinuity(cfg: Config, s: State, root: Id, token: string, now: int, x: Id)
    requires Filed(s.store) && FreshToken(s.store, token) && root in s.store.dag && root !in s.store.ledger
    requires var s2 := Continuity(cfg, Contain(cfg, s, root, now), Blast(s.store.dag, root), token, now);
             x in s2.store.dag && x !in s.store.dag
    ensures var c := Blast(s.store.dag, root);
            var view := s.(store := Quarantine(s.store, c));
            cfg.continuity && exists m :: Serves(view, c, now, m) && x == ExposureOf(view, token, now, m).node
  {
    hide Contain, Continue, Filed, FreshToken, Closure, EdgesOf, Critical, Served, ExposureOf, Recorded, Roots;
    var s1, c := Contain(cfg, s, root, now), Blast(s.store.dag, root);
    ContainEffect(cfg, s, root, now);
    FreshAfterContain(s, s1, root, token);
    if cfg.continuity {
      var deps := Critical(s1.store.dag, s1.store.order, c);
      DistinctCritical(s1.store, c);
      ContinueRecords(s1, deps, token, now);
      NewNode(s1, c, Continue(s1, s1, deps, token, now).store, token, now, x);
      var m :| Serves(s1, c, now, m) && x == ExposureOf(s1, token, now, m).node;
      ServesCommitted(s1, c, now, m);
      var view := s.(store := Quarantine(s.store, c));
      ServesDepends(s1, view, c, token, now, m);
      assert Serves(view, c, now, m);
    }
  }

  lemma DesignationProduces(cfg: Config, s: State, root: Id, token: string, now: int, n: Id)
    requires Filed(s.store) && FreshToken(s.store, token) && root in s.store.dag && root !in s.store.ledger
    requires var t := Designate(cfg, s, root, token, now).0; n in t.store.dag && n !in s.store.dag
    ensures Produced(cfg, s, root, token, now, n, Designate(cfg, s, root, token, now).0.store.dag[n])
  {
    hide Designate, Contain, Continuity, Filed, FreshToken, Closure, EdgesOf, Served, IsCritical, ExposureOf, RecordFor, Rebuilds,
         PendingAfter, RepairAfter, RebuiltAfter, IsRebuilt, RebuiltId, AdapterAnswers, Asked, ServedIn, ExposuresFor, Settles, Traversals;
    var c := Blast(s.store.dag, root);
    var s2 := Continuity(cfg, Contain(cfg, s, root, now), c, token, now);
    if n in s2.store.dag {
      NewInContinuity(cfg, s, root, token, now, n);
      DesignationEmits(cfg, s, root, token, now);
    } else {
      DesignationSettles(cfg, s, root, token, now);
      var m: Id :| m in PendingIn(s2.repairs) && Rebuilds(cfg, s2.store, s2.adapterKey, root, m, s2.repairs[m]) && n == RebuiltId(token, m);
      RebuiltMeaning(cfg, s, root, token, now, m);
      DesignationRebuilds(cfg, s, root, token, now, m);
      assert RebuiltFor(cfg, s, root, token, now, m, n, Designate(cfg, s, root, token, now).0.store.dag[n]);
    }
  }

  /** Whatever one request adds to the graph is what that request prescribes. */
  lemma StepAdds(cfg: Config, s: State, r: Request, n: Id)
    requires Filed(s.store) && FreshFor(s, r)
    requires n in Next(cfg, s, r).store.dag && n !in s.store.dag
    ensures AddedBy(cfg, s, r, n, Next(cfg, s, r).store.dag[n])
  {
    hide Handle, Submit, Designate, StoredFor, IsCompactionOf, Produced, Filed, FreshToken;
    match r {
      case SubmitCandidate(sub, now) =>
        SubmitIs(cfg, s, sub, now);
        var q := SubmitStores(cfg, s, sub, now);
        StoredId(s.store.dag, sub.payload, q);
      case ContextCompacted(ev, valid) => var p := CompactMeaning(cfg, s, ev, valid);
      case SeedRoot(root, key) => SeedMeaning(cfg, s, root, key);
      case DesignatePoison(root, token, now) =>
        DesignationIs(cfg, s, root, token, now);
        DesignationAnswers(cfg, s, root, token, now);
        DesignationProduces(cfg, s, root, token, now, n);
      case Observe(_, _) => ObservationRecurs(cfg, s, r.node, r.now);
      case _ => DeclarationStore(cfg, s, r);
    }
  }

  lemma StoredId(dag: Dag, p: Payload, q: Payload)
    requires StoredFor(dag, p, q)
    ensures q.id == p.id
  {
  }

  /**
   * In every run with fresh tokens each stored payload but the built-in root was added by one request, to a state
   * without it, as that request prescribes: a submission with its computed gap, a compaction, a seed, or a record that a
   * designation emitted or rebuilt.
   */
  lemma {:induction false} EveryPayloadHasItsRequest(cfg: Config, key: string, rs: seq<Request>, n: Id) returns (k: nat)
    requires FreshRun(cfg, Initial(key), rs)
    requires n in Run(cfg, Initial(key), rs).store.dag && n != CLEAN_PARENT
    ensures k < |rs| && AddedBy(cfg, Run(cfg, Initial(key), rs[..k]), rs[k], n, Run(cfg, Initial(key), rs).store.dag[n])
    decreases |rs|
  {
    hide Next, AddedBy, Filed, FreshFor;
    OnlyBuiltIn(cfg, key, rs, n);
    var last := |rs| - 1;
    var s := Run(cfg, Initial(key), rs[..last]);
    if n in s.store.dag {
      FreshPrefix(cfg, key, rs);
      k := EveryPayloadHasItsRequest(cfg, key, rs[..last], n);
      assert rs[..last][..k] == rs[..k];
      StepExtends(cfg, s, rs[last]);
    } else {
      k := last;
      InitialStateIsContained(key);
      RunFiled(cfg, Initial(key), rs[..last]);
      StepAdds(cfg, s, rs[last], n);
    }
  }

  lemma OnlyBuiltIn(cfg: Config, key: string, rs: seq<Request>, n: Id)
    requires n in Run(cfg, Initial(key), rs).store.dag && n != CLEAN_PARENT
    ensures rs != []
  {
    hide Next;
  }

  lemma FreshPrefix(cfg: Config, key: string, rs: seq<Request>)
    requires FreshRun(cfg, Initial(key), rs) && rs != []
    ensures FreshRun(cfg, Initial(key), rs[..|rs| - 1])
  {
    hide Run, FreshFor;
    assert forall i :: 0 <= i < |rs| - 1 ==> rs[..|rs| - 1][..i] == rs[..i] && rs[..|rs| - 1][i] == rs[i];
  }
}
