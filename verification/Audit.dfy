/** The breach report, the truth of quarantine records, and what no request ever takes back. */
module Audit {
  import opened Ids
  import opened Reach
  import opened Records
  import opened BlastRadius
  import opened Admission
  import opened Replacement
  import opened Gateway
  import opened Containment
  import opened Repairs

  // ---- The breach report ----

  predicate IsBreach(st: Store, n: Id) {
    n in st.dag && n !in st.ledger && !(Sources(st.dag[n]) !! st.ledger)
  }

  /** The for/else scan: the first quarantined parent or, failing that, the first quarantined cover convicts a node. */
  method MeasureBreaches(st: Store) returns (breaches: seq<Id>)
    requires Filed(st)
    ensures NoDuplicates(breaches)
    ensures forall n :: n in breaches <==> IsBreach(st, n)
    ensures breaches == [] <==> Closure(EdgesOf(st.dag), st.ledger) == st.ledger
  {
    breaches := [];
    for i := 0 to |st.order|
      invariant NoDuplicates(breaches)
      invariant forall n :: n in breaches <==> n in st.order[..i] && IsBreach(st, n)
    {
      var n := st.order[i];
      assert n !in st.order[..i];
      assert st.order[..i + 1] == st.order[..i] + [n];
      if n in st.ledger { continue; }
      var p := st.dag[n];
      var tainted := false;
      var j := 0;
      while j < |p.parents| && !tainted
        invariant 0 <= j <= |p.parents|
        invariant tainted <==> exists k :: 0 <= k < j && p.parents[k].parent in st.ledger
      {
        tainted := p.parents[j].parent in st.ledger;
        j := j + 1;
      }
      if !tainted {
        j := 0;
        while j < |p.covers| && !tainted
          invariant 0 <= j <= |p.covers|
          invariant tainted <==> exists k :: 0 <= k < j && p.covers[k] in st.ledger
        {
          tainted := p.covers[j] in st.ledger;
          j := j + 1;
        }
      }
      assert tainted <==> !(Sources(p) !! st.ledger) by { SourcesScan(p, st.ledger); }
      if tainted {
        breaches := breaches + [n];
      }
    }
    assert st.order[..|st.order|] == st.order;
    NoBreachIsContainment(st);
    if breaches != [] { assert IsBreach(st, breaches[0]); }
  }

  lemma SourcesScan(p: Payload, ledger: set<Id>)
    ensures !(Sources(p) !! ledger) <==>
      (exists k :: 0 <= k < |p.parents| && p.parents[k].parent in ledger) || (exists k :: 0 <= k < |p.covers| && p.covers[k] in ledger)
  {
    if u :| u in Sources(p) && u in ledger {
      if u in ParentSet(p) {
        var k :| 0 <= k < |p.parents| && p.parents[k].parent == u;
      }
    }
    if k :| 0 <= k < |p.parents| && p.parents[k].parent in ledger {
      assert p.parents[k].parent in Sources(p);
    }
    if k :| 0 <= k < |p.covers| && p.covers[k] in ledger {
      assert p.covers[k] in Sources(p);
    }
  }

  /** A check of single edges decides containment over any number of hops. */
  lemma NoBreachIsContainment(st: Store)
    requires Filed(st)
    ensures (forall n :: !IsBreach(st, n)) <==> Closure(EdgesOf(st.dag), st.ledger) == st.ledger
  {
    var e := EdgesOf(st.dag);
    hide Closure, Sources;
    ClosureOfClosed(e, st.ledger);
    if n :| IsBreach(st, n) {
      var u :| u in Sources(st.dag[n]) && u in st.ledger;
      EdgeMeaning(st.dag, u, n);
      assert !Closed(e, st.ledger);
    } else {
      forall u, v | u in st.ledger && (u, v) in e ensures v in st.ledger {
        EdgeMeaning(st.dag, u, v);
        assert !IsBreach(st, v);
      }
    }
  }

  /** In a run of harmless requests from the initial state the report is always empty. */
  lemma ReportStaysEmpty(cfg: Config, key: string, rs: seq<Request>, n: Id)
    requires FreshRun(cfg, Initial(key), rs) && AlwaysHarmless(cfg, Initial(key), rs)
    ensures !IsBreach(Run(cfg, Initial(key), rs).store, n)
  {
    hide Run, AlwaysContained, AlwaysHarmless, FreshRun, IsBreach, Closure, EdgesOf, Contained;
    var s := Run(cfg, Initial(key), rs);
    InitialStateIsContained(key);
    RunContainment(cfg, Initial(key), rs);
    RunEndsContained(cfg, Initial(key), rs);
    RunFiled(cfg, Initial(key), rs);
    ContainedIsBreachFree(s, n);
  }

  lemma ContainedIsBreachFree(s: State, n: Id)
    requires Filed(s.store) && Contained(s)
    ensures !IsBreach(s.store, n)
  {
    hide Closure, EdgesOf, Roots;
    ContainedMeaning(s);
    ClosureOfClosed(EdgesOf(s.store.dag), s.store.ledger);
    NoBreachIsContainment(s.store);
  }

  // ---- Quarantine records ----

  /**
   * The ledger digest recorded with a rejection is taken over the whole closure although one id is added. It is
   * the digest of the ledger that results, except when a clean node already builds on a new rejected id.
   */
  lemma RejectionRecordTruth(cfg: Config, s: State, p: Payload, root: Id, now: int)
    requires Filed(s.store) && Contained(s) && p.id !in s.store.ledger
    requires root in ParentSet(p) && root in s.store.ledger
    ensures var t := Reject(cfg, s, p, root, now).0;
            && |t.events| == |s.events| + 1
            && (t.events[|s.events|].digest == SortedIds(t.store.ledger) <==> p.id in s.store.dag || RejectHarmless(s.store, p))
  {
    hide Closure, EdgesOf, Contained, Reject, RejectHarmless, Sources, Filed, Blast, Roots, ParentSet;
    RejectEffect(cfg, s, p, root, now);
    DigestOfUnion(s.store.ledger, Blast(Commit(s.store, p).dag, root), p.id);
    RejectedClosure(s, p, root);
  }

  lemma DigestOfUnion(ledger: set<Id>, c: set<Id>, id: Id)
    ensures SortedIds(ledger + c + {id}) == SortedIds(ledger + {id}) <==> c <= ledger + {id}
  {
    SortedIdsAreCanonical(ledger + c + {id}, ledger + {id});
    assert ledger + c + {id} == ledger + {id} <==> c <= ledger + {id};
  }

  lemma RejectedClosure(s: State, p: Payload, root: Id)
    requires Contained(s) && p.id !in s.store.ledger && root in ParentSet(p) && root in s.store.ledger
    ensures Blast(Commit(s.store, p).dag, root) <= s.store.ledger + {p.id} <==> p.id in s.store.dag || RejectHarmless(s.store, p)
  {
    hide Closure, EdgesOf, Contained, Justified, ParentSet;
    var e, e' := EdgesOf(s.store.dag), EdgesOf(Commit(s.store, p).dag);
    var ledger' := s.store.ledger + {p.id};
    ContainedMeaning(s);
    CommitEdges(s.store, p);
    ClosureIsClosed(e', {root});
    if p.id in s.store.dag {
      ClosureIsLeast(e', {root}, s.store.ledger);
    } else {
      assert (root, p.id) in e';
      forall v ensures v in Children(e, p.id) <==> (p.id, v) in e {
        if (p.id, v) in e { assert (p.id, v).1 == v; }
      }
      if RejectHarmless(s.store, p) {
        ClosureIsLeast(e', {root}, ledger');
      }
    }
  }

  /** The record of a designation is the ledger that results, whatever continuity and reconstruction add to the graph. */
  lemma DesignationRecordTruth(cfg: Config, s: State, root: Id, token: string, now: int)
    requires root in s.store.dag && root !in s.store.ledger
    ensures var t := Designate(cfg, s, root, token, now).0;
            && |t.events| > |s.events|
            && t.events[|s.events|].digest == SortedIds(t.store.ledger)
            && Elements(t.events[|s.events|].blast) == Blast(s.store.dag, root)
            && t.store.ledger == s.store.ledger + Blast(s.store.dag, root)
  {
    hide Closure, EdgesOf, Contain, Continuity, Reconstruct;
    var s1 := Contain(cfg, s, root, now);
    var c := Blast(s.store.dag, root);
    ContainEffect(cfg, s, root, now);
    ContinuityKeeps(cfg, s1, c, token, now);
    ReconstructKeeps(cfg, Continuity(cfg, s1, c, token, now), root, token, now);
  }

  // ---- Append-only ----

  /** The graph keeps every payload and the ledger keeps every id. */
  ghost predicate Extends(st: Store, st': Store) {
    && st.ledger <= st'.ledger
    && forall n :: n in st.dag ==> n in st'.dag && st'.dag[n] == st.dag[n]
  }

  lemma SubmitExtends(cfg: Config, s: State, sub: Submission, now: int)
    ensures Extends(s.store, Submit(cfg, s, sub, now).0.store)
  {
    hide Reject, Evaluate, WithGap, Submit, Considered, FirstMismatch, Completed, Roots, RejectionEvent;
    SubmitBranches(cfg, s, sub, now);
    var p := WithGap(sub.payload, s.store.dag);
    if Evaluate(sub.payload, s.store, sub.auth, now).TaintedParent? {
      RejectEffect(cfg, s, p, Evaluate(sub.payload, s.store, sub.auth, now).root, now);
    }
  }

  lemma DesignateExtends(cfg: Config, s: State, root: Id, token: string, now: int)
    ensures Extends(s.store, Designate(cfg, s, root, token, now).0.store)
  {
    hide Closure, EdgesOf, Contain, Continuity, Reconstruct, IsCarried, Roots, Blast, SortedIds;
    var s1 := Contain(cfg, s, root, now);
    var c := Blast(s.store.dag, root);
    ContainEffect(cfg, s, root, now);
    ContinuityKeeps(cfg, s1, c, token, now);
    ReconstructKeeps(cfg, Continuity(cfg, s1, c, token, now), root, token, now);
    ReconstructUncarried(cfg, Continuity(cfg, s1, c, token, now), root, token, now);
  }

  /** No request removes a payload or a quarantine fact. */
  lemma StepExtends(cfg: Config, s: State, r: Request)
    ensures Extends(s.store, Next(cfg, s, r).store)
  {
    hide Submit, Designate, Recur, CompactionPayload, Tainted, Commit, Extends, Upserted, Renew, DeclareSubstitute, Expose;
    ExtendsReflexive(s.store);
    match r
    case SubmitCandidate(sub, now) => SubmitExtends(cfg, s, sub, now);
    case DesignatePoison(root, token, now) => DesignateExtends(cfg, s, root, token, now);
    case Observe(n, now) => ObserveKeeps(cfg, s, n, now);
    case ContextCompacted(ev, valid) => CommitExtends(s.store, CompactionPayload(s.store.dag, ev));
    case SeedRoot(root, key) => CommitExtends(s.store, Bare(root).(digest := "seed", author := key));
    case _ => DeclarationStore(cfg, s, r);
  }

  lemma CommitExtends(st: Store, p: Payload)
    ensures Extends(st, Commit(st, p))
  {
  }

  lemma DeclarationStore(cfg: Config, s: State, r: Request)
    requires !r.SubmitCandidate? && !r.DesignatePoison? && !r.Observe? && !r.ContextCompacted? && !r.SeedRoot?
    ensures Next(cfg, s, r).store == s.store
  {
    hide Upserted;
  }

  /** Along every run the graph and the ledger only grow. */
  lemma {:induction false} RunExtends(cfg: Config, s: State, rs: seq<Request>, i: nat)
    requires i <= |rs|
    ensures Extends(Run(cfg, s, rs[..i]).store, Run(cfg, s, rs).store)
    decreases |rs| - i
  {
    hide Next, Extends;
    assert rs[..|rs|] == rs;
    if i < |rs| {
      RunExtends(cfg, s, rs, i + 1);
      RunStep(cfg, s, rs, i);
      StepExtends(cfg, Run(cfg, s, rs[..i]), rs[i]);
      ExtendsTransitive(Run(cfg, s, rs[..i]).store, Run(cfg, s, rs[..i + 1]).store, Run(cfg, s, rs).store);
    } else {
      ExtendsReflexive(Run(cfg, s, rs).store);
    }
  }

  lemma ExtendsReflexive(a: Store)
    ensures Extends(a, a)
  {
  }

  lemma ExtendsTransitive(a: Store, b: Store, c: Store)
    requires Extends(a, b) && Extends(b, c)
    ensures Extends(a, c)
  {
  }
}
