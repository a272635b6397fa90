/** A family of short runs, with their states worked out, from which the counterexamples are taken. */
module ConcreteRuns {
  import opened Ids
  import opened Reach
  import opened Records
  import opened BlastRadius
  import opened Gateway
  import opened Judgement
  import opened Containment
  import opened Selection
  import opened Dispositions
  import opened Repairs

  // ---- Unfolding runs ----

  lemma RunAppend(cfg: Config, s: State, before: seq<Request>, r: Request, rs: seq<Request>)
    requires rs == before + [r]
    ensures Run(cfg, s, rs) == Next(cfg, Run(cfg, s, before), r)
  {
    hide Next;
    assert rs[..|before|] == before;
  }

  lemma RunNothing(cfg: Config, s: State)
    ensures Run(cfg, s, []) == s
  {
  }

  lemma {:induction false} RunJoin(cfg: Config, s: State, a: seq<Request>, b: seq<Request>)
    ensures Run(cfg, s, a + b) == Run(cfg, Run(cfg, s, a), b)
    decreases |b|
  {
    hide Next, Run;
    if b == [] {
      assert a + b == a;
      RunNothing(cfg, Run(cfg, s, a));
    } else {
      var init, r := b[..|b| - 1], b[|b| - 1];
      RunJoin(cfg, s, a, init);
      JoinedPrefix(a, b);
      RunAppend(cfg, s, a + init, r, a + b);
      RunAppend(cfg, Run(cfg, s, a), init, r, b);
    }
  }

  lemma JoinedPrefix(a: seq<Request>, b: seq<Request>)
    requires b != []
    ensures b == b[..|b| - 1] + [b[|b| - 1]]
    ensures a + b == a + b[..|b| - 1] + [b[|b| - 1]]
  {
  }

  lemma RunOne(cfg: Config, s: State, r: Request)
    ensures Run(cfg, s, [r]) == Next(cfg, s, r)
  {
    hide Next;
    RunAppend(cfg, s, [], r, [r]);
  }

  lemma RunTwo(cfg: Config, s: State, r: Request, q: Request)
    ensures Run(cfg, s, [r, q]) == Next(cfg, Next(cfg, s, r), q)
  {
    hide Next;
    RunOne(cfg, s, r);
    RunAppend(cfg, s, [r], q, [r, q]);
  }

  ghost predicate Sound(s: State) {
    Filed(s.store) && Contained(s)
  }

  lemma QuietStep(cfg: Config, s: State, r: Request)
    requires Sound(s) && !r.SubmitCandidate? && !r.DesignatePoison?
    ensures Sound(Next(cfg, s, r))
  {
    hide Contained, Filed, Next;
    StepContainment(cfg, s, r);
  }

  // ---- Three roots, a checkpoint and a compaction ----

  function SeedPayload(x: Id): Payload {
    Bare(x).(digest := "seed")
  }

  function Compaction(n: Id, covers: seq<Id>): Request {
    ContextCompacted(CompactionEvent(covers, n, "digest", LLM_METHOD, ""), true)
  }

  /** A compaction by the language model that carries exactly the listed nodes. */
  predicate Carrying(p: Payload, covers: seq<Id>) {
    && p.covers == covers && p.summarizer == LLM_METHOD
    && Sources(p) == Elements(covers)
    && forall u :: u in covers ==> CarriedFrom(p, u)
  }

  ghost predicate Roots3(s: State, a: Id, p: Id, b: Id) {
    && s.store.dag.Keys == {CLEAN_PARENT, a, p, b}
    && s.store.dag[CLEAN_PARENT] == Bare(CLEAN_PARENT)
    && s.store.dag[a] == SeedPayload(a) && s.store.dag[p] == SeedPayload(p) && s.store.dag[b] == SeedPayload(b)
  }

  ghost predicate Quiet(s: State, key: string) {
    && s.store.ledger == {SEED_QUARANTINED}
    && s.repairs == map[] && s.effects == map[] && s.horizon == map[] && s.substitutes == map[]
    && s.adapterKey == key
  }

  predicate Usable(x: Id) {
    x != "" && x != CLEAN_PARENT && x != SEED_QUARANTINED
  }

  predicate Apart3(a: Id, p: Id, b: Id) {
    a != p && a != b && p != b && Usable(a) && Usable(p) && Usable(b)
  }

  function SeedRun(a: Id, p: Id, b: Id): seq<Request> {
    [SeedRoot(a, ""), SeedRoot(p, ""), SeedRoot(b, "")]
  }

  lemma SeedStep(cfg: Config, s: State, x: Id)
    requires x != "" && x !in s.store.dag
    ensures Next(cfg, s, SeedRoot(x, "")) == s.(store := Commit(s.store, SeedPayload(x)))
  {
  }

  lemma Seeded3(cfg: Config, key: string, a: Id, p: Id, b: Id)
    requires Apart3(a, p, b)
    ensures var s := Run(cfg, Initial(key), SeedRun(a, p, b));
            Sound(s) && Roots3(s, a, p, b) && Quiet(s, key) && s.checkpoints == []
  {
    hide Next, Contained, Filed;
    var s0 := Initial(key);
    InitialStateIsContained(key);
    SeedStep(cfg, s0, a);
    var s1 := Next(cfg, s0, SeedRoot(a, ""));
    SeedStep(cfg, s1, p);
    var s2 := Next(cfg, s1, SeedRoot(p, ""));
    SeedStep(cfg, s2, b);
    var s3 := Next(cfg, s2, SeedRoot(b, ""));
    QuietStep(cfg, s0, SeedRoot(a, ""));
    QuietStep(cfg, s1, SeedRoot(p, ""));
    QuietStep(cfg, s2, SeedRoot(b, ""));
    RunTwo(cfg, s0, SeedRoot(a, ""), SeedRoot(p, ""));
    RunAppend(cfg, s0, [SeedRoot(a, ""), SeedRoot(p, "")], SeedRoot(b, ""), SeedRun(a, p, b));
    assert s3.store.dag.Keys == {CLEAN_PARENT, a, p, b};
  }

  lemma CompactStep(cfg: Config, s: State, n: Id, covers: seq<Id>)
    requires covers != [] && n !in s.store.dag
    requires forall u :: u in covers ==> u in s.store.dag && u !in s.store.ledger
    ensures var t := Next(cfg, s, Compaction(n, covers));
            && t == s.(store := t.store)
            && t.store.ledger == s.store.ledger
            && t.store.dag.Keys == s.store.dag.Keys + {n}
            && (forall x :: x in s.store.dag ==> t.store.dag[x] == s.store.dag[x])
            && Carrying(t.store.dag[n], covers)
  {
    hide Tainted, Sources, Elements, CarriedFrom;
    var ev := CompactionEvent(covers, n, "digest", LLM_METHOD, "");
    var p := CompactionPayload(s.store.dag, ev);
    TaintedMeaning(covers, s.store.ledger);
    Disjoint(covers, s.store.ledger);
    CompactionCarries(s.store.dag, ev);
  }

  lemma Disjoint(ids: seq<Id>, ledger: set<Id>)
    requires forall u :: u in ids ==> u !in ledger
    ensures Elements(ids) !! ledger
  {
  }

  lemma CompactionCarries(dag: Dag, ev: CompactionEvent)
    ensures var p := CompactionPayload(dag, ev);
            && Sources(p) == Elements(ev.nodes)
            && forall u :: u in ev.nodes ==> CarriedFrom(p, u)
  {
    var p := CompactionPayload(dag, ev);
    forall u | u in ev.nodes ensures CarriedFrom(p, u) {
      var i :| 0 <= i < |ev.nodes| && ev.nodes[i] == u;
      assert p.parents[i] in p.parents;
    }
    forall u | u in ParentSet(p) ensures u in ev.nodes {
      var c :| c in p.parents && c.parent == u;
    }
  }

  lemma CheckpointStep(cfg: Config, s: State, cp: Checkpoint)
    requires forall c :: c in s.checkpoints ==> c.id != cp.id
    ensures Next(cfg, s, DeclareCheckpoint(cp)) == s.(checkpoints := s.checkpoints + [cp])
  {
    UpsertNew(s.checkpoints, cp);
  }

  lemma {:induction false} UpsertNew(checkpoints: seq<Checkpoint>, cp: Checkpoint)
    requires forall c :: c in checkpoints ==> c.id != cp.id
    ensures Upserted(checkpoints, cp) == checkpoints + [cp]
  {
    if checkpoints != [] {
      UpsertNew(checkpoints[1..], cp);
      assert checkpoints == [checkpoints[0]] + checkpoints[1..];
    }
  }

  const FIRST: string := "1"

  function SetupRun(a: Id, p: Id, b: Id, k: Id): seq<Request> {
    SeedRun(a, p, b) + [DeclareCheckpoint(Checkpoint(FIRST, p, 0, {})), Compaction(k, [a, p])]
  }

  ghost predicate Setup(s: State, key: string, a: Id, p: Id, b: Id, k: Id) {
    && s.store.dag.Keys == {CLEAN_PARENT, a, p, b, k}
    && s.store.dag[CLEAN_PARENT] == Bare(CLEAN_PARENT)
    && s.store.dag[a] == SeedPayload(a) && s.store.dag[p] == SeedPayload(p) && s.store.dag[b] == SeedPayload(b)
    && Carrying(s.store.dag[k], [a, p])
    && Quiet(s, key) && s.checkpoints == [Checkpoint(FIRST, p, 0, {})]
  }

  predicate Apart4(a: Id, p: Id, b: Id, k: Id) {
    Apart3(a, p, b) && k !in {CLEAN_PARENT, SEED_QUARANTINED, a, p, b}
  }

  lemma SetupReached(cfg: Config, key: string, a: Id, p: Id, b: Id, k: Id)
    requires Apart4(a, p, b, k)
    ensures var s := Run(cfg, Initial(key), SetupRun(a, p, b, k)); Sound(s) && Setup(s, key, a, p, b, k)
  {
    hide Next, Sound, Run, Carrying;
    var cp := Checkpoint(FIRST, p, 0, {});
    var r4, r5 := DeclareCheckpoint(cp), Compaction(k, [a, p]);
    var s3 := Run(cfg, Initial(key), SeedRun(a, p, b));
    Seeded3(cfg, key, a, p, b);
    RunJoin(cfg, Initial(key), SeedRun(a, p, b), [r4, r5]);
    RunTwo(cfg, s3, r4, r5);
    CheckpointStep(cfg, s3, cp);
    QuietStep(cfg, s3, r4);
    var s4 := Next(cfg, s3, r4);
    assert forall u :: u in [a, p] ==> u == a || u == p;
    CompactStep(cfg, s4, k, [a, p]);
    QuietStep(cfg, s4, r5);
  }

  // ---- Designating the first root ----

  /** A node that carries from the root is discovered by the very first scan. */
  lemma DirectlyJudged(st: Store, root: Id, n: Id)
    requires Filed(st) && n in st.dag && n != root && root in Sources(st.dag[n]) && CarriedFrom(st.dag[n], root)
    ensures Judges(st, root, n)
  {
    hide Discover, CarriedAmong, SearchFrom, Sources, CarriedFrom;
    var kids := Discover(st.dag, st.order, root, {root});
    DiscoverFinds(st.dag, st.order, root, {root});
    CarriedAmongFinds(st.dag, kids, root, n);
    SearchUnfolds(st.dag, st.order, {root}, [root]);
    assert n in kids;
  }

  /** A node without sources is below no other node. */
  lemma Sourceless(dag: Dag, x: Id, root: Id)
    requires x != root && (x in dag ==> Sources(dag[x]) == {})
    ensures x !in Blast(dag, root)
  {
    hide EdgesOf, Closure, Sources;
    if x in Blast(dag, root) {
      ClosureHasSource(EdgesOf(dag), root, x);
      var u :| u in Closure(EdgesOf(dag), {root}) && (u, x) in EdgesOf(dag);
      EdgeMeaning(dag, u, x);
    }
  }

  lemma Below(dag: Dag, root: Id, n: Id)
    requires n in dag && root in Sources(dag[n])
    ensures n in Blast(dag, root)
  {
    hide EdgesOf, Closure, Sources;
    EdgeMeaning(dag, root, n);
    ClosureIsClosed(EdgesOf(dag), {root});
    assert root in Closure(EdgesOf(dag), {root});
  }

  lemma SeedIsSourceless(x: Id)
    ensures Sources(SeedPayload(x)) == {} && !IsCarried(SeedPayload(x))
    ensures Sources(Bare(x)) == {} && !IsCarried(Bare(x))
  {
  }

  lemma SetupBlast(s: State, key: string, a: Id, p: Id, b: Id, k: Id)
    requires Setup(s, key, a, p, b, k) && Apart4(a, p, b, k)
    ensures Blast(s.store.dag, a) == {a, k}
  {
    hide EdgesOf, Closure, Carrying, Quiet;
    var dag := s.store.dag;
    SetupSources(s, key, a, p, b, k);
    ClosureIsClosed(EdgesOf(dag), {a});
    Below(dag, a, k);
    Sourceless(dag, CLEAN_PARENT, a);
    Sourceless(dag, p, a);
    Sourceless(dag, b, a);
    BlastIsCommitted(s.store, a);
    assert a in {a};
    forall x | x in Blast(dag, a) ensures x in {a, k} {
      assert x in dag.Keys + {a};
    }
  }

  lemma SetupSources(s: State, key: string, a: Id, p: Id, b: Id, k: Id)
    requires Setup(s, key, a, p, b, k)
    ensures Sources(s.store.dag[CLEAN_PARENT]) == Sources(s.store.dag[a]) == Sources(s.store.dag[p]) == Sources(s.store.dag[b]) == {}
    ensures Sources(s.store.dag[k]) == {a, p}
    ensures CarriedFrom(s.store.dag[k], a) && IsCarried(s.store.dag[k])
    ensures forall n :: n in s.store.dag && IsCarried(s.store.dag[n]) ==> n == k || n !in {CLEAN_PARENT, a, p, b}
  {
    hide Sources, IsCarried, CarriedFrom, Quiet;
    SeedIsSourceless(CLEAN_PARENT);
    SeedIsSourceless(a);
    SeedIsSourceless(p);
    SeedIsSourceless(b);
    assert Elements([a, p]) == {a, p};
    assert a in [a, p];
    CarriedMeansCarries(s.store.dag[k], a);
  }

  lemma CarriedMeansCarries(p: Payload, u: Id)
    requires CarriedFrom(p, u)
    ensures IsCarried(p)
  {
  }

  lemma InactiveTraversals(s: State, root: Id, now: int)
    requires Active(s, now) == {}
    ensures Traversals(s, root, now) == [root]
  {
    hide Closure, EdgesOf, Active;
    NoneActive(SortedIds(Blast(s.store.dag, root)));
  }

  lemma {:induction false} NoneActive(ids: seq<Id>)
    ensures ActiveIn(ids, {}) == []
    decreases |ids|
  {
    if ids != [] { NoneActive(ids[..|ids| - 1]); }
  }

  /** A node that carries from the root, with nothing on the horizon, gets the verdict of the root's traversal. */
  lemma SoleJudge(s: State, root: Id, now: int, n: Id)
    requires Filed(s.store) && Active(s, now) == {} && n in s.store.dag && n != root && n !in s.repairs
    requires root in Sources(s.store.dag[n]) && CarriedFrom(s.store.dag[n], root) && Verdict(s, root, n).Pending?
    ensures PendingAfter(s, root, now, n) && RepairAfter(s, root, now, n) == Verdict(s, root, n)
  {
    hide Traversals, Judges, Verdict, Active, Filed, Sources, CarriedFrom, JudgesOf;
    InactiveTraversals(s, root, now);
    DirectlyJudged(s.store, root, n);
    OneJudge(s.store, root, n);
    assert forall m :: m in [root] ==> m == root;
    assert [root][0] == root;
  }

  lemma OneJudge(st: Store, root: Id, n: Id)
    requires Judges(st, root, n)
    ensures JudgesOf(st, [root], n) == [root]
  {
    hide Judges;
    assert [root][..0] == [];
  }

  /** A pending verdict keeps what the closure leaves of the covers. */
  lemma VerdictFrontier(s: State, root: Id, n: Id)
    requires n in s.store.dag && Verdict(s, root, n).Pending?
    ensures Verdict(s, root, n).frontier == FrontierOf(s.store.dag[n].covers, Blast(s.store.dag, root))
  {
    hide Closure, EdgesOf, FrontierOf, FirstCheckpoint;
  }

  /** Only the compaction becomes pending, on the frontier [p]. */
  lemma SetupPending(s: State, key: string, a: Id, p: Id, b: Id, k: Id, n: Id)
    requires Filed(s.store) && Setup(s, key, a, p, b, k) && Apart4(a, p, b, k)
    ensures PendingAfter(s, a, 0, n) <==> n == k
    ensures n == k ==> RepairAfter(s, a, 0, n) == Pending([p], Checkpoint(FIRST, p, 0, {}))
  {
    hide Closure, EdgesOf, Traversals, Judges, Carrying, IsCarried, CarriedFrom, Sources, Filed;
    assert Active(s, 0) == {};
    InactiveTraversals(s, a, 0);
    SetupSources(s, key, a, p, b, k);
    SetupBlast(s, key, a, p, b, k);
    assert JudgesOf(s.store, [a], n) == if Judges(s.store, a, n) then [a] else [] by {
      JudgesOfAppend(s.store, [], a, n);
      assert [] + [a] == [a];
    }
    if Judges(s.store, a, n) { JudgedCarries(s.store, a, n); }
    if n == k {
      DirectlyJudged(s.store, a, k);
      SetupVerdict(s, key, a, p, b, k);
      assert [a][0] == a;
    }
  }

  lemma SetupVerdict(s: State, key: string, a: Id, p: Id, b: Id, k: Id)
    requires Setup(s, key, a, p, b, k) && Apart4(a, p, b, k)
    ensures Disposition(s, s.store.dag[k], {a, k}) == Pending([p], Checkpoint(FIRST, p, 0, {}))
  {
    hide Sources, CarriedFrom;
    assert [a, p][1..] == [p] && [p][1..] == [];
    assert FrontierOf([p], {a, k}) == [p];
    assert FrontierOf([a, p], {a, k}) == [p];
    assert p in [p];
  }

  lemma MintedShape(token: string, n: Id)
    ensures |ReplayId(token, n)| > 1 && ReplayId(token, n)[0] == 'c' && ReplayId(token, n)[1] == 'o'
    ensures |SubstituteId(token, n)| > 1 && SubstituteId(token, n)[0] == 'c' && SubstituteId(token, n)[1] == 'o'
    ensures |RebuiltId(token, n)| > 1 && RebuiltId(token, n)[0] == 'r'
  {
  }

  lemma ShortIsNotMinted(token: string, x: Id)
    requires |x| <= 1 || (x[0] != 'r' && (x[0] != 'c' || x[1] != 'o'))
    ensures !Minted(token, x)
  {
    forall n ensures x != ReplayId(token, n) && x != SubstituteId(token, n) && x != RebuiltId(token, n) {
      MintedShape(token, n);
    }
  }

  lemma BuiltInIsNotMinted(token: string)
    ensures !Minted(token, CLEAN_PARENT) && !Minted(token, SEED_QUARANTINED)
  {
    assert CLEAN_PARENT[1] == 'l' && SEED_QUARANTINED[0] == 'q';
    ShortIsNotMinted(token, CLEAN_PARENT);
    ShortIsNotMinted(token, SEED_QUARANTINED);
  }

  predicate Short(a: Id, p: Id, b: Id, k: Id) {
    |a| == |p| == |b| == |k| == 1
  }

  /** The state after the first root has been designated: the compaction has been rebuilt on p. */
  ghost predicate Rebuilt(s: State, key: string, cfg: Config, a: Id, p: Id, b: Id, k: Id, r: Id) {
    && s.store.dag.Keys == {CLEAN_PARENT, a, p, b, k, r}
    && s.store.dag[p] == SeedPayload(p) && s.store.dag[b] == SeedPayload(b)
    && s.store.dag[r].compaction && s.store.dag[r].covers == [p] && Sources(s.store.dag[r]) == {p} && !IsCarried(s.store.dag[r])
    && s.store.ledger == {SEED_QUARANTINED, a, k}
    && s.repairs.Keys == {k} && s.effects == map[]
    && s.horizon == map[r := cfg.horizonSeconds]
    && s.checkpoints == [Checkpoint(FIRST, p, 0, {})]
  }

  lemma FirstDesignation(cfg: Config, s: State, key: string, a: Id, p: Id, b: Id, k: Id)
    requires Sound(s) && Setup(s, key, a, p, b, k) && Apart4(a, p, b, k) && Short(a, p, b, k)
    requires !cfg.continuity && cfg.recovery == Inline
    ensures var t := Next(cfg, s, DesignatePoison(a, "t", 0));
            Sound(t) && Rebuilt(t, key, cfg, a, p, b, k, RebuiltId("t", k))
  {
    hide Closure, EdgesOf, Contain, Carrying, IsCarried, CarriedFrom, Sources, Filed, Contained, PendingAfter, RepairAfter, Designate, Reconstruct, Minted;
    SetupBlast(s, key, a, p, b, k);
    SetupFresh(s, key, a, p, b, k, "t");
    FirstIsHarmless(cfg, s, key, a, p, b, k);
    DesignateContainment(cfg, s, a, "t", 0);
    FirstRebuild(cfg, s, key, a, p, b, k);
  }

  lemma SetupFresh(s: State, key: string, a: Id, p: Id, b: Id, k: Id, token: string)
    requires Setup(s, key, a, p, b, k) && Short(a, p, b, k)
    ensures FreshToken(s.store, token)
  {
    hide Minted, Carrying;
    forall x | Minted(token, x) ensures x !in s.store.dag && x !in s.store.ledger {
      BuiltInIsNotMinted(token);
      ShortIsNotMinted(token, a);
      ShortIsNotMinted(token, p);
      ShortIsNotMinted(token, b);
      ShortIsNotMinted(token, k);
    }
  }

  lemma FirstIsHarmless(cfg: Config, s: State, key: string, a: Id, p: Id, b: Id, k: Id)
    requires Filed(s.store) && Setup(s, key, a, p, b, k) && Apart4(a, p, b, k) && !cfg.continuity
    ensures HarmlessDesignation(cfg, s, a, "t", 0)
  {
    hide Closure, EdgesOf, Carrying, PendingAfter, RepairAfter, Rebuilds, Filed, Continue, DependentsOf, Critical;
    SetupBlast(s, key, a, p, b, k);
    forall n ensures RebuiltAfter(cfg, s, a, "t", 0, n) ==>
      PendingAfter(s, a, 0, n) && Elements(RepairAfter(s, a, 0, n).frontier) !! s.store.ledger + {a, k}
    {
      RebuiltIsPending(cfg, s, a, "t", 0, n);
      SetupPending(s, key, a, p, b, k, n);
      OneElement(p);
    }
  }

  lemma FirstRebuild(cfg: Config, s: State, key: string, a: Id, p: Id, b: Id, k: Id)
    requires Filed(s.store) && Setup(s, key, a, p, b, k) && Apart4(a, p, b, k) && Short(a, p, b, k)
    requires !cfg.continuity && cfg.recovery == Inline
    ensures Rebuilt(Designate(cfg, s, a, "t", 0).0, key, cfg, a, p, b, k, RebuiltId("t", k))
  {
    hide Closure, EdgesOf, Contain, Carrying, IsCarried, CarriedFrom, Sources, PendingAfter, RepairAfter, RebuildAll, Rebuild, Rebuilt, Roots, RebuiltId;
    var s1 := Contain(cfg, s, a, 0);
    SetupBlast(s, key, a, p, b, k);
    ContainEffect(cfg, s, a, 0);
    SetupPendingSet(cfg, s, key, a, p, b, k);
    SetupDisposed(cfg, s, key, a, p, b, k);
    OnlyId(k);
    RebuildSingle(cfg, s1, a, k, "t", 0);
    assert Designate(cfg, s, a, "t", 0).0 == Rebuild(cfg, s1.store, s1, a, k, s1.repairs[k], "t", 0);
    RebuildsOnFrontier(cfg, s1, key, a, p, b, k);
  }

  lemma RebuildsOnFrontier(cfg: Config, s: State, key: string, a: Id, p: Id, b: Id, k: Id)
    requires s.store.dag.Keys == {CLEAN_PARENT, a, p, b, k} && s.store.ledger == {SEED_QUARANTINED} + {a, k}
    requires s.store.dag[p] == SeedPayload(p) && s.store.dag[b] == SeedPayload(b)
    requires s.repairs.Keys == {k} && s.repairs[k] == Pending([p], Checkpoint(FIRST, p, 0, {})) && s.effects == map[]
    requires s.horizon == map[] && s.checkpoints == [Checkpoint(FIRST, p, 0, {})]
    requires cfg.recovery == Inline && Short(a, p, b, k)
    ensures Rebuilt(Rebuild(cfg, s.store, s, a, k, s.repairs[k], "t", 0), key, cfg, a, p, b, k, RebuiltId("t", k))
  {
    hide IsCarried, Sources, RebuiltPayload, RebuiltId;
    var r, pending := RebuiltId("t", k), s.repairs[k];
    var q := RebuiltPayload(r, pending, "", "key:" + r);
    LongId(k);
    RebuiltSources(r, pending, "", "key:" + r);
    RebuiltIsUncarried(r, pending, "", "key:" + r);
    RebuiltCovers(r, pending, "", "key:" + r);
    OneElement(p);
    var t := Rebuild(cfg, s.store, s, a, k, pending, "t", 0);
    assert t.store == Commit(s.store, q);
    assert t.store.dag.Keys == s.store.dag.Keys + {r};
  }

  lemma RebuiltCovers(id: Id, r: Repair, summarizer: string, author: string)
    requires r.Pending?
    ensures var p := RebuiltPayload(id, r, summarizer, author); p.id == id && p.compaction && p.covers == r.frontier
  {
  }

  lemma LongId(k: Id)
    ensures |RebuiltId("t", k)| > 1
    ensures RebuiltId("t", k) != CLEAN_PARENT
  {
    assert RebuiltId("t", k)[0] == 'r' && CLEAN_PARENT[0] == 'c';
  }

  lemma OnlyId(k: Id)
    ensures SortedIds({k}) == [k]
  {
    var s := SortedIds({k});
    assert |{k}| == 1;
    assert s[0] in s;
  }

  lemma RebuildSingle(cfg: Config, s: State, root: Id, comp: Id, token: string, now: int)
    requires PendingIn(s.repairs) == {comp}
    ensures Elements([comp]) <= PendingIn(s.repairs) && comp in s.repairs && s.repairs[comp].Pending?
    ensures RebuildAll(cfg, s, s, root, [comp], token, now) == Rebuild(cfg, s.store, s, root, comp, s.repairs[comp], token, now)
  {
    hide Rebuild;
    OneElement(comp);
    PendingMeaning(s.repairs, comp);
    assert [comp][..0] == [];
    assert Elements([comp][..0]) <= PendingIn(s.repairs);
    assert RebuildAll(cfg, s, s, root, [comp][..0], token, now) == s;
  }

  lemma SetupPendingSet(cfg: Config, s: State, key: string, a: Id, p: Id, b: Id, k: Id)
    requires Filed(s.store) && Setup(s, key, a, p, b, k) && Apart4(a, p, b, k)
    ensures var r := Contain(cfg, s, a, 0).repairs;
            PendingIn(r) == {k} && k in r && r[k] == Pending([p], Checkpoint(FIRST, p, 0, {}))
  {
    hide Contain, Filed, Setup, PendingAfter, RepairAfter;
    var r := Contain(cfg, s, a, 0).repairs;
    forall n ensures n in PendingIn(r) <==> n == k {
      ContainPending(cfg, s, a, 0, n);
      SetupPending(s, key, a, p, b, k, n);
    }
    ContainPending(cfg, s, a, 0, k);
    SetupPending(s, key, a, p, b, k, k);
  }

  lemma SetupDisposed(cfg: Config, s: State, key: string, a: Id, p: Id, b: Id, k: Id)
    requires Filed(s.store) && Setup(s, key, a, p, b, k) && Apart4(a, p, b, k)
    ensures Contain(cfg, s, a, 0).repairs.Keys == {k}
  {
    hide Contain, Filed, IsCarried, Carrying, Traversals, JudgesOf, Judges, CarriedFrom, Sources;
    assert Active(s, 0) == {};
    InactiveTraversals(s, a, 0);
    SetupSources(s, key, a, p, b, k);
    var r := Contain(cfg, s, a, 0).repairs;
    forall n ensures n in r <==> n == k {
      DisposedWhenJudged(cfg, s, a, 0, n);
      JudgesOfMembers(s.store, [a], n);
      HasMember(JudgesOf(s.store, [a], n));
      if Judges(s.store, a, n) { JudgedCarries(s.store, a, n); }
      if n == k {
        DirectlyJudged(s.store, a, k);
        assert a in [a];
      }
    }
  }

  // ---- A second compaction over the rebuilt node ----

  const SECOND: string := "2"

  function RebuiltRun(a: Id, p: Id, b: Id, k: Id): seq<Request> {
    SetupRun(a, p, b, k) + [DesignatePoison(a, "t", 0)]
  }

  function TrapRun(a: Id, p: Id, b: Id, k: Id, m: Id): seq<Request> {
    RebuiltRun(a, p, b, k) + [DeclareCheckpoint(Checkpoint(SECOND, b, 0, {})), Compaction(m, [p, RebuiltId("t", k), b])]
  }

  /** The rebuilt node is still on the horizon, and the new compaction carries it beside its own source p. */
  ghost predicate Trap(s: State, cfg: Config, a: Id, p: Id, b: Id, k: Id, r: Id, m: Id) {
    && s.store.dag.Keys == {CLEAN_PARENT, a, p, b, k, r, m}
    && s.store.dag[p] == SeedPayload(p) && s.store.dag[b] == SeedPayload(b)
    && Sources(s.store.dag[r]) == {p}
    && Carrying(s.store.dag[m], [p, r, b])
    && s.store.ledger == {SEED_QUARANTINED, a, k}
    && m !in s.repairs && s.effects == map[]
    && s.horizon == map[r := cfg.horizonSeconds]
    && s.checkpoints == [Checkpoint(FIRST, p, 0, {}), Checkpoint(SECOND, b, 0, {})]
  }

  lemma RebuiltReached(cfg: Config, key: string, a: Id, p: Id, b: Id, k: Id)
    requires Apart4(a, p, b, k) && Short(a, p, b, k) && !cfg.continuity && cfg.recovery == Inline
    ensures var s := Run(cfg, Initial(key), RebuiltRun(a, p, b, k));
            Sound(s) && Rebuilt(s, key, cfg, a, p, b, k, RebuiltId("t", k))
  {
    hide Next, Sound, Run, Setup, Rebuilt, RebuiltId;
    SetupReached(cfg, key, a, p, b, k);
    RunAppend(cfg, Initial(key), SetupRun(a, p, b, k), DesignatePoison(a, "t", 0), RebuiltRun(a, p, b, k));
    FirstDesignation(cfg, Run(cfg, Initial(key), SetupRun(a, p, b, k)), key, a, p, b, k);
  }

  lemma TrapReached(cfg: Config, key: string, a: Id, p: Id, b: Id, k: Id, m: Id)
    requires Apart4(a, p, b, k) && Short(a, p, b, k) && !cfg.continuity && cfg.recovery == Inline
    requires |m| == 1 && m !in {a, p, b, k}
    ensures var s := Run(cfg, Initial(key), TrapRun(a, p, b, k, m));
            Sound(s) && Trap(s, cfg, a, p, b, k, RebuiltId("t", k), m)
  {
    hide Next, Sound, Run, Carrying, RebuiltId, Sources, IsCarried, RebuiltRun;
    var r, cp := RebuiltId("t", k), Checkpoint(SECOND, b, 0, {});
    var r7, r8 := DeclareCheckpoint(cp), Compaction(m, [p, r, b]);
    RebuiltReached(cfg, key, a, p, b, k);
    var s6 := Run(cfg, Initial(key), RebuiltRun(a, p, b, k));
    RunJoin(cfg, Initial(key), RebuiltRun(a, p, b, k), [r7, r8]);
    RunTwo(cfg, s6, r7, r8);
    assert FIRST[0] != SECOND[0];
    CheckpointStep(cfg, s6, cp);
    QuietStep(cfg, s6, r7);
    var s7 := Next(cfg, s6, r7);
    LongId(k);
    RebuiltIsNotSeed(k);
    assert forall u :: u in [p, r, b] <==> u == p || u == r || u == b;
    CompactStep(cfg, s7, m, [p, r, b]);
    QuietStep(cfg, s7, r8);
  }

  lemma RebuiltIsNotSeed(k: Id)
    ensures RebuiltId("t", k) != SEED_QUARANTINED
    ensures |CLEAN_PARENT| > 1 && |SEED_QUARANTINED| > 1
  {
    assert RebuiltId("t", k)[0] == 'r' && SEED_QUARANTINED[0] == 'q';
  }

  lemma {:induction false} SingleActive(ids: seq<Id>, r: Id)
    requires NoDuplicates(ids)
    ensures ActiveIn(ids, {r}) == if r in ids then [r] else []
    decreases |ids|
  {
    if ids != [] {
      var n := |ids| - 1;
      assert ids == ids[..n] + [ids[n]];
      SingleActive(ids[..n], r);
    }
  }

  lemma TrapTraversals(s: State, cfg: Config, a: Id, p: Id, b: Id, k: Id, r: Id, m: Id)
    requires Trap(s, cfg, a, p, b, k, r, m) && cfg.horizonSeconds > 1
    ensures Traversals(s, p, 1) == [p, r] && r in Blast(s.store.dag, p)
  {
    hide Closure, EdgesOf, Sources, Carrying;
    assert Active(s, 1) == {r};
    Below(s.store.dag, p, r);
    SingleActive(SortedIds(Blast(s.store.dag, p)), r);
    assert [p] + [r] == [p, r];
  }

  /** Both traversals find the second compaction pending, and the last one leaves p in its frontier. */
  lemma TrapPending(s: State, cfg: Config, a: Id, p: Id, b: Id, k: Id, r: Id, m: Id)
    requires Filed(s.store) && Trap(s, cfg, a, p, b, k, r, m) && cfg.horizonSeconds > 1
    requires Apart4(a, p, b, k) && r !in {a, p, b, k, m} && m !in {a, p, b, k}
    ensures PendingAfter(s, p, 1, m) && p in RepairAfter(s, p, 1, m).frontier
  {
    hide Closure, EdgesOf, Traversals, Judges, Filed, Verdict, Sources, Carrying, JudgesOf;
    TrapTraversals(s, cfg, a, p, b, k, r, m);
    TrapJudges(s, cfg, a, p, b, k, r, m);
    TrapVerdicts(s, cfg, a, p, b, k, r, m);
    TwoJudges(s.store, p, r, m);
    assert forall x :: x in [p, r] ==> x == p || x == r;
    assert [p, r][1] == r;
  }

  lemma TrapJudges(s: State, cfg: Config, a: Id, p: Id, b: Id, k: Id, r: Id, m: Id)
    requires Filed(s.store) && Trap(s, cfg, a, p, b, k, r, m) && m != p && m != r
    ensures Judges(s.store, p, m) && Judges(s.store, r, m)
  {
    hide Closure, EdgesOf, Judges, Filed, Sources, CarriedFrom;
    assert p in [p, r, b] && r in [p, r, b];
    DirectlyJudged(s.store, p, m);
    DirectlyJudged(s.store, r, m);
  }

  lemma TrapVerdicts(s: State, cfg: Config, a: Id, p: Id, b: Id, k: Id, r: Id, m: Id)
    requires Trap(s, cfg, a, p, b, k, r, m) && Apart4(a, p, b, k) && r !in {p, b}
    ensures m in s.store.dag && Verdict(s, p, m).Pending? && Verdict(s, r, m).Pending? && p in Verdict(s, r, m).frontier
  {
    hide Closure, EdgesOf, Disposition, Sources, CarriedFrom;
    var dag := s.store.dag;
    assert p in [p, r, b] && b in [p, r, b];
    SeedIsSourceless(b);
    SeedIsSourceless(p);
    Sourceless(dag, b, p);
    Sourceless(dag, b, r);
    Sourceless(dag, p, r);
    assert s.checkpoints[1] == Checkpoint(SECOND, b, 0, {});
    DispositionMeaning(s, dag[m], Blast(dag, p));
    DispositionMeaning(s, dag[m], Blast(dag, r));
  }

  lemma TwoJudges(st: Store, p: Id, r: Id, m: Id)
    requires Judges(st, p, m) && Judges(st, r, m)
    ensures JudgesOf(st, [p, r], m) == [p, r]
  {
    hide Judges;
    JudgesOfAppend(st, [], p, m);
    JudgesOfAppend(st, [p], r, m);
    assert [] + [p] == [p] && [p] + [r] == [p, r];
  }

  lemma TrapIsHarmful(s: State, cfg: Config, a: Id, p: Id, b: Id, k: Id, r: Id, m: Id)
    requires Filed(s.store) && Trap(s, cfg, a, p, b, k, r, m) && cfg.horizonSeconds > 1
    requires Apart4(a, p, b, k) && r !in {a, p, b, k, m} && m !in {a, p, b, k}
    requires !cfg.continuity && cfg.recovery == Inline
    ensures !HarmlessDesignation(cfg, s, p, "u", 1)
  {
    hide Closure, EdgesOf, PendingAfter, RepairAfter, Filed, Continue, DependentsOf, Sources, Carrying;
    TrapPending(s, cfg, a, p, b, k, r, m);
    ClosureIsClosed(EdgesOf(s.store.dag), {p});
    assert p in Blast(s.store.dag, p);
    assert p in Elements(RepairAfter(s, p, 1, m).frontier);
    assert RebuiltAfter(cfg, s, p, "u", 1, m);
  }

  lemma TrapFresh(s: State, cfg: Config, a: Id, p: Id, b: Id, k: Id, m: Id)
    requires Trap(s, cfg, a, p, b, k, RebuiltId("t", k), m) && Short(a, p, b, k) && |m| == 1
    ensures FreshToken(s.store, "u")
  {
    hide Minted, Carrying, Sources;
    OtherToken(k);
    forall x | Minted("u", x) ensures x !in s.store.dag && x !in s.store.ledger {
      BuiltInIsNotMinted("u");
      ShortIsNotMinted("u", a);
      ShortIsNotMinted("u", p);
      ShortIsNotMinted("u", b);
      ShortIsNotMinted("u", k);
      ShortIsNotMinted("u", m);
    }
  }

  lemma OtherToken(k: Id)
    ensures !Minted("u", RebuiltId("t", k))
  {
    var r := RebuiltId("t", k);
    forall n ensures r != ReplayId("u", n) && r != SubstituteId("u", n) && r != RebuiltId("u", n) {
      MintedShape("u", n);
      assert r[0] == 'r' && r[14] == 't' && RebuiltId("u", n)[14] == 'u';
    }
  }
}
