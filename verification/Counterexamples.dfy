/** Concrete runs from the initial state on which the gateway loses exact containment; each fails one guard of the exact condition. */
module Counterexamples {
  import opened Ids
  import opened Reach
  import opened Records
  import opened BlastRadius
  import opened Admission
  import opened Gateway
  import opened Containment
  import opened Lineage
  import opened Repairs
  import opened Audit
  import opened Dispositions
  import opened ConcreteRuns
  import opened Judgement
  import opened Selection
  import opened Adapter
  import opened NonInterference
  import opened RemoteRuns

  const AUTH: Auth := Auth(true, 1, "agent:state:reconstruct", "PASSED")
  const CONFIG: Config := Config(100, 10, false, Inline)
  const START: State := Initial("")

  function Plain(p: Payload): Submission {
    Submission(p, true, true, AUTH)
  }

  function Child(id: Id, parent: Id): Payload {
    Bare(id).(parents := [Commitment(parent, "", Material)])
  }

  function Write(p: Payload): Request {
    SubmitCandidate(Plain(p), 0)
  }

  lemma OneParent(p: Payload, parent: Id)
    requires p.parents == [Commitment(parent, "", Material)]
    ensures ParentSet(p) == {parent}
  {
    assert p.parents[0].parent == parent;
  }

  lemma AdmittedIsCommitted(s: State, p: Payload)
    requires FirstMismatch(p.parents, s.store.dag).None? && p.id !in s.store.dag
    ensures var q := WithGap(p, s.store.dag);
            var t := Accept(s, q).0;
            && q.id == p.id && q.covers == p.covers && Sources(q) == Sources(p)
            && t == s.(store := Commit(s.store, q), rejections := Completed(s.rejections, q))
  {
    GapKeepsFields(p, s.store.dag);
    hide WithGap, Completed;
  }

  /** A write below the built-in root passes every check as long as it covers nothing quarantined. */
  lemma AdmittedBelowRoot(p: Payload)
    requires p.parents == [Commitment(CLEAN_PARENT, "", Material)] && p.boundaryFixed && !p.justified && p.id != "none"
    requires p.id != CLEAN_PARENT && p.id != SEED_QUARANTINED
    requires p.compaction ==> SEED_QUARANTINED !in p.covers
    ensures var q := WithGap(p, START.store.dag);
            && Next(CONFIG, START, Write(p)) == START.(store := Commit(START.store, q), rejections := Completed([], q))
            && q.id == p.id && q.covers == p.covers && Sources(q) == Sources(p)
    ensures Considered(START, Plain(p)) && Evaluate(p, START.store, AUTH, 0) == Admit && FirstMismatch(p.parents, START.store.dag).None?
  {
    hide Submit, Accept, Reject, Evaluate, WithGap, Completed, Sources, Commit, Tainted;
    assert |CLEAN_PARENT| != |SEED_QUARANTINED|;
    OneParent(p, CLEAN_PARENT);
    DecisionMeaning(p, START.store, AUTH, 0);
    TaintedMeaning(p.covers, START.store.ledger);
    assert [Commitment(CLEAN_PARENT, "", Material)][1..] == [];
    SubmitBranches(CONFIG, START, Plain(p), 0);
    AdmittedIsCommitted(START, p);
  }

  /** The covers check is guarded by the node type: a plain write may cover a quarantined node and is admitted. */
  lemma StandardCoversEscape()
    ensures var t := Run(CONFIG, START, [Write(Child("x", CLEAN_PARENT).(covers := [SEED_QUARANTINED]))]);
            "x" in t.store.dag && !Contained(t)
  {
    hide Next, Contained, Evaluate, Closure, EdgesOf, WithGap, Completed;
    var p := Child("x", CLEAN_PARENT).(covers := [SEED_QUARANTINED]);
    assert |"x"| != |CLEAN_PARENT| && |"x"| != |SEED_QUARANTINED| && |CLEAN_PARENT| != |SEED_QUARANTINED| && |"x"| != |"none"|;
    AdmittedBelowRoot(p);
    InitialStateIsContained("");
    assert p.covers[0] == SEED_QUARANTINED;
    RunOne(CONFIG, START, Write(p));
    StepContainment(CONFIG, START, Write(p));
  }

  function Dangling(): Payload {
    Child("k", CLEAN_PARENT).(compaction := true, covers := ["g"])
  }

  lemma SingleIds()
    ensures CLEAN_PARENT != SEED_QUARANTINED && "k" != CLEAN_PARENT && "k" != SEED_QUARANTINED && "k" != "none" && SEED_QUARANTINED !in ["g"]
  {
    assert |"k"| != |CLEAN_PARENT| && |"k"| != |SEED_QUARANTINED| && |CLEAN_PARENT| != |SEED_QUARANTINED|;
    assert |"g"| != |SEED_QUARANTINED| && |"k"| != |"none"|;
  }

  lemma GrownByOne(st: Store, q: Payload)
    requires q.id !in st.dag
    ensures var t := Commit(st, q); t.dag.Keys == st.dag.Keys + {q.id} && t.dag[q.id] == q && t.ledger == st.ledger
  {
  }

  /** One compaction covers an id that nobody has committed yet. */
  lemma DanglingReached()
    ensures var s := Run(CONFIG, START, [Write(Dangling())]);
            && Sound(s) && s.store.dag.Keys == {CLEAN_PARENT, "k"} && s.store.dag["k"].covers == ["g"]
            && s.store.ledger == {SEED_QUARANTINED}
  {
    hide Next, Contained, Evaluate, WithGap, Completed, Filed, Sources, Commit, Run, Considered, Harmless;
    var p := Dangling();
    SingleIds();
    AdmittedBelowRoot(p);
    InitialStateIsContained("");
    GrownByOne(START.store, WithGap(p, START.store.dag));
    RunOne(CONFIG, START, Write(p));
    PlainAdmissionIsHarmless(p);
    StepContainment(CONFIG, START, Write(p));
  }

  /** An admitted write that does not cover the quarantined root never breaks containment of the start state. */
  lemma PlainAdmissionIsHarmless(p: Payload)
    requires Considered(START, Plain(p)) && Evaluate(p, START.store, AUTH, 0) == Admit
    requires FirstMismatch(p.parents, START.store.dag).None?
    requires SEED_QUARANTINED !in p.covers
    ensures forall cfg :: Harmless(cfg, START, Write(p))
  {
    hide Considered, Evaluate, FirstMismatch;
  }

  /** Rejecting the covered id later quarantines that id only; the compaction above it stays out of the ledger. */
  lemma DanglingCoverEscapes()
    ensures !Contained(Run(CONFIG, START, [Write(Dangling()), Write(Child("g", SEED_QUARANTINED))]))
  {
    hide Next, Contained, Evaluate, Closure, Filed, Run;
    var p := Child("g", SEED_QUARANTINED);
    var s := Run(CONFIG, START, [Write(Dangling())]);
    assert |"g"| != |CLEAN_PARENT| && |"g"| != |SEED_QUARANTINED| && |"k"| != |SEED_QUARANTINED|;
    assert "g"[0] != "k"[0];
    DanglingReached();
    OneParent(p, SEED_QUARANTINED);
    DecisionMeaning(p, s.store, AUTH, 0);
    assert s.store.dag["k"].covers[0] == "g";
    EdgeMeaning(s.store.dag, "g", "k");
    assert ("g", "k").1 == "k" && "k" in Children(EdgesOf(s.store.dag), "g");
    assert !RejectHarmless(s.store, p);
    assert SEED_QUARANTINED in ParentSet(p) * s.store.ledger;
    assert Considered(s, Plain(p));
    RunAppend(CONFIG, START, [Write(Dangling())], Write(p), [Write(Dangling()), Write(p)]);
    StepContainment(CONFIG, s, Write(p));
  }

  /** Reusing a committed id for a write with a tainted parent quarantines a node that derives from nothing tainted. */
  lemma ReusedIdIsOverContained()
    ensures !Contained(Run(CONFIG, START, [Write(Child(CLEAN_PARENT, SEED_QUARANTINED))]))
  {
    hide Next, Contained, Evaluate, Closure;
    var p := Child(CLEAN_PARENT, SEED_QUARANTINED);
    assert |CLEAN_PARENT| != |SEED_QUARANTINED|;
    OneParent(p, SEED_QUARANTINED);
    InitialStateIsContained("");
    DecisionMeaning(p, START.store, AUTH, 0);
    assert SEED_QUARANTINED in ParentSet(p) * START.store.ledger;
    assert Considered(START, Plain(p)) && !RejectHarmless(START.store, p);
    RunOne(CONFIG, START, Write(p));
    StepContainment(CONFIG, START, Write(p));
  }

  // ---- Continuity hangs a replay on a quarantined built-in root ----

  const CONTINUOUS: Config := CONFIG.(continuity := true)

  function CriticalNode(): Payload {
    Child("n", CLEAN_PARENT).(criticality := 0.5)
  }

  function CriticalRun(): seq<Request> {
    [Write(CriticalNode()), DeclareCheckpoint(Checkpoint("c", CLEAN_PARENT, 0, {"r"}))]
  }

  lemma CriticalReached()
    ensures var s := Run(CONTINUOUS, START, CriticalRun());
            && Sound(s) && FreshToken(s.store, "t")
            && s.store == Store(map[CLEAN_PARENT := Bare(CLEAN_PARENT), "n" := CriticalNode()], [CLEAN_PARENT, "n"], {SEED_QUARANTINED})
            && s.checkpoints == [Checkpoint("c", CLEAN_PARENT, 0, {"r"})]
  {
    hide Next, Contained, Evaluate, Closure, EdgesOf, Completed, Filed, Sources, Minted;
    var p, cp := CriticalNode(), Checkpoint("c", CLEAN_PARENT, 0, {"r"});
    assert |"n"| != |CLEAN_PARENT| && |"n"| != |SEED_QUARANTINED| && |"n"| != |"none"|;
    AdmittedBelowRoot(p);
    SameSubmission(p);
    InitialStateIsContained("");
    var s1 := Next(CONTINUOUS, START, Write(p));
    RunTwo(CONTINUOUS, START, Write(p), DeclareCheckpoint(cp));
    CheckpointStep(CONTINUOUS, s1, cp);
    StepContainment(CONTINUOUS, START, Write(p));
    QuietStep(CONTINUOUS, s1, DeclareCheckpoint(cp));
    forall x | Minted("t", x) ensures x !in s1.store.dag && x !in s1.store.ledger {
      BuiltInIsNotMinted("t");
      ShortIsNotMinted("t", "n");
    }
  }

  lemma SameSubmission(p: Payload)
    requires Next(CONFIG, START, Write(p)) == START.(store := Commit(START.store, WithGap(p, START.store.dag)),
                                                     rejections := Completed([], WithGap(p, START.store.dag)))
    requires Considered(START, Plain(p)) && Evaluate(p, START.store, AUTH, 0) == Admit
    ensures Next(CONTINUOUS, START, Write(p)) == Next(CONFIG, START, Write(p))
  {
    hide Submit, Accept, Reject, Evaluate, WithGap, Completed, Considered;
    SubmitBranches(CONFIG, START, Plain(p), 0);
    SubmitBranches(CONTINUOUS, START, Plain(p), 0);
  }

  lemma OnlyCritical(dag: Dag, c: set<Id>)
    requires CLEAN_PARENT in c && dag == map[CLEAN_PARENT := Bare(CLEAN_PARENT), "n" := CriticalNode()]
    ensures Critical(dag, [CLEAN_PARENT, "n"], c) == [Dependent("n", 0.5, {CLEAN_PARENT})]
  {
    assert |"n"| != |CLEAN_PARENT|;
    OneParent(dag["n"], CLEAN_PARENT);
    assert [CLEAN_PARENT, "n"][1..] == ["n"] && ["n"][1..] == [];
    assert ParentSet(dag["n"]) * c == {CLEAN_PARENT};
    assert Critical(dag, [], c) == [];
    assert Critical(dag, ["n"], c) == [Dependent("n", 0.5, {CLEAN_PARENT})];
  }

  lemma CriticalIds()
    ensures "n" != CLEAN_PARENT && CLEAN_PARENT != SEED_QUARANTINED && "r" !in {SEED_QUARANTINED, CLEAN_PARENT, "n"}
  {
    assert |"n"| != |CLEAN_PARENT| && |CLEAN_PARENT| != |SEED_QUARANTINED|;
    assert |"r"| != |CLEAN_PARENT| && |"r"| != |SEED_QUARANTINED| && "r"[0] != "n"[0];
  }

  /** Designating the built-in root in the critical state hangs a replay on that root. */
  lemma CriticalIsHarmful(s: State)
    requires Filed(s.store)
    requires s.store == Store(map[CLEAN_PARENT := Bare(CLEAN_PARENT), "n" := CriticalNode()], [CLEAN_PARENT, "n"], {SEED_QUARANTINED})
    requires s.checkpoints == [Checkpoint("c", CLEAN_PARENT, 0, {"r"})]
    ensures !HarmlessDesignation(CONTINUOUS, s, CLEAN_PARENT, "t", 1)
  {
    hide Closure, EdgesOf, Critical, EmissionHarmless, Filed, RebuiltAfter;
    var c := Blast(s.store.dag, CLEAN_PARENT);
    ClosureIsClosed(EdgesOf(s.store.dag), {CLEAN_PARENT});
    assert CLEAN_PARENT in c;
    BlastIsCommitted(s.store, CLEAN_PARENT);
    OnlyCritical(s.store.dag, c);
    var d := Dependent("n", 0.5, {CLEAN_PARENT});
    assert d in [d];
    CriticalIds();
    assert "r" !in s.store.ledger + c;
    ReplayFalls(After(s, c), d);
    assert !ContinuityHarmless(After(s, c), DependentsOf(s, CLEAN_PARENT), "t", 1);
  }

  /** The only parent of the critical node is gone, so its replay hangs on the designated root itself. */
  lemma ReplayOnQuarantinedRootEscapes()
    ensures !Contained(Run(CONTINUOUS, START, CriticalRun() + [DesignatePoison(CLEAN_PARENT, "t", 1)]))
  {
    hide Next, Run, Contained, FreshToken, Filed, HarmlessDesignation;
    var s := Run(CONTINUOUS, START, CriticalRun());
    var r := DesignatePoison(CLEAN_PARENT, "t", 1);
    CriticalReached();
    RunAppend(CONTINUOUS, START, CriticalRun(), r, CriticalRun() + [r]);
    CriticalIds();
    CriticalIsHarmful(s);
    StepContainment(CONTINUOUS, s, r);
  }

  lemma ReplayFalls(s1: State, d: Dependent)
    requires d == Dependent("n", 0.5, {CLEAN_PARENT}) && CLEAN_PARENT in s1.store.ledger
    requires "n" in s1.store.dag && s1.store.dag["n"].parents == [Commitment(CLEAN_PARENT, "", Material)]
    requires s1.checkpoints == [Checkpoint("c", CLEAN_PARENT, 0, {"r"})] && "r" !in s1.store.ledger
    ensures !EmissionHarmless(s1, d, "t", 1)
  {
    assert CLEAN_PARENT in Relevant(s1.store, d);
    assert ParentList(s1.store.dag["n"]) == [CLEAN_PARENT];
    assert [CLEAN_PARENT][1..] == [];
    assert FallsBack(s1.store, d);
  }

  // ---- A recurrence inside the closure replaces a clean frontier by a tainted one ----

  /** Distinct one-letter ids, none of them built in. */
  lemma Letters()
    ensures Apart4("a", "p", "b", "k") && Short("a", "p", "b", "k") && |"m"| == 1 && "m" !in {"a", "p", "b", "k"}
  {
    assert "a"[0] != "p"[0] && "a"[0] != "b"[0] && "p"[0] != "b"[0] && "k"[0] != "a"[0] && "k"[0] != "p"[0] && "k"[0] != "b"[0];
    assert "m"[0] != "a"[0] && "m"[0] != "p"[0] && "m"[0] != "b"[0] && "m"[0] != "k"[0];
    assert |CLEAN_PARENT| > 1 && |SEED_QUARANTINED| > 1 && |""| == 0;
  }

  /**
   * A node is rebuilt on p and still on the horizon when a second compaction carries both. Designating p then judges
   * that compaction twice, last from the active node, which leaves p in the frontier it is rebuilt on.
   */
  lemma HorizonEscapes()
    ensures !Contained(Run(CONFIG, START, TrapRun("a", "p", "b", "k", "m") + [DesignatePoison("p", "u", 1)]))
  {
    hide Next, Run, Contained, Filed, FreshToken, HarmlessDesignation, Trap, Apart4, Short, RebuiltId, TrapRun;
    var rs, r := TrapRun("a", "p", "b", "k", "m"), DesignatePoison("p", "u", 1);
    var s := Run(CONFIG, START, rs);
    Letters();
    TrapReached(CONFIG, "", "a", "p", "b", "k", "m");
    LongId("k");
    TrapIsHarmful(s, CONFIG, "a", "p", "b", "k", RebuiltId("t", "k"), "m");
    TrapFresh(s, CONFIG, "a", "p", "b", "k", "m");
    RunAppend(CONFIG, START, rs, r, rs + [r]);
    StepContainment(CONFIG, s, r);
  }

  /** A rebuilt compaction whose cover is designated later is quarantined and never gets a disposition. */
  lemma RebuiltIsNeverDisposed()
    ensures var t := Run(CONFIG, START, RebuiltRun("a", "p", "b", "k") + [DesignatePoison("p", "u", 11)]);
            var r := RebuiltId("t", "k");
            && r in t.store.dag && t.store.dag[r].compaction
            && t.store.dag[r].covers == ["p"] && "p" in t.store.ledger && r in t.store.ledger
            && r !in t.repairs
  {
    hide Next, Run, Contained, Filed, RebuiltId, RebuiltRun, IsCarried, Sources, Closure, EdgesOf, Apart4, Short;
    var rs, q := RebuiltRun("a", "p", "b", "k"), DesignatePoison("p", "u", 11);
    var s := Run(CONFIG, START, rs);
    var r := RebuiltId("t", "k");
    Letters();
    RebuiltReached(CONFIG, "", "a", "p", "b", "k");
    RunAppend(CONFIG, START, rs, q, rs + [q]);
    PNotTainted();
    DesignationLedger(CONFIG, s, "p", "u", 11);
    StepExtends(CONFIG, s, q);
    Below(s.store.dag, "p", r);
    ClosureIsClosed(EdgesOf(s.store.dag), {"p"});
    assert "p" in Blast(s.store.dag, "p");
    RunsDisposeCarrying(CONFIG, "", rs + [q]);
  }

  lemma PNotTainted()
    ensures "p" !in {SEED_QUARANTINED, "a", "k"}
  {
    assert "p"[0] != "a"[0] && "p"[0] != "k"[0] && |"p"| != |SEED_QUARANTINED|;
  }

  lemma DesignationNext(cfg: Config, s: State, root: Id, token: string, now: int)
    ensures Next(cfg, s, DesignatePoison(root, token, now)) == Designate(cfg, s, root, token, now).0
  {
    hide Designate;
  }

  lemma DesignationLedger(cfg: Config, s: State, root: Id, token: string, now: int)
    requires root in s.store.dag && root !in s.store.ledger
    ensures Next(cfg, s, DesignatePoison(root, token, now)).store.ledger == s.store.ledger + Blast(s.store.dag, root)
  {
    hide *;
    DesignationNext(cfg, s, root, token, now);
    DesignationRecordTruth(cfg, s, root, token, now);
  }

  // ---- Continuity replaces the remote adapter's key ----

  const REMOTE: Config := Config(100, 10, true, Remote("adapter"))

  /** A critical write below the root a, which a seed digest identifies. */
  function Dependant(): Payload {
    Child("n", "a").(parents := [Commitment("a", "seed", Material)], criticality := 0.5)
  }

  const REPLAY: Checkpoint := Checkpoint("2", "a", 0, {"p"})

  function WiredRun(): seq<Request> {
    SetupRun("a", "p", "b", "k") + [Write(Dependant()), DeclareCheckpoint(REPLAY)]
  }

  /** The graph before the designation: k carries a and p, and n hangs below a with a checkpoint to replay from. */
  ghost predicate Wired(s: State) {
    && Filed(s.store)
    && s.store.dag.Keys == {CLEAN_PARENT, "a", "p", "b", "k", "n"}
    && s.store.dag["p"] == SeedPayload("p") && Carrying(s.store.dag["k"], ["a", "p"]) && s.store.dag["n"] == Dependant()
    && s.store.ledger == {SEED_QUARANTINED}
    && s.repairs == map[] && s.effects == map[] && s.horizon == map[]
    && s.checkpoints == [Checkpoint(FIRST, "p", 0, {}), REPLAY] && s.adapterKey == "adapter"
  }

  lemma WiredIds()
    ensures "n" !in {CLEAN_PARENT, SEED_QUARANTINED, "none", "a", "p", "b", "k"} && "a" != SEED_QUARANTINED && "p" != SEED_QUARANTINED
    ensures FIRST != "2" && "p" != "a" && "k" != "a"
  {
    Letters();
    assert |"n"| != |CLEAN_PARENT| && |"n"| != |SEED_QUARANTINED| && |"n"| != |"none"| && |"a"| != |SEED_QUARANTINED|;
    assert "n"[0] != "a"[0] && "n"[0] != "p"[0] && "n"[0] != "b"[0] && "n"[0] != "k"[0] && FIRST[0] != "2"[0];
  }

  /** A plain write below a clean node whose digest it states is stored as it is. */
  lemma PlainWrite(cfg: Config, s: State, p: Payload, parent: Id)
    requires p.parents == [Commitment(parent, "seed", Material)] && !p.compaction && p.boundaryFixed && !p.justified && p.id != "none"
    requires parent in s.store.dag && parent !in s.store.ledger && s.store.dag[parent].digest == "seed"
    requires p.id !in s.store.dag && p.id !in s.store.ledger
    ensures Next(cfg, s, Write(p)) == s.(store := Commit(s.store, p), rejections := Completed(s.rejections, p))
  {
    hide Submit, Accept, Reject, Evaluate, Completed, Sources, Commit, Tainted;
    assert p.parents[0].parent == parent;
    assert ParentSet(p) == {parent};
    DecisionMeaning(p, s.store, AUTH, 0);
    assert [Commitment(parent, "seed", Material)][1..] == [];
    SubmitBranches(cfg, s, Plain(p), 0);
    AdmittedIsCommitted(s, p);
  }

  lemma WiredReached()
    ensures Wired(Run(REMOTE, Initial("adapter"), WiredRun()))
  {
    hide Next, Run, Contained, Filed, Carrying, Completed, SetupRun;
    var s5 := Run(REMOTE, Initial("adapter"), SetupRun("a", "p", "b", "k"));
    var r6, r7 := Write(Dependant()), DeclareCheckpoint(REPLAY);
    Letters();
    WiredIds();
    SetupReached(REMOTE, "adapter", "a", "p", "b", "k");
    RunJoin(REMOTE, Initial("adapter"), SetupRun("a", "p", "b", "k"), [r6, r7]);
    RunTwo(REMOTE, s5, r6, r7);
    PlainWrite(REMOTE, s5, Dependant(), "a");
    CommitFiled(s5.store, Dependant());
    CheckpointStep(REMOTE, Next(REMOTE, s5, r6), REPLAY);
  }

  lemma WiredBlast(s: State)
    requires Wired(s)
    ensures var c := Blast(s.store.dag, "a"); "a" in c && "k" in c && "n" in c && "p" !in c
  {
    hide Closure, EdgesOf, Sources, Filed;
    WiredIds();
    assert "a" in ["a", "p"];
    Below(s.store.dag, "a", "k");
    assert s.store.dag["n"].parents[0].parent == "a";
    DependantSource();
    Below(s.store.dag, "a", "n");
    SeedIsSourceless("p");
    Sourceless(s.store.dag, "p", "a");
    ClosureIsClosed(EdgesOf(s.store.dag), {"a"});
    assert "a" in {"a"};
  }

  lemma DependantSource()
    ensures "a" in ParentSet(Dependant()) && Sources(Dependant()) == {"a"}
  {
    assert Dependant().parents[0].parent == "a";
    assert ParentSet(Dependant()) == {"a"};
  }

  /** Continuity replays the checkpoint on the root for the critical node. */
  lemma WiredEmits(s: State)
    requires Wired(s)
    ensures EmitsAny(REMOTE, s, "a", "t", 1)
  {
    hide Closure, EdgesOf, Critical, Replayable, ParentSet, Carrying;
    var c := Blast(s.store.dag, "a");
    WiredBlast(s);
    WiredIds();
    DependantSource();
    CriticalFinds(s.store.dag, s.store.order, c, "n");
    var d :| d in DependentsOf(s, "a") && d.node == "n";
    var t := After(s, c);
    assert "a" in ParentSet(s.store.dag["n"]) * c;
    assert "a" in Relevant(t.store, d);
    var i := ReplayableFinds(t.checkpoints, Relevant(t.store, d), t.store.ledger, 1);
    assert t.checkpoints[1] == REPLAY;
    assert CanReplay(REPLAY, Relevant(t.store, d), t.store.ledger, 1);
    assert Emit(t, d, "t", 1).Some?;
  }

  /** Reconstruction finds the compaction pending on p, the frontier the adapter derives as well. */
  lemma WiredPending(s: State)
    requires Wired(s)
    ensures AdapterWouldRebuild(s, "a", 1)
  {
    hide Closure, EdgesOf, Wired, Carrying, ParentEdges, Answers, FrontierOf, PendingAfter, RepairAfter;
    WiredBlast(s);
    WiredIds();
    WiredVerdict(s);
    ParentClosureIsInside(s.store.dag, "a");
    ClosureIsClosed(ParentEdges(s.store.dag), {"a"});
    assert "a" in {"a"};
    OnlyP(ParentClosure(s.store.dag, "a"));
    SameFrontier(s.store, RepairAfter(s, "a", 1, "k"));
  }

  lemma WiredVerdict(s: State)
    requires Wired(s)
    ensures PendingAfter(s, "a", 1, "k") && RepairAfter(s, "a", 1, "k").frontier == ["p"]
    ensures "k" in s.store.dag && s.store.dag["k"].covers == ["a", "p"]
  {
    hide Closure, EdgesOf, Disposition, Sources, CarriedFrom, Active, Filed, FrontierOf, PendingAfter, RepairAfter;
    WiredBlast(s);
    WiredIds();
    NoneOnHorizon(s, 1);
    assert "a" in ["a", "p"] && "p" in ["a", "p"];
    assert s.checkpoints[0] == Checkpoint(FIRST, "p", 0, {});
    DispositionMeaning(s, s.store.dag["k"], Blast(s.store.dag, "a"));
    SoleJudge(s, "a", 1, "k");
    VerdictFrontier(s, "a", "k");
    OnlyP(Blast(s.store.dag, "a"));
  }

  lemma SameFrontier(st: Store, r: Repair)
    requires "k" in st.dag && st.dag["k"].covers == ["a", "p"] && r.Pending? && r.frontier == ["p"]
    requires FrontierOf(["a", "p"], ParentClosure(st.dag, "a")) == ["p"]
    ensures Answers(st, "a", "k", r)
  {
    hide Closure, ParentEdges, FrontierOf;
  }

  lemma NoneOnHorizon(s: State, now: int)
    requires s.horizon == map[]
    ensures Active(s, now) == {}
  {
  }

  lemma OnlyP(c: set<Id>)
    requires "a" in c && "p" !in c
    ensures FrontierOf(["a", "p"], c) == ["p"]
  {
    assert ["a", "p"][1..] == ["p"] && ["p"][1..] == [];
    assert FrontierOf([], c) == [] && FrontierOf(["p"], c) == ["p"];
  }

  /**
   * One designation in remote mode emits a replay and then asks the adapter with the replay's key: the compaction that
   * is rebuilt without continuity is given up with it.
   */
  lemma LostKeyDiverges()
    ensures var rs := WiredRun() + [DesignatePoison("a", "t", 1)];
            && OrdinaryRun(rs)
            && !Matches(Run(REMOTE, Initial("adapter"), rs), Run(REMOTE.(continuity := false), Initial("adapter"), rs))
  {
    hide Run, Wired, WiredRun, Disturbs, OrdinaryRun, Matches;
    var rs, r := WiredRun() + [DesignatePoison("a", "t", 1)], DesignatePoison("a", "t", 1);
    var s := Run(REMOTE, Initial("adapter"), WiredRun());
    WiredReached();
    WiredDisturbs(s);
    WiredIsOrdinary();
    assert rs[..|WiredRun()|] == WiredRun() && rs[|WiredRun()|] == r;
    assert "adapter"[0] == 'a' && "key:"[0] == 'k';
    ContinuityDoesNotInterfere(REMOTE, "adapter", rs);
    assert !Undisturbed(REMOTE, "adapter", rs);
  }

  lemma WiredDisturbs(s: State)
    requires Wired(s)
    ensures Disturbs(REMOTE, "adapter", s, DesignatePoison("a", "t", 1))
  {
    hide EmitsAny, AdapterWouldRebuild, Carrying, Filed;
    WiredIds();
    WiredEmits(s);
    WiredPending(s);
  }

  lemma ShortIsOrdinary(x: Id)
    requires |x| == 1
    ensures Ordinary(x)
  {
  }

  lemma OrdinaryPieces(a: seq<Request>, b: seq<Request>)
    requires forall r :: r in a + b ==> OrdinaryRequest(r)
    ensures OrdinaryRun(a + b)
  {
    hide OrdinaryRequest;
  }

  lemma CompactionIsOrdinary(n: Id, covers: seq<Id>)
    requires Ordinary(n) && forall u :: u in covers ==> Ordinary(u)
    ensures OrdinaryRequest(ConcreteRuns.Compaction(n, covers))
  {
    hide Ordinary;
  }

  lemma WriteIsOrdinary(p: Payload, parent: Id)
    requires Ordinary(p.id) && Sources(p) == {parent} && Ordinary(parent)
    ensures OrdinaryRequest(Write(p))
  {
    hide Ordinary, Sources;
  }

  lemma WiredIsOrdinary()
    ensures OrdinaryRun(WiredRun() + [DesignatePoison("a", "t", 1)])
  {
    hide Ordinary, OrdinaryRequest;
    ShortIsOrdinary("a");
    ShortIsOrdinary("p");
    ShortIsOrdinary("b");
    ShortIsOrdinary("k");
    ShortIsOrdinary("n");
    CompactionIsOrdinary("k", ["a", "p"]);
    DependantSource();
    WriteIsOrdinary(Dependant(), "a");
    OtherOrdinary();
    OrdinaryPieces(WiredRun(), [DesignatePoison("a", "t", 1)]);
  }

  lemma OtherOrdinary()
    requires Ordinary("a") && Ordinary("p") && Ordinary("b")
    ensures OrdinaryRequest(SeedRoot("a", "")) && OrdinaryRequest(SeedRoot("p", "")) && OrdinaryRequest(SeedRoot("b", ""))
    ensures OrdinaryRequest(DesignatePoison("a", "t", 1))
    ensures OrdinaryRequest(DeclareCheckpoint(Checkpoint(FIRST, "p", 0, {}))) && OrdinaryRequest(DeclareCheckpoint(REPLAY))
  {
    hide Ordinary;
  }
}
