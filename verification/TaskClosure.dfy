/** Which tasks keep the ledger closed, however they are scheduled. */
module TaskClosure {
  import opened Ids
  import opened Reach
  import opened Records
  import opened BlastRadius
  import opened Admission
  import opened Selection
  import opened Gateway
  import opened Containment
  import opened Lineage
  import opened Interleaving

  // ---- What the tasks of a world can do to the store ----

  function Action(job: Job): Atomic {
    match job
    case SubmitJob(sub, now) => Submitted(sub, now)
    case DetectJob(root) => Marked(root)
    case CommitJob(p) => Committed(p)
    case SeedJob(root, key) => Seeded(root, key)
  }

  predicate IsActionOf(tasks: seq<Worker>, a: Atomic) {
    exists i :: 0 <= i < |tasks| && Action(tasks[i].job) == a
  }

  /** Every logged action is the action of some task. */
  predicate LogOf(tasks: seq<Worker>, log: seq<Atomic>) {
    forall a :: a in log ==> IsActionOf(tasks, a)
  }

  predicate SameJobs(a: seq<Worker>, b: seq<Worker>) {
    |a| == |b| && forall i :: 0 <= i < |a| ==> a[i].job == b[i].job
  }

  lemma AdvanceLog(w: World, i: nat)
    ensures SameJobs(Advance(w, i).tasks, w.tasks)
    ensures Advance(w, i).log == w.log || (i < |w.tasks| && Advance(w, i).log == w.log + [Action(w.tasks[i].job)])
  {
    hide SubmitStep, DetectStep, CommitStep, SeedStep;
    if i < |w.tasks| {
      match w.tasks[i].job {
        case SubmitJob(_, _) => SubmitLog(w, i);
        case DetectJob(_) => DetectLog(w, i);
        case CommitJob(_) => OtherLog(w, i);
        case SeedJob(_, _) => OtherLog(w, i);
      }
    }
  }

  lemma SubmitLog(w: World, i: nat)
    requires i < |w.tasks| && w.tasks[i].job.SubmitJob?
    ensures var t := SubmitStep(w, i);
            SameJobs(t.tasks, w.tasks) && (t.log == w.log || t.log == w.log + [Action(w.tasks[i].job)])
  {
    hide Decide, ReadMaps, WithGap, Commit, Quarantine;
  }

  lemma DetectLog(w: World, i: nat)
    requires i < |w.tasks| && w.tasks[i].job.DetectJob?
    ensures var t := DetectStep(w, i);
            SameJobs(t.tasks, w.tasks) && (t.log == w.log || t.log == w.log + [Action(w.tasks[i].job)])
  {
    hide Closure, EdgesOf, Quarantine;
  }

  lemma OtherLog(w: World, i: nat)
    requires i < |w.tasks|
    ensures w.tasks[i].job.CommitJob? ==>
      var t := CommitStep(w, i); SameJobs(t.tasks, w.tasks) && (t.log == w.log || t.log == w.log + [Action(w.tasks[i].job)])
    ensures w.tasks[i].job.SeedJob? ==>
      var t := SeedStep(w, i); SameJobs(t.tasks, w.tasks) && (t.log == w.log || t.log == w.log + [Action(w.tasks[i].job)])
  {
    hide Commit;
  }

  lemma {:induction false} ScheduleLog(w: World, order: seq<nat>)
    requires w.log == []
    ensures SameJobs(Schedule(w, order).tasks, w.tasks)
    ensures LogOf(w.tasks, Schedule(w, order).log)
    decreases |order|
  {
    hide Advance, Action;
    if order != [] {
      ScheduleLog(w, order[..|order| - 1]);
      var w1, i := Schedule(w, order[..|order| - 1]), order[|order| - 1];
      AdvanceLog(w1, i);
      if i < |w.tasks| {
        assert w1.tasks[i].job == w.tasks[i].job;
        assert IsActionOf(w.tasks, Action(w.tasks[i].job));
      }
    }
  }

  // ---- An id stands for one set of parents ----

  function Stores(a: Atomic): Option<Payload> {
    match a
    case Submitted(sub, _) => Some(sub.payload)
    case Marked(_) => None
    case Committed(p) => Some(p)
    case Seeded(root, key) => Some(SeedNode(root, key))
  }

  /** A payload under a committed id has the committed node's parents. */
  predicate Named(dag: Dag, a: Atomic) {
    Stores(a).Some? && Stores(a).value.id in dag ==> ParentSet(dag[Stores(a).value.id]) == ParentSet(Stores(a).value)
  }

  predicate SameName(a: Atomic, b: Atomic) {
    Stores(a).Some? && Stores(b).Some? && Stores(a).value.id == Stores(b).value.id ==>
      ParentSet(Stores(a).value) == ParentSet(Stores(b).value)
  }

  /** Ids name their parents: in the store, among the tasks' payloads, and between the two. */
  ghost predicate NamesAgree(st: Store, tasks: seq<Worker>) {
    && (forall a :: IsActionOf(tasks, a) ==> Named(st.dag, a))
    && (forall a, b :: IsActionOf(tasks, a) && IsActionOf(tasks, b) ==> SameName(a, b))
  }

  /** The payload that an action would store, with its gap computed on the store it meets. */
  ghost function Stored(st: Store, a: Atomic): Payload
    requires Stores(a).Some?
  {
    if a.Submitted? then WithGap(a.sub.payload, st.dag) else Stores(a).value
  }

  lemma StoredKeeps(st: Store, a: Atomic)
    requires Stores(a).Some?
    ensures var p, q := Stored(st, a), Stores(a).value;
            p.id == q.id && p.covers == q.covers && p.compaction == q.compaction && p.parents == q.parents
            && ParentSet(p) == ParentSet(q) && Sources(p) == Sources(q)
  {
    hide WithGap;
    if a.Submitted? { GapKeepsFields(a.sub.payload, st.dag); }
  }

  lemma EffectDag(st: Store, a: Atomic)
    ensures Effect(st, a).dag == st.dag
      || (Stores(a).Some? && Stores(a).value.id !in st.dag && Effect(st, a).dag == st.dag[Stores(a).value.id := Stored(st, a)])
    ensures Filed(st) ==> Filed(Effect(st, a))
  {
    hide Decide, WithGap, Closure, EdgesOf, Filed;
    if Stores(a).Some? {
      var p := Stored(st, a);
      StoredKeeps(st, a);
      if Filed(st) {
        CommitFiled(st, p);
        SameDagFiled(Commit(st, p), Quarantine(Commit(st, p), {p.id}));
      }
    } else if Filed(st) {
      SameDagFiled(st, Effect(st, a));
    }
  }

  lemma EffectNamed(st: Store, a: Atomic, b: Atomic)
    requires SameName(a, b) && Named(st.dag, b)
    ensures Named(Effect(st, a).dag, b)
  {
    hide Effect, Stores, Stored, ParentSet;
    EffectDag(st, a);
    if Stores(a).Some? { StoredKeeps(st, a); }
  }

  lemma {:induction false} ReplayNamed(st: Store, tasks: seq<Worker>, log: seq<Atomic>)
    requires Filed(st) && NamesAgree(st, tasks) && LogOf(tasks, log)
    ensures Filed(Replay(st, log))
    ensures forall a :: IsActionOf(tasks, a) ==> Named(Replay(st, log).dag, a)
    ensures st.dag.Keys <= Replay(st, log).dag.Keys
    decreases |log|
  {
    hide Filed, IsActionOf, Effect, Named, SameName;
    if log != [] {
      var init, a := log[..|log| - 1], log[|log| - 1];
      ReplayNamed(st, tasks, init);
      EffectDag(Replay(st, init), a);
      forall b | IsActionOf(tasks, b) ensures Named(Replay(st, log).dag, b) {
        EffectNamed(Replay(st, init), a, b);
      }
    }
  }

  // ---- Exactly which actions keep clean lineage ----

  /** What is stored unrefused must derive from committed nodes that are not quarantined. */
  ghost predicate KeepsLineage(st: Store, a: Atomic) {
    match a
    case Submitted(sub, now) =>
      Decide(sub, Stored(st, a), st, now) == Keep && sub.payload.id !in st.dag ==> Elements(sub.payload.covers) <= st.dag.Keys - st.ledger
    case Committed(p) => Anchored(st, p)
    case _ => true
  }

  /** A kept submission has committed clean parents, and clean covers when it is a compaction. */
  lemma KeptIsAdmitted(sub: Submission, p: Payload, st: Store, now: int)
    requires Decide(sub, p, st, now) == Keep
    ensures ParentSet(p) <= st.dag.Keys - st.ledger && p.id !in st.ledger
    ensures p.compaction ==> Elements(p.covers) !! st.ledger
  {
    hide Evaluate, FirstMismatch, Tainted;
    DecisionMeaning(p, st, sub.auth, now);
    TaintedMeaning(p.covers, st.ledger);
  }

  /** A refused payload is new: were its id committed, its parents would be clean. */
  lemma RefusedIsNew(sub: Submission, p: Payload, st: Store, now: int)
    requires Closed(EdgesOf(st.dag), st.ledger) && Decide(sub, p, st, now) == KeepAndQuarantine
    requires p.id in st.dag ==> ParentSet(st.dag[p.id]) == ParentSet(p)
    ensures p.id !in st.dag && p.id !in st.ledger
  {
    hide Evaluate, FirstMismatch, Tainted, EdgesOf;
    DecisionMeaning(p, st, sub.auth, now);
    var u :| u in ParentSet(p) * st.ledger;
    if p.id in st.dag { EdgeMeaning(st.dag, u, p.id); }
  }

  lemma EffectLineage(st: Store, a: Atomic)
    requires Filed(st) && CleanLineage(st) && Named(st.dag, a)
    ensures CleanLineage(Effect(st, a)) <==> KeepsLineage(st, a)
  {
    hide Filed, CleanLineage, EdgesOf, Closure, Decide, Commit, Quarantine, WithGap, ParentSet;
    match a {
      case Submitted(sub, now) => SubmittedLineage(st, sub, now);
      case Marked(root) =>
        ClosureIsClosed(EdgesOf(st.dag), {root});
        QuarantineLineage(st, Blast(st.dag, root));
      case Committed(p) => CommitLineage(st, p);
      case Seeded(root, key) =>
        CommitLineage(st, SeedNode(root, key));
        SeedIsAnchored(st, root, key);
    }
  }

  lemma SeedIsAnchored(st: Store, root: Id, key: string)
    ensures Anchored(st, SeedNode(root, key))
  {
    assert Sources(SeedNode(root, key)) == {};
  }

  lemma SubmittedLineage(st: Store, sub: Submission, now: int)
    requires Filed(st) && CleanLineage(st) && Named(st.dag, Submitted(sub, now))
    ensures CleanLineage(Effect(st, Submitted(sub, now))) <==> KeepsLineage(st, Submitted(sub, now))
  {
    hide Filed, CleanLineage, EdgesOf, Decide, Commit, Quarantine, WithGap, ParentSet, Elements;
    var a := Submitted(sub, now);
    var p := Stored(st, a);
    StoredKeeps(st, a);
    match Decide(sub, p, st, now) {
      case NoWrite =>
      case Keep =>
        KeptIsAdmitted(sub, p, st, now);
        CommitLineage(st, p);
      case KeepAndQuarantine =>
        LineageIsClosed(st);
        RefusedIsNew(sub, p, st, now);
        RejectLineage(st, p);
    }
  }

  ghost predicate LineageThroughout(st: Store, log: seq<Atomic>) {
    forall k :: 0 <= k <= |log| ==> CleanLineage(Replay(st, log[..k]))
  }

  ghost predicate AnchoredThroughout(st: Store, log: seq<Atomic>) {
    forall k :: 0 <= k < |log| ==> KeepsLineage(Replay(st, log[..k]), log[k])
  }

  lemma PrefixOf(tasks: seq<Worker>, log: seq<Atomic>, k: nat)
    requires LogOf(tasks, log) && k <= |log|
    ensures LogOf(tasks, log[..k])
  {
    hide IsActionOf;
  }

  lemma StepAt(st: Store, tasks: seq<Worker>, log: seq<Atomic>, k: nat)
    requires Filed(st) && NamesAgree(st, tasks) && LogOf(tasks, log) && k < |log| && CleanLineage(Replay(st, log[..k]))
    ensures CleanLineage(Replay(st, log[..k + 1])) <==> KeepsLineage(Replay(st, log[..k]), log[k])
  {
    hide Filed, CleanLineage, IsActionOf, Effect, KeepsLineage, Named, SameName;
    PrefixOf(tasks, log, k);
    ReplayNamed(st, tasks, log[..k]);
    ReplayAt(st, log, k);
    assert log[k] in log;
    EffectLineage(Replay(st, log[..k]), log[k]);
  }

  lemma {:induction false} AnchoredIsClean(st: Store, tasks: seq<Worker>, log: seq<Atomic>, k: nat)
    requires Filed(st) && NamesAgree(st, tasks) && LogOf(tasks, log) && k <= |log|
    requires CleanLineage(st) && forall j :: 0 <= j < k ==> KeepsLineage(Replay(st, log[..j]), log[j])
    ensures CleanLineage(Replay(st, log[..k]))
    decreases k
  {
    hide Filed, CleanLineage, KeepsLineage, NamesAgree, LogOf;
    if k > 0 {
      AnchoredIsClean(st, tasks, log, k - 1);
      StepAt(st, tasks, log, k - 1);
    }
  }

  /** Clean lineage survives a schedule exactly when every write that is not refused derives from committed clean nodes. */
  lemma LineageIffAnchored(w: World, order: seq<nat>)
    requires Start(w) && Filed(w.st) && CleanLineage(w.st) && NamesAgree(w.st, w.tasks)
    ensures LineageThroughout(w.st, Schedule(w, order).log) <==> AnchoredThroughout(w.st, Schedule(w, order).log)
  {
    hide Schedule, Filed, CleanLineage, KeepsLineage, NamesAgree, LogOf, Replay;
    var log := Schedule(w, order).log;
    ScheduleLog(w, order);
    if LineageThroughout(w.st, log) {
      forall k | 0 <= k < |log| ensures KeepsLineage(Replay(w.st, log[..k]), log[k]) {
        StepAt(w.st, w.tasks, log, k);
      }
    }
    if AnchoredThroughout(w.st, log) {
      forall k | 0 <= k <= |log| ensures CleanLineage(Replay(w.st, log[..k])) {
        AnchoredIsClean(w.st, w.tasks, log, k);
      }
    }
  }

  // ---- Tasks that stay closed ----

  /** Submissions cover only as compactions, and nothing names a cover or an unchecked source that is not stored yet. */
  predicate Grounded(st: Store, job: Job) {
    match job
    case SubmitJob(sub, _) =>
      (sub.payload.compaction || sub.payload.covers == []) && Elements(sub.payload.covers) <= st.dag.Keys
    case CommitJob(p) => Sources(p) <= st.dag.Keys
    case _ => true
  }

  ghost predicate Sober(w: World) {
    && Start(w) && Filed(w.st) && CleanLineage(w.st) && NamesAgree(w.st, w.tasks)
    && forall i :: 0 <= i < |w.tasks| ==> Grounded(w.st, w.tasks[i].job)
  }

  /** Every commit that was checked before it took the lock still avoids the ledger when it is made. */
  ghost predicate CommitsClean(st: Store, log: seq<Atomic>) {
    forall k :: 0 <= k < |log| && log[k].Committed? ==> CommitHarmless(Replay(st, log[..k]), log[k].p)
  }

  lemma SoberKeeps(w: World, log: seq<Atomic>, k: nat)
    requires Sober(w) && LogOf(w.tasks, log) && k < |log|
    requires log[k].Committed? ==> CommitHarmless(Replay(w.st, log[..k]), log[k].p)
    ensures KeepsLineage(Replay(w.st, log[..k]), log[k])
  {
    hide Start, Filed, CleanLineage, NamesAgree, Replay, Decide, Stored, Sources, Elements;
    var st, a := Replay(w.st, log[..k]), log[k];
    PrefixOf(w.tasks, log, k);
    ReplayNamed(w.st, w.tasks, log[..k]);
    assert a in log;
    var i :| 0 <= i < |w.tasks| && Action(w.tasks[i].job) == a;
    assert Grounded(w.st, w.tasks[i].job);
    if a.Submitted? && Decide(a.sub, Stored(st, a), st, a.now) == Keep {
      StoredKeeps(st, a);
      KeptIsAdmitted(a.sub, Stored(st, a), st, a.now);
      NothingElements(a.sub.payload.covers);
    }
  }

  lemma NothingElements(ids: seq<Id>)
    ensures ids == [] ==> Elements(ids) == {}
  {
  }

  /** The ledger stays closed through a schedule of such tasks exactly when their prechecked commits stay clean. */
  lemma SoberSchedulesStayClosed(w: World, order: seq<nat>)
    requires Sober(w)
    ensures ClosedThroughout(w.st, Schedule(w, order).log) <==> CommitsClean(w.st, Schedule(w, order).log)
    ensures CommitsClean(w.st, Schedule(w, order).log) ==> LineageThroughout(w.st, Schedule(w, order).log)
  {
    hide Schedule, KeepsLineage, NamesAgree, LogOf, Replay, CleanLineage, Filed, Start, Closed, EdgesOf, Grounded, CommitHarmless;
    var log := Schedule(w, order).log;
    ScheduleLogOf(w, order);
    if CommitsClean(w.st, log) {
      forall k | 0 <= k < |log| ensures KeepsLineage(Replay(w.st, log[..k]), log[k]) {
        SoberKeeps(w, log, k);
      }
      LineageIffAnchored(w, order);
      forall k | 0 <= k <= |log| ensures Closed(EdgesOf(Replay(w.st, log[..k]).dag), Replay(w.st, log[..k]).ledger) {
        LineageIsClosed(Replay(w.st, log[..k]));
      }
    }
    if ClosedThroughout(w.st, log) {
      LineageIsClosed(w.st);
      ClosedIffKept(w.st, log);
    }
  }

  lemma ScheduleLogOf(w: World, order: seq<nat>)
    requires Start(w)
    ensures LogOf(w.tasks, Schedule(w, order).log)
  {
    hide LogOf, Schedule;
    ScheduleLog(w, order);
  }

  /**
   * Submissions, designations and seeds alone: whatever the order, the ledger is closed in every state
   * of the schedule in which no refusal is half done.
   */
  lemma ClosedAtRest(w: World, order: seq<nat>)
    requires Sober(w) && forall i :: 0 <= i < |w.tasks| ==> !w.tasks[i].job.CommitJob?
    requires forall i :: 0 <= i < |Schedule(w, order).tasks| ==> !HalfDone(Schedule(w, order), i)
    ensures Closed(EdgesOf(Schedule(w, order).st.dag), Schedule(w, order).st.ledger)
    ensures CleanLineage(Schedule(w, order).st)
  {
    hide Schedule, NamesAgree, Replay, CleanLineage, Filed, Start, Closed, EdgesOf, Grounded, CommitHarmless, HalfDone;
    var log := Schedule(w, order).log;
    ScheduleLogOf(w, order);
    forall k | 0 <= k < |log| ensures !log[k].Committed? {
      assert log[k] in log;
    }
    SoberSchedulesStayClosed(w, order);
    SchedulesSerialize(w, order);
    assert log[..|log|] == log;
    LineageIsClosed(Replay(w.st, log));
  }
}
