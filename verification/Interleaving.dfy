/** Concurrent tasks over the SQLite store: admission lock, immediate transactions, one atomic action at a time. */
module Interleaving {
  import opened Ids
  import opened Reach
  import opened Records
  import opened BlastRadius
  import opened Admission
  import opened Gateway
  import opened Confluence
  import opened Containment
  import opened AdmissionLock

  // ---- What a submission reads, and what it decides from it ----

  /** The existence, content hash and quarantine maps of a submission. */
  datatype Maps = Maps(digests: map<Id, string>, tainted: set<Id>)

  function ReadMaps(st: Store, p: Payload): Maps {
    Maps(map u | u in ParentSet(p) && u in st.dag :: st.dag[u].digest,
         ({p.id} + ParentSet(p) + Elements(p.covers)) * st.ledger)
  }

  /** The part of a store that the maps describe. */
  function Described(m: Maps): Store {
    Store(map u | u in m.digests :: Bare(u).(digest := m.digests[u]), [], m.tainted)
  }

  datatype Outcome = NoWrite | Keep | KeepAndQuarantine

  function Decide(sub: Submission, p: Payload, st: Store, now: int): Outcome {
    if !sub.signatureValid || |p.parents| > 256 || p.id in st.ledger
       || (p.compaction && Tainted(p.covers, st.ledger) != []) || !sub.policyUp then NoWrite
    else
      match Evaluate(p, st, sub.auth, now)
      case TaintedParent(_) => KeepAndQuarantine
      case Admit => if FirstMismatch(p.parents, st.dag).Some? then NoWrite else Keep
      case _ => NoWrite
  }

  /** The maps are all a submission needs: deciding from them is deciding from the store they were read from. */
  lemma MapsDecide(sub: Submission, p: Payload, st: Store, now: int)
    ensures Decide(sub, p, Described(ReadMaps(st, p)), now) == Decide(sub, p, st, now)
  {
    hide Evaluate, FirstMismatch, Tainted;
    var t := Described(ReadMaps(st, p));
    TaintedMeaning(p.covers, st.ledger);
    TaintedMeaning(p.covers, t.ledger);
    SameEvaluation(p, st, t, sub.auth, now);
    forall c | c in p.parents ensures c.parent in ParentSet(p) {
    }
    SameFirstMismatch(p.parents, st.dag, t.dag);
  }

  // ---- Atomic actions on the store ----

  datatype Atomic = Submitted(sub: Submission, now: int) | Marked(root: Id) | Committed(p: Payload) | Seeded(root: Id, key: string)

  function SeedNode(root: Id, key: string): Payload {
    Bare(root).(digest := "seed", author := key)
  }

  ghost function Effect(st: Store, a: Atomic): Store {
    match a
    case Submitted(sub, now) =>
      var p := WithGap(sub.payload, st.dag);
      (match Decide(sub, p, st, now)
       case NoWrite => st
       case Keep => Commit(st, p)
       case KeepAndQuarantine => Quarantine(Commit(st, p), {p.id}))
    case Marked(root) => if root in st.dag && root !in st.ledger then Quarantine(st, Blast(st.dag, root)) else st
    case Committed(p) => Commit(st, p)
    case Seeded(root, key) => if root == "" then st else Commit(st, SeedNode(root, key))
  }

  ghost function Replay(st: Store, log: seq<Atomic>): Store
    decreases |log|
  {
    if log == [] then st else Effect(Replay(st, log[..|log| - 1]), log[|log| - 1])
  }

  lemma ReplayStep(st: Store, log: seq<Atomic>, a: Atomic)
    ensures Replay(st, log + [a]) == Effect(Replay(st, log), a)
  {
    assert (log + [a])[..|log|] == log;
  }

  lemma DecideBranches(s: State, sub: Submission, now: int)
    ensures Decide(sub, WithGap(sub.payload, s.store.dag), s.store, now) ==
      if !Considered(s, sub) then NoWrite
      else match Evaluate(sub.payload, s.store, sub.auth, now)
        case TaintedParent(_) => KeepAndQuarantine
        case Admit => if FirstMismatch(sub.payload.parents, s.store.dag).Some? then NoWrite else Keep
        case _ => NoWrite
  {
    hide Evaluate, WithGap, FirstMismatch, Tainted;
    GapKeepsFields(sub.payload, s.store.dag);
    GapIsAnnotation(sub.payload, s.store, sub.auth, now);
  }

  lemma AcceptStore(s: State, p: Payload)
    ensures Accept(s, p).0.store == if FirstMismatch(p.parents, s.store.dag).Some? then s.store else Commit(s.store, p)
  {
    hide FirstMismatch, Completed;
  }

  /** The atomic actions are what the gateway's request handlers do to the store. */
  lemma SubmissionIsAtomic(cfg: Config, s: State, sub: Submission, now: int)
    ensures Submit(cfg, s, sub, now).0.store == Effect(s.store, Submitted(sub, now))
  {
    hide Evaluate, WithGap, Reject, Accept, FirstMismatch, Submit, Decide, Considered, Commit, RejectionEvent;
    var p := WithGap(sub.payload, s.store.dag);
    SubmitBranches(cfg, s, sub, now);
    GapKeepsFields(sub.payload, s.store.dag);
    DecideBranches(s, sub, now);
    if Considered(s, sub) {
      match Evaluate(sub.payload, s.store, sub.auth, now) {
        case TaintedParent(root) => RejectEffect(cfg, s, p, root, now);
        case Admit => AcceptStore(s, p);
        case _ =>
      }
    }
  }

  lemma DesignationIsAtomic(cfg: Config, s: State, root: Id, now: int)
    requires root in s.store.dag && root !in s.store.ledger
    ensures Contain(cfg, s, root, now).store == Effect(s.store, Marked(root))
  {
    hide Contain, Closure, EdgesOf;
    ContainEffect(cfg, s, root, now);
  }

  lemma SeedAndCompactionAreAtomic(s: State, root: Id, key: string, ev: CompactionEvent, valid: bool)
    ensures Seed(s, root, key).0.store == Effect(s.store, Seeded(root, key))
    ensures Compact(s, ev, valid).1.Ok? ==>
      Compact(s, ev, valid).0.store == Effect(s.store, Committed(CompactionPayload(s.store.dag, ev)))
  {
  }

  // ---- Tasks ----

  datatype Job =
    | SubmitJob(sub: Submission, now: int)
    | DetectJob(root: Id)
    | CommitJob(p: Payload)               // compaction, continuity and reconstruction commits
    | SeedJob(root: Id, key: string)

  datatype Phase =
    | Idle
    | Waiting
    | Entered
    | Begun
    | Decided(p: Payload, maps: Maps)
    | Recorded(p: Payload)
    | Found(c: set<Id>)
    | Written
    | Ended
    | Done

  datatype Worker = Worker(job: Job, phase: Phase)

  /** `tx` names the task whose immediate transaction is open; `log` lists the atomic actions taken so far. */
  datatype World = World(lock: Lock, tx: Option<nat>, st: Store, tasks: seq<Worker>, log: seq<Atomic>)

  function At(w: World, i: nat, phase: Phase): World
    requires i < |w.tasks|
  {
    w.(tasks := w.tasks[i := w.tasks[i].(phase := phase)])
  }

  ghost function SubmitStep(w: World, i: nat): World
    requires i < |w.tasks| && w.tasks[i].job.SubmitJob?
  {
    var sub, now := w.tasks[i].job.sub, w.tasks[i].job.now;
    match w.tasks[i].phase
    case Idle => if MayShare(w.lock) then At(w, i, Entered).(lock := EnterShared(w.lock)) else w
    case Entered => if w.tx == None then At(w, i, Begun).(tx := Some(i)) else w
    case Begun => var p := WithGap(sub.payload, w.st.dag); At(w, i, Decided(p, ReadMaps(w.st, p)))
    case Decided(p, maps) =>
      (match Decide(sub, p, Described(maps), now)
       case NoWrite => At(w, i, Written).(log := w.log + [Submitted(sub, now)])
       case Keep => At(w, i, Written).(st := Commit(w.st, p), log := w.log + [Submitted(sub, now)])
       case KeepAndQuarantine => At(w, i, Recorded(p)).(st := Commit(w.st, p)))
    case Recorded(p) => At(w, i, Written).(st := Quarantine(w.st, {p.id}), log := w.log + [Submitted(sub, now)])
    case Written => At(w, i, Ended).(tx := None)
    case Ended => At(w, i, Done).(lock := LeaveShared(w.lock))
    case _ => w
  }

  ghost function DetectStep(w: World, i: nat): World
    requires i < |w.tasks| && w.tasks[i].job.DetectJob?
  {
    var root := w.tasks[i].job.root;
    match w.tasks[i].phase
    case Idle => At(w, i, Waiting).(lock := RequestExclusive(w.lock))
    case Waiting => if MayExclude(w.lock) then At(w, i, Entered).(lock := EnterExclusive(w.lock)) else w
    case Entered =>
      if root in w.st.dag && root !in w.st.ledger then At(w, i, Found(Blast(w.st.dag, root)))
      else At(w, i, Written)
    case Found(c) =>
      if w.tx == None then At(w, i, Written).(st := Quarantine(w.st, c), log := w.log + [Marked(root)]) else w
    case Written => At(w, i, Done).(lock := LeaveExclusive(w.lock))
    case _ => w
  }

  function CommitStep(w: World, i: nat): World
    requires i < |w.tasks| && w.tasks[i].job.CommitJob?
  {
    var p := w.tasks[i].job.p;
    match w.tasks[i].phase
    case Idle => if MayShare(w.lock) then At(w, i, Entered).(lock := EnterShared(w.lock)) else w
    case Entered =>
      if w.tx == None then At(w, i, Written).(st := Commit(w.st, p), log := w.log + [Committed(p)]) else w
    case Written => At(w, i, Done).(lock := LeaveShared(w.lock))
    case _ => w
  }

  /** Seeding takes no admission lock; like every write it waits while a transaction is open. */
  function SeedStep(w: World, i: nat): World
    requires i < |w.tasks| && w.tasks[i].job.SeedJob?
  {
    var root, key := w.tasks[i].job.root, w.tasks[i].job.key;
    if w.tasks[i].phase.Idle? && w.tx == None
    then At(w, i, Done).(st := if root == "" then w.st else Commit(w.st, SeedNode(root, key)), log := w.log + [Seeded(root, key)])
    else w
  }

  /** One scheduling decision: task i takes its next action, or polls in vain. */
  ghost function Advance(w: World, i: nat): World {
    if i >= |w.tasks| then w else
      match w.tasks[i].job
      case SubmitJob(_, _) => SubmitStep(w, i)
      case DetectJob(_) => DetectStep(w, i)
      case CommitJob(_) => CommitStep(w, i)
      case SeedJob(_, _) => SeedStep(w, i)
  }

  ghost function Schedule(w: World, order: seq<nat>): World
    decreases |order|
  {
    if order == [] then w else Advance(Schedule(w, order[..|order| - 1]), order[|order| - 1])
  }

  // ---- Who holds what ----

  predicate HoldsShared(t: Worker) {
    || (t.job.SubmitJob? && !t.phase.Idle? && !t.phase.Done?)
    || (t.job.CommitJob? && !t.phase.Idle? && !t.phase.Done?)
  }

  predicate HoldsExclusive(t: Worker) {
    t.job.DetectJob? && (t.phase.Entered? || t.phase.Found? || t.phase.Written?)
  }

  predicate HoldsTransaction(t: Worker) {
    t.job.SubmitJob? && (t.phase.Begun? || t.phase.Decided? || t.phase.Recorded? || t.phase.Written?)
  }

  function Readers(tasks: seq<Worker>): seq<nat> {
    seq(|tasks|, i requires 0 <= i < |tasks| => if HoldsShared(tasks[i]) then 1 else 0)
  }

  function Writers(tasks: seq<Worker>): seq<nat> {
    seq(|tasks|, i requires 0 <= i < |tasks| => if HoldsExclusive(tasks[i]) then 1 else 0)
  }

  ghost predicate LockAgrees(w: World) {
    && w.lock.readers == Total(Readers(w.tasks))
    && Total(Writers(w.tasks)) == (if w.lock.writer then 1 else 0)
    && (w.lock.writer ==> w.lock.readers == 0)
  }

  ghost predicate TransactionAgrees(w: World) {
    forall i :: 0 <= i < |w.tasks| ==> (HoldsTransaction(w.tasks[i]) <==> w.tx == Some(i))
  }

  /** What a task has read is still true of the store. */
  ghost predicate StillTrue(st: Store, t: Worker) {
    && (t.job.SubmitJob? && t.phase.Decided? ==>
         t.phase.p == WithGap(t.job.sub.payload, st.dag) && t.phase.maps == ReadMaps(st, t.phase.p))
    && (t.job.DetectJob? && t.phase.Found? ==>
         t.job.root in st.dag && t.job.root !in st.ledger && t.phase.c == Blast(st.dag, t.job.root))
  }

  ghost predicate ReadsHold(w: World) {
    forall i :: 0 <= i < |w.tasks| ==> StillTrue(w.st, w.tasks[i])
  }

  /** Task i has stored a refused payload and has not yet quarantined it. */
  predicate HalfDone(w: World, i: nat) {
    i < |w.tasks| && w.tasks[i].job.SubmitJob? && w.tasks[i].phase.Recorded?
  }

  /** The store is what the logged actions produce one after the other, but for a half-done refusal. */
  ghost predicate Serialized(w: World, start: Store) {
    var base := Replay(start, w.log);
    if w.tx.Some? && HalfDone(w, w.tx.value) then
      var t := w.tasks[w.tx.value];
      && t.phase.p == WithGap(t.job.sub.payload, base.dag)
      && Decide(t.job.sub, t.phase.p, base, t.job.now) == KeepAndQuarantine
      && w.st == Commit(base, t.phase.p)
    else w.st == base
  }

  ghost predicate Consistent(w: World, start: Store) {
    LockAgrees(w) && TransactionAgrees(w) && ReadsHold(w) && Serialized(w, start)
  }

  // ---- Locks exclude ----

  lemma WeightUpdate(tasks: seq<Worker>, i: nat, t: Worker)
    requires i < |tasks|
    ensures Total(Readers(tasks[i := t])) ==
      Total(Readers(tasks)) - (if HoldsShared(tasks[i]) then 1 else 0) + if HoldsShared(t) then 1 else 0
    ensures Total(Writers(tasks[i := t])) ==
      Total(Writers(tasks)) - (if HoldsExclusive(tasks[i]) then 1 else 0) + if HoldsExclusive(t) then 1 else 0
  {
    hide Total, HoldsShared, HoldsExclusive;
    assert Readers(tasks[i := t]) == Readers(tasks)[i := if HoldsShared(t) then 1 else 0];
    assert Writers(tasks[i := t]) == Writers(tasks)[i := if HoldsExclusive(t) then 1 else 0];
    TotalUpdate(Readers(tasks), i, if HoldsShared(t) then 1 else 0);
    TotalUpdate(Writers(tasks), i, if HoldsExclusive(t) then 1 else 0);
  }

  lemma Exclusion(w: World, i: nat, j: nat)
    requires LockAgrees(w) && i < |w.tasks| && j < |w.tasks|
    ensures HoldsShared(w.tasks[i]) ==> w.lock.readers > 0 && !HoldsExclusive(w.tasks[j])
    ensures HoldsExclusive(w.tasks[i]) ==> w.lock.writer && (i != j ==> !HoldsExclusive(w.tasks[j]))
  {
    hide Total, HoldsShared, HoldsExclusive;
    TotalCovers(Readers(w.tasks), i, i);
    TotalCovers(Writers(w.tasks), i, j);
    TotalCovers(Writers(w.tasks), j, j);
    assert HoldsShared(w.tasks[i]) ==> Readers(w.tasks)[i] == 1;
    assert HoldsExclusive(w.tasks[i]) ==> Writers(w.tasks)[i] == 1;
    assert HoldsExclusive(w.tasks[j]) ==> Writers(w.tasks)[j] == 1;
  }

  // ---- Every step keeps the world consistent ----

  /** The task took its step: its own phase changed, and whatever the lock now says is counted. */
  lemma LockStep(w: World, i: nat, w': World)
    requires LockAgrees(w) && i < |w.tasks|
    requires |w'.tasks| == |w.tasks| && w'.tasks == w.tasks[i := w'.tasks[i]]
    requires var (s, s') := (HoldsShared(w.tasks[i]), HoldsShared(w'.tasks[i]));
             var (x, x') := (HoldsExclusive(w.tasks[i]), HoldsExclusive(w'.tasks[i]));
             || (s == s' && x == x' && w'.lock.readers == w.lock.readers && w'.lock.writer == w.lock.writer)
             || (!s && s' && x == x' && MayShare(w.lock) && w'.lock == EnterShared(w.lock))
             || (s && !s' && x == x' && w'.lock == LeaveShared(w.lock))
             || (s == s' && !x && x' && MayExclude(w.lock) && w'.lock == EnterExclusive(w.lock))
             || (s == s' && x && !x' && w'.lock == LeaveExclusive(w.lock))
    ensures LockAgrees(w')
  {
    hide Total, Readers, Writers, HoldsShared, HoldsExclusive;
    WeightUpdate(w.tasks, i, w'.tasks[i]);
    Exclusion(w, i, i);
  }

  lemma SubmitLock(w: World, i: nat)
    requires LockAgrees(w) && i < |w.tasks| && w.tasks[i].job.SubmitJob?
    ensures LockAgrees(SubmitStep(w, i))
  {
    hide LockAgrees, Decide, ReadMaps, WithGap, Closure, EdgesOf, Commit, Quarantine;
    if SubmitStep(w, i) != w { LockStep(w, i, SubmitStep(w, i)); }
  }

  lemma DetectLock(w: World, i: nat)
    requires LockAgrees(w) && i < |w.tasks| && w.tasks[i].job.DetectJob?
    ensures LockAgrees(DetectStep(w, i))
  {
    hide LockAgrees, Decide, ReadMaps, WithGap, Closure, EdgesOf, Commit, Quarantine;
    if DetectStep(w, i) != w { LockStep(w, i, DetectStep(w, i)); }
  }

  lemma CommitLock(w: World, i: nat)
    requires LockAgrees(w) && i < |w.tasks| && w.tasks[i].job.CommitJob?
    ensures LockAgrees(CommitStep(w, i))
  {
    hide LockAgrees, Decide, ReadMaps, WithGap, Closure, EdgesOf, Commit, Quarantine;
    if CommitStep(w, i) != w { LockStep(w, i, CommitStep(w, i)); }
  }

  lemma SeedLock(w: World, i: nat)
    requires LockAgrees(w) && i < |w.tasks| && w.tasks[i].job.SeedJob?
    ensures LockAgrees(SeedStep(w, i))
  {
    hide LockAgrees, Decide, ReadMaps, WithGap, Closure, EdgesOf, Commit, Quarantine;
    if SeedStep(w, i) != w { LockStep(w, i, SeedStep(w, i)); }
  }

  lemma AdvanceLock(w: World, i: nat)
    requires LockAgrees(w)
    ensures LockAgrees(Advance(w, i))
  {
    hide LockAgrees, SubmitStep, DetectStep, CommitStep, SeedStep;
    if i < |w.tasks| {
      match w.tasks[i].job {
        case SubmitJob(_, _) => SubmitLock(w, i);
        case DetectJob(_) => DetectLock(w, i);
        case CommitJob(_) => CommitLock(w, i);
        case SeedJob(_, _) => SeedLock(w, i);
      }
    }
  }

  lemma AdvanceTransaction(w: World, i: nat)
    requires TransactionAgrees(w)
    ensures TransactionAgrees(Advance(w, i))
  {
    hide Decide, ReadMaps, WithGap, Closure, EdgesOf, Commit, Quarantine;
  }

  /** Whether task i is about to write the store. */
  predicate Writes(w: World, i: nat) {
    i < |w.tasks| &&
      var t := w.tasks[i];
      || (t.job.SubmitJob? && (t.phase.Decided? || t.phase.Recorded?))
      || (t.job.DetectJob? && t.phase.Found? && w.tx == None)
      || (t.job.CommitJob? && t.phase.Entered? && w.tx == None)
      || (t.job.SeedJob? && t.phase.Idle? && w.tx == None)
  }

  lemma OnlyWritersWrite(w: World, i: nat)
    ensures Advance(w, i).st == w.st || Writes(w, i)
    ensures |Advance(w, i).tasks| == |w.tasks|
    ensures forall j :: 0 <= j < |w.tasks| && j != i ==> Advance(w, i).tasks[j] == w.tasks[j]
  {
    hide Decide, ReadMaps, WithGap, Closure, EdgesOf, Commit, Quarantine;
  }

  /** While task j relies on what it read, nobody else can write but a seed, and a seed cannot matter to it. */
  lemma ReadersAreSafe(w: World, i: nat, j: nat)
    requires LockAgrees(w) && TransactionAgrees(w)
    requires Writes(w, i) && j < |w.tasks| && i != j
    ensures !(w.tasks[j].job.SubmitJob? && w.tasks[j].phase.Decided?)
    ensures w.tasks[j].job.DetectJob? && w.tasks[j].phase.Found? ==> w.tasks[i].job.SeedJob?
  {
    hide LockAgrees;
    Exclusion(w, j, i);
    Exclusion(w, i, j);
  }

  lemma SeedKeepsClosures(st: Store, root: Id, key: string, n: Id)
    ensures EdgesOf(Commit(st, SeedNode(root, key)).dag) == EdgesOf(st.dag)
    ensures n in st.dag ==> n in Commit(st, SeedNode(root, key)).dag
  {
    var p := SeedNode(root, key);
    assert Sources(p) == {};
    CommitEdges(st, p);
    var e, f := EdgesOf(st.dag), EdgesOf(Commit(st, p).dag);
    forall x | x in f ensures x in e {
      assert (x.0, x.1) in f;
    }
  }

  lemma AdvanceReads(w: World, i: nat)
    requires LockAgrees(w) && TransactionAgrees(w) && ReadsHold(w)
    ensures ReadsHold(Advance(w, i))
  {
    hide LockAgrees, TransactionAgrees, Advance, StillTrue, Writes;
    var w' := Advance(w, i);
    OnlyWritersWrite(w, i);
    forall j | 0 <= j < |w'.tasks| ensures StillTrue(w'.st, w'.tasks[j]) {
      if j == i {
        OwnRead(w, i);
      } else if w'.st != w.st {
        ReadersAreSafe(w, i, j);
        OthersRead(w, i, j);
      }
    }
  }

  lemma OwnRead(w: World, i: nat)
    requires i < |w.tasks| && StillTrue(w.st, w.tasks[i])
    ensures |Advance(w, i).tasks| == |w.tasks| && StillTrue(Advance(w, i).st, Advance(w, i).tasks[i])
  {
    hide Decide, ReadMaps, WithGap, Closure, EdgesOf, Commit, Quarantine;
  }

  lemma OthersRead(w: World, i: nat, j: nat)
    requires Writes(w, i) && j < |w.tasks| && i != j && StillTrue(w.st, w.tasks[j])
    requires !(w.tasks[j].job.SubmitJob? && w.tasks[j].phase.Decided?)
    requires w.tasks[j].job.DetectJob? && w.tasks[j].phase.Found? ==> w.tasks[i].job.SeedJob?
    ensures StillTrue(Advance(w, i).st, w.tasks[j])
  {
    hide ReadMaps, WithGap, Closure, EdgesOf, SubmitStep, DetectStep, CommitStep;
    if w.tasks[i].job.SeedJob? && w.tasks[j].job.DetectJob? {
      SeedKeepsClosures(w.st, w.tasks[i].job.root, w.tasks[i].job.key, w.tasks[j].job.root);
    }
  }

  // ---- Serializability ----

  lemma AdvanceSerialized(w: World, start: Store, i: nat)
    requires Consistent(w, start)
    ensures Serialized(Advance(w, i), start)
  {
    hide LockAgrees, ReadMaps, WithGap, Closure, EdgesOf, Commit, Quarantine, Replay, Decide;
    if i < |w.tasks| {
      var t := w.tasks[i];
      match t.job {
        case SubmitJob(sub, now) => SubmitSerialized(w, start, i);
        case DetectJob(root) => DetectSerialized(w, start, i);
        case CommitJob(p) => CommitSerialized(w, start, i);
        case SeedJob(root, key) => SeedSerialized(w, start, i);
      }
    }
  }

  lemma SubmitSerialized(w: World, start: Store, i: nat)
    requires Consistent(w, start) && i < |w.tasks| && w.tasks[i].job.SubmitJob?
    ensures Serialized(SubmitStep(w, i), start)
  {
    hide LockAgrees, ReadMaps, WithGap, Commit, Quarantine, Replay, Decide;
    var t := w.tasks[i];
    var sub, now := t.job.sub, t.job.now;
    ReplayStep(start, w.log, Submitted(sub, now));
    assert HoldsTransaction(t) <==> w.tx == Some(i);
    assert StillTrue(w.st, t);
    if t.phase.Decided? {
      MapsDecide(sub, t.phase.p, w.st, now);
    }
    if w.tx.Some? && w.tx.value != i && w.tx.value < |w.tasks| {
      assert SubmitStep(w, i).tasks[w.tx.value] == w.tasks[w.tx.value];
    }
  }

  lemma DetectSerialized(w: World, start: Store, i: nat)
    requires Consistent(w, start) && i < |w.tasks| && w.tasks[i].job.DetectJob?
    ensures Serialized(DetectStep(w, i), start)
  {
    hide LockAgrees, ReadMaps, WithGap, Commit, Quarantine, Replay, Decide, Closure, EdgesOf;
    var t := w.tasks[i];
    ReplayStep(start, w.log, Marked(t.job.root));
    assert StillTrue(w.st, t);
    assert HoldsTransaction(t) <==> w.tx == Some(i);
    if w.tx.Some? && w.tx.value < |w.tasks| {
      assert w.tx.value != i;
      assert DetectStep(w, i).tasks[w.tx.value] == w.tasks[w.tx.value];
    }
  }

  lemma CommitSerialized(w: World, start: Store, i: nat)
    requires Consistent(w, start) && i < |w.tasks| && w.tasks[i].job.CommitJob?
    ensures Serialized(CommitStep(w, i), start)
  {
    hide LockAgrees, ReadMaps, WithGap, Commit, Quarantine, Replay, Decide;
    var t := w.tasks[i];
    ReplayStep(start, w.log, Committed(t.job.p));
    assert HoldsTransaction(t) <==> w.tx == Some(i);
    if w.tx.Some? && w.tx.value < |w.tasks| {
      assert w.tx.value != i;
      assert CommitStep(w, i).tasks[w.tx.value] == w.tasks[w.tx.value];
    }
  }

  lemma SeedSerialized(w: World, start: Store, i: nat)
    requires Consistent(w, start) && i < |w.tasks| && w.tasks[i].job.SeedJob?
    ensures Serialized(SeedStep(w, i), start)
  {
    hide LockAgrees, ReadMaps, WithGap, Commit, Quarantine, Replay, Decide;
    var t := w.tasks[i];
    ReplayStep(start, w.log, Seeded(t.job.root, t.job.key));
    assert HoldsTransaction(t) <==> w.tx == Some(i);
    if w.tx.Some? && w.tx.value < |w.tasks| {
      assert w.tx.value != i;
      assert SeedStep(w, i).tasks[w.tx.value] == w.tasks[w.tx.value];
    }
  }

  lemma AdvanceConsistent(w: World, start: Store, i: nat)
    requires Consistent(w, start)
    ensures Consistent(Advance(w, i), start)
  {
    hide LockAgrees, TransactionAgrees, ReadsHold, Serialized, Advance;
    AdvanceLock(w, i);
    AdvanceTransaction(w, i);
    AdvanceReads(w, i);
    AdvanceSerialized(w, start, i);
  }

  /** Any number of tasks that have not begun, over any store. */
  ghost predicate Start(w: World) {
    && w.lock == FREE && w.tx == None && w.log == []
    && forall i :: 0 <= i < |w.tasks| ==> w.tasks[i].phase == Idle
  }

  lemma StartConsistent(w: World)
    requires Start(w)
    ensures Consistent(w, w.st)
  {
    TotalZero(Readers(w.tasks));
    TotalZero(Writers(w.tasks));
  }

  lemma {:induction false} ScheduleConsistent(w: World, order: seq<nat>)
    requires Start(w)
    ensures Consistent(Schedule(w, order), w.st)
    decreases |order|
  {
    hide Consistent, Start, Advance;
    if order == [] {
      StartConsistent(w);
    } else {
      ScheduleConsistent(w, order[..|order| - 1]);
      AdvanceConsistent(Schedule(w, order[..|order| - 1]), w.st, order[|order| - 1]);
    }
  }

  /**
   * In every reachable state of every schedule, what a submission or designation has read of the store
   * is what it would read again, so it still holds when it writes.
   */
  lemma ReadsHoldUntilCommit(w: World, order: seq<nat>)
    requires Start(w)
    ensures ReadsHold(Schedule(w, order))
  {
    hide Schedule, LockAgrees, TransactionAgrees, Serialized, ReadsHold;
    ScheduleConsistent(w, order);
  }

  /**
   * Whenever no refusal is half done, the store is the one that the atomic actions logged so far produce
   * one after the other.
   */
  lemma SchedulesSerialize(w: World, order: seq<nat>)
    requires Start(w)
    requires forall i :: 0 <= i < |Schedule(w, order).tasks| ==> !HalfDone(Schedule(w, order), i)
    ensures Schedule(w, order).st == Replay(w.st, Schedule(w, order).log)
  {
    hide Schedule, LockAgrees, TransactionAgrees, ReadsHold, Replay;
    ScheduleConsistent(w, order);
  }

  // ---- Closure at rest ----

  /** Exactly when an atomic action keeps a closed ledger closed. */
  ghost predicate KeepsClosed(st: Store, a: Atomic) {
    match a
    case Submitted(sub, now) =>
      var p := WithGap(sub.payload, st.dag);
      (match Decide(sub, p, st, now)
       case NoWrite => true
       case Keep => CommitHarmless(st, p)
       case KeepAndQuarantine => Children(EdgesOf(st.dag), p.id) <= st.ledger + {p.id})
    case Committed(p) => CommitHarmless(st, p)
    case _ => true
  }

  lemma RefusalClosed(st: Store, p: Payload)
    requires Closed(EdgesOf(st.dag), st.ledger)
    ensures Closed(EdgesOf(Commit(st, p).dag), st.ledger + {p.id}) <==> Children(EdgesOf(st.dag), p.id) <= st.ledger + {p.id}
  {
    hide EdgesOf;
    CommitEdges(st, p);
    var e, f := EdgesOf(st.dag), EdgesOf(Commit(st, p).dag);
    if Closed(f, st.ledger + {p.id}) {
      forall v | v in Children(e, p.id) ensures v in st.ledger + {p.id} {
        assert (p.id, v) in f;
      }
    }
    if Children(e, p.id) <= st.ledger + {p.id} {
      forall u, v | u in st.ledger + {p.id} && (u, v) in f ensures v in st.ledger + {p.id} {
        if u == p.id && (u, v) in e { assert (u, v).1 in Children(e, p.id); }
      }
    }
  }

  lemma EffectClosed(st: Store, a: Atomic)
    requires Closed(EdgesOf(st.dag), st.ledger)
    ensures Closed(EdgesOf(Effect(st, a).dag), Effect(st, a).ledger) <==> KeepsClosed(st, a)
  {
    hide EdgesOf, Closed, Decide, WithGap, Closure, CommitHarmless, Commit;
    match a {
      case Submitted(sub, now) =>
        var p := WithGap(sub.payload, st.dag);
        CommitLedger(st, p);
        CommitClosed(st, p);
        RefusalClosed(st, p);
      case Committed(p) =>
        CommitLedger(st, p);
        CommitClosed(st, p);
      case Marked(root) => QuarantineKeepsClosed(st, root);
      case Seeded(root, key) =>
        CommitLedger(st, SeedNode(root, key));
        CommitClosed(st, SeedNode(root, key));
        SeedHarmless(st, root, key);
    }
  }

  lemma CommitLedger(st: Store, p: Payload)
    ensures Commit(st, p).ledger == st.ledger
  {
  }

  lemma SeedHarmless(st: Store, root: Id, key: string)
    ensures CommitHarmless(st, SeedNode(root, key))
  {
    assert Sources(SeedNode(root, key)) == {};
  }

  ghost predicate ClosedThroughout(st: Store, log: seq<Atomic>) {
    forall k :: 0 <= k <= |log| ==> Closed(EdgesOf(Replay(st, log[..k]).dag), Replay(st, log[..k]).ledger)
  }

  ghost predicate KeptThroughout(st: Store, log: seq<Atomic>) {
    forall k :: 0 <= k < |log| ==> KeepsClosed(Replay(st, log[..k]), log[k])
  }

  lemma ReplayAt(st: Store, log: seq<Atomic>, k: nat)
    requires k < |log|
    ensures Replay(st, log[..k + 1]) == Effect(Replay(st, log[..k]), log[k])
  {
    assert log[..k + 1] == log[..k] + [log[k]];
    ReplayStep(st, log[..k], log[k]);
  }

  lemma {:induction false} KeptIsClosed(st: Store, log: seq<Atomic>, k: nat)
    requires Closed(EdgesOf(st.dag), st.ledger) && KeptThroughout(st, log) && k <= |log|
    ensures Closed(EdgesOf(Replay(st, log[..k]).dag), Replay(st, log[..k]).ledger)
    decreases k
  {
    hide EdgesOf, Closed, Effect, KeepsClosed;
    if k > 0 {
      KeptIsClosed(st, log, k - 1);
      ReplayAt(st, log, k - 1);
      EffectClosed(Replay(st, log[..k - 1]), log[k - 1]);
    }
  }

  lemma ClosedIffKept(st: Store, log: seq<Atomic>)
    requires Closed(EdgesOf(st.dag), st.ledger)
    ensures ClosedThroughout(st, log) <==> KeptThroughout(st, log)
  {
    hide EdgesOf, Closed, Effect, KeepsClosed, Replay;
    if KeptThroughout(st, log) {
      forall k | 0 <= k <= |log| ensures Closed(EdgesOf(Replay(st, log[..k]).dag), Replay(st, log[..k]).ledger) {
        KeptIsClosed(st, log, k);
      }
    }
    if ClosedThroughout(st, log) {
      forall k | 0 <= k < |log| ensures KeepsClosed(Replay(st, log[..k]), log[k]) {
        ReplayAt(st, log, k);
        EffectClosed(Replay(st, log[..k]), log[k]);
      }
    }
  }

  /**
   * A compaction is checked before its commit takes the lock. With clean sources at the check and a designation
   * in between, the commit keeps the ledger closed exactly when the designation reached none of its sources.
   */
  lemma CheckThenCommit(st: Store, root: Id, p: Payload)
    requires Closed(EdgesOf(st.dag), st.ledger) && root in st.dag && root !in st.ledger
    requires p.id !in st.dag && p.id !in st.ledger + Blast(st.dag, root) && Sources(p) !! st.ledger
    ensures var late := Replay(st, [Marked(root), Committed(p)]);
            Closed(EdgesOf(late.dag), late.ledger) <==> Sources(p) !! Blast(st.dag, root)
  {
    hide *;
    var a, b := Marked(root), Committed(p);
    ReplayTwo(st, a, b);
    MarkedStore(st, root);
    var mid := Effect(st, a);
    EffectClosed(st, a);
    MarkKeepsClosed(st, root);
    CommitClosed(mid, p);
    CommitLedger(mid, p);
    CommittedEffect(mid, p);
    HarmlessLate(st, mid, root, p);
  }

  lemma ReplayTwo(st: Store, a: Atomic, b: Atomic)
    ensures Replay(st, [a, b]) == Effect(Effect(st, a), b)
  {
    hide Effect;
    assert [a, b][..1] == [a] && [a][..0] == [];
    assert Replay(st, [a]) == Effect(Replay(st, []), a);
  }

  lemma MarkedStore(st: Store, root: Id)
    requires root in st.dag && root !in st.ledger
    ensures var mid := Effect(st, Marked(root)); mid.dag == st.dag && mid.ledger == st.ledger + Blast(st.dag, root)
  {
    hide Closure, EdgesOf;
  }

  lemma MarkKeepsClosed(st: Store, root: Id)
    ensures KeepsClosed(st, Marked(root))
  {
  }

  lemma CommittedEffect(st: Store, p: Payload)
    ensures Effect(st, Committed(p)) == Commit(st, p)
  {
    hide Commit;
  }

  lemma HarmlessLate(st: Store, mid: Store, root: Id, p: Payload)
    requires mid.dag == st.dag && mid.ledger == st.ledger + Blast(st.dag, root)
    requires p.id !in st.dag && p.id !in st.ledger + Blast(st.dag, root) && Sources(p) !! st.ledger
    ensures CommitHarmless(mid, p) <==> Sources(p) !! Blast(st.dag, root)
  {
    hide Closure, EdgesOf, Sources;
  }
}
