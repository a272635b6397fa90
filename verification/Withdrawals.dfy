/** The withdrawal ledger over whole runs: what is withdrawn, since when, and by which event. */
module Withdrawals {
  import opened Ids
  import opened Reach
  import opened Records
  import opened BlastRadius
  import opened Admission
  import opened Replacement
  import opened Gateway
  import opened Containment

  /** Event k withdraws x: its closure is within the amplification limit and holds x. */
  predicate Withdraws(log: seq<Recurrence>, k: int, x: Id) {
    0 <= k < |log| && !log[k].escalated && x in log[k].closure
  }

  /** The entry of x is owed to the earliest event that withdraws it, at that event's time. */
  ghost predicate EntryTruth(log: seq<Recurrence>, x: Id, w: Withdrawal) {
    && Withdraws(log, w.event, x)
    && (forall k :: 0 <= k < w.event ==> !Withdraws(log, k, x))
    && w.at == log[w.event].at
    && (w.direct <==> IsLeast(x, log[w.event].closure))
  }

  ghost predicate LedgerTruth(cfg: Config, log: seq<Recurrence>, ledger: map<Id, Withdrawal>) {
    && (forall x :: x in ledger <==> exists k :: Withdraws(log, k, x))
    && (forall x :: x in ledger ==> EntryTruth(log, x, ledger[x]))
    && (forall e :: e in log ==> (e.escalated <==> |e.closure| > cfg.maxAmplification))
  }

  lemma FirstIsLeast(c: set<Id>, x: Id)
    requires c != {}
    ensures x == SortedIds(c)[0] <==> IsLeast(x, c)
  {
    var s := SortedIds(c);
    forall y | y in c ensures Leq(s[0], y) {
      assert y in s;
      LeqTotal(y, y);
    }
    if IsLeast(x, c) { LeqAntisymmetric(x, s[0]); }
  }

  lemma WithdrawsLater(log: seq<Recurrence>, e: Recurrence, k: int, x: Id)
    ensures Withdraws(log + [e], k, x) <==> Withdraws(log, k, x) || (k == |log| && !e.escalated && x in e.closure)
  {
  }

  lemma RecurTruth(cfg: Config, s: State, n: Id, now: int)
    requires LedgerTruth(cfg, s.recurrences, s.withdrawals)
    ensures var t := Recur(cfg, s, n, now); LedgerTruth(cfg, t.recurrences, t.withdrawals)
  {
    hide Closure, EdgesOf, BlastRepairs, SortedIds, Withdraws, IsLeast;
    var t := Recur(cfg, s, n, now);
    var c := Blast(s.store.dag, n);
    var e := Recurrence(n, now, |c| > cfg.maxAmplification, c);
    var log, log' := s.recurrences, s.recurrences + [e];
    assert t.recurrences == log';
    ClosureIsClosed(EdgesOf(s.store.dag), {n});
    forall k, x ensures Withdraws(log', k, x) <==> Withdraws(log, k, x) || (k == |log| && !e.escalated && x in c) {
      WithdrawsLater(log, e, k, x);
    }
    TruthKeys(log, log', e, s.withdrawals, t.withdrawals, SortedIds(c), now);
    forall x | x in t.withdrawals ensures EntryTruth(log', x, t.withdrawals[x]) {
      if x in s.withdrawals {
        OldEntry(log, e, x, s.withdrawals[x]);
      } else {
        FirstIsLeast(c, x);
        assert forall k :: !Withdraws(log, k, x);
        NewEntry(log, e, x, t.withdrawals[x]);
      }
    }
  }

  lemma TruthKeys(log: seq<Recurrence>, log': seq<Recurrence>, e: Recurrence, w: map<Id, Withdrawal>, w': map<Id, Withdrawal>, ids: seq<Id>, now: int)
    requires forall x :: x in w <==> exists k :: Withdraws(log, k, x)
    requires forall x :: x in ids <==> x in e.closure
    requires w' == if e.escalated then w else Withdrawn(w, ids, |log|, now)
    requires forall k, x :: Withdraws(log', k, x) <==> Withdraws(log, k, x) || (k == |log| && !e.escalated && x in e.closure)
    ensures forall x :: x in w' <==> exists k :: Withdraws(log', k, x)
  {
    hide Withdraws;
    forall x ensures x in w' <==> exists k :: Withdraws(log', k, x) {
      if x in w {
        var k :| Withdraws(log, k, x);
        assert Withdraws(log', k, x);
      } else if x in w' {
        assert x in ids;
        assert Withdraws(log', |log|, x);
      }
    }
  }

  lemma OldEntry(log: seq<Recurrence>, e: Recurrence, x: Id, w: Withdrawal)
    requires EntryTruth(log, x, w)
    ensures EntryTruth(log + [e], x, w)
  {
    hide IsLeast;
    assert (log + [e])[w.event] == log[w.event];
    forall k | 0 <= k <= w.event ensures Withdraws(log + [e], k, x) <==> Withdraws(log, k, x) {
      WithdrawsLater(log, e, k, x);
    }
  }

  lemma NewEntry(log: seq<Recurrence>, e: Recurrence, x: Id, w: Withdrawal)
    requires w.event == |log| && w.at == e.at && (w.direct <==> IsLeast(x, e.closure))
    requires !e.escalated && x in e.closure && forall k :: !Withdraws(log, k, x)
    ensures EntryTruth(log + [e], x, w)
  {
    hide IsLeast;
    forall k | 0 <= k < w.event ensures !Withdraws(log + [e], k, x) {
      WithdrawsLater(log, e, k, x);
    }
  }

  lemma {:induction false} RecurAllTruth(cfg: Config, s: State, ids: seq<Id>, active: set<Id>, now: int)
    requires LedgerTruth(cfg, s.recurrences, s.withdrawals)
    ensures var t := RecurAll(cfg, s, ids, active, now); LedgerTruth(cfg, t.recurrences, t.withdrawals)
    decreases |ids|
  {
    hide LedgerTruth, Recur;
    if ids != [] {
      RecurAllTruth(cfg, s, ids[..|ids| - 1], active, now);
      RecurTruth(cfg, RecurAll(cfg, s, ids[..|ids| - 1], active, now), ids[|ids| - 1], now);
    }
  }

  // ---- Steps that leave the withdrawal records alone ----

  ghost predicate Truthful(cfg: Config, s: State) {
    LedgerTruth(cfg, s.recurrences, s.withdrawals)
  }

  lemma ContainTruth(cfg: Config, s: State, root: Id, now: int)
    requires Truthful(cfg, s)
    ensures Truthful(cfg, Contain(cfg, s, root, now))
  {
    hide LedgerTruth, RecurAll, Closure, EdgesOf, BlastRepairs, Active;
    var s1 := s.(repairs := BlastRepairs(s, root));
    RecurAllTruth(cfg, s1, SortedIds(Blast(s.store.dag, root)), Active(s1, now), now);
  }

  lemma RejectTruth(cfg: Config, s: State, p: Payload, root: Id, now: int)
    requires Truthful(cfg, s)
    ensures Truthful(cfg, Reject(cfg, s, p, root, now).0)
  {
    hide LedgerTruth, RecurAll, Closure, EdgesOf, BlastRepairs, Active, FindReplacement, RejectionEvent, Offered;
    var s1 := s.(store := Commit(s.store, p));
    var s2 := s1.(repairs := BlastRepairs(s1, root));
    RecurAllTruth(cfg, s2, SortedIds(Blast(s1.store.dag, root)), Active(s2, now), now);
  }

  lemma DesignateTruth(cfg: Config, s: State, root: Id, token: string, now: int)
    requires Truthful(cfg, s)
    ensures Truthful(cfg, Designate(cfg, s, root, token, now).0)
  {
    hide LedgerTruth, Contain, Continue, Reconstruct, Closure, EdgesOf, Critical;
    ContainTruth(cfg, s, root, now);
    var s1 := Contain(cfg, s, root, now);
    var c := Blast(s.store.dag, root);
    ContinueKeeps(s1, s1, Critical(s1.store.dag, s1.store.order, c), token, now);
    ReconstructKeeps(cfg, Continuity(cfg, s1, c, token, now), root, token, now);
  }

  lemma AcceptRecords(s: State, p: Payload)
    ensures Accept(s, p).0.recurrences == s.recurrences && Accept(s, p).0.withdrawals == s.withdrawals
  {
    hide FirstMismatch, Completed;
  }

  lemma SubmitTruth(cfg: Config, s: State, sub: Submission, now: int)
    requires Truthful(cfg, s)
    ensures Truthful(cfg, Submit(cfg, s, sub, now).0)
  {
    hide LedgerTruth, Submit, Reject, Accept, Evaluate, WithGap, Considered;
    var p := WithGap(sub.payload, s.store.dag);
    SubmitBranches(cfg, s, sub, now);
    AcceptRecords(s, p);
    match Evaluate(sub.payload, s.store, sub.auth, now) {
      case TaintedParent(root) => RejectTruth(cfg, s, p, root, now);
      case _ =>
    }
  }

  lemma StepTruth(cfg: Config, s: State, r: Request)
    requires Truthful(cfg, s)
    ensures Truthful(cfg, Next(cfg, s, r))
  {
    hide LedgerTruth, Submit, Designate, Recur, CompactionPayload, Tainted, Upserted;
    match r {
      case SubmitCandidate(sub, now) => SubmitTruth(cfg, s, sub, now);
      case DesignatePoison(root, token, now) => DesignateTruth(cfg, s, root, token, now);
      case Observe(n, now) => RecurTruth(cfg, s, n, now);
      case _ =>
    }
  }

  /**
   * After any run the withdrawn ids are those in the closure of some event within the amplification limit,
   * each entry is owed to the earliest such event, and events over the limit withdraw nothing.
   */
  lemma {:induction false} RunTruth(cfg: Config, key: string, rs: seq<Request>)
    ensures Truthful(cfg, Run(cfg, Initial(key), rs))
    decreases |rs|
  {
    hide LedgerTruth, Next;
    if rs == [] {
      NothingWithdrawn(cfg, key);
    } else {
      RunTruth(cfg, key, rs[..|rs| - 1]);
      StepTruth(cfg, Run(cfg, Initial(key), rs[..|rs| - 1]), rs[|rs| - 1]);
    }
  }

  /** Everything withdrawn by the logged events. */
  function WithdrawnBy(log: seq<Recurrence>): set<Id> {
    if log == [] then {} else
      WithdrawnBy(log[..|log| - 1]) + if log[|log| - 1].escalated then {} else log[|log| - 1].closure
  }

  lemma {:induction false} WithdrawnByMeaning(log: seq<Recurrence>, x: Id)
    ensures x in WithdrawnBy(log) <==> exists k :: Withdraws(log, k, x)
    decreases |log|
  {
    if log == [] {
      assert forall k :: !Withdraws(log, k, x);
    } else {
      var n := |log| - 1;
      WithdrawnByMeaning(log[..n], x);
      if k :| Withdraws(log[..n], k, x) {
        assert Withdraws(log, k, x);
      }
      if k :| Withdraws(log, k, x) {
        assert k < n ==> Withdraws(log[..n], k, x);
      }
      assert !log[n].escalated && x in log[n].closure ==> Withdraws(log, n, x);
    }
  }

  /** After any run the withdrawn ids are the union of the closures of the events within the amplification limit. */
  lemma WithdrawnIsUnion(cfg: Config, key: string, rs: seq<Request>)
    ensures Run(cfg, Initial(key), rs).withdrawals.Keys == WithdrawnBy(Run(cfg, Initial(key), rs).recurrences)
  {
    hide Run, Withdraws, EntryTruth;
    RunTruth(cfg, key, rs);
    var s := Run(cfg, Initial(key), rs);
    forall x ensures x in s.withdrawals <==> x in WithdrawnBy(s.recurrences) {
      WithdrawnByMeaning(s.recurrences, x);
    }
  }

  /** After any run each entry is owed to the earliest event that withdraws its id, at that event's time. */
  lemma WithdrawnByEarliest(cfg: Config, key: string, rs: seq<Request>)
    ensures var s := Run(cfg, Initial(key), rs);
            forall x :: x in s.withdrawals ==> EntryTruth(s.recurrences, x, s.withdrawals[x])
  {
    hide Run, EntryTruth;
    RunTruth(cfg, key, rs);
  }

  lemma NothingWithdrawn(cfg: Config, key: string)
    ensures LedgerTruth(cfg, Initial(key).recurrences, Initial(key).withdrawals)
  {
  }

  // ---- What the events saw ----

  /** The event saw the closure of its node in this graph, at this time. */
  ghost predicate Saw(dag: Dag, now: int, e: Recurrence) {
    e.closure == Blast(dag, e.node) && e.at == now
  }

  /** The log was extended by events that all saw this graph. */
  ghost predicate LogGrew(log: seq<Recurrence>, log': seq<Recurrence>, dag: Dag, now: int) {
    && log <= log'
    && forall k :: |log| <= k < |log'| ==> Saw(dag, now, log'[k])
  }

  lemma LogSame(log: seq<Recurrence>, dag: Dag, now: int)
    ensures LogGrew(log, log, dag, now)
  {
  }

  lemma LogAppend(log: seq<Recurrence>, log': seq<Recurrence>, e: Recurrence, dag: Dag, now: int)
    requires LogGrew(log, log', dag, now) && Saw(dag, now, e)
    ensures LogGrew(log, log' + [e], dag, now)
  {
    hide Saw;
  }

  lemma {:induction false} RecurAllSaw(cfg: Config, s: State, ids: seq<Id>, active: set<Id>, now: int)
    ensures LogGrew(s.recurrences, RecurAll(cfg, s, ids, active, now).recurrences, s.store.dag, now)
    decreases |ids|
  {
    hide BlastRepairs, Closure, EdgesOf, LogGrew, Withdrawn;
    if ids == [] {
      LogSame(s.recurrences, s.store.dag, now);
    } else {
      var n := |ids| - 1;
      RecurAllSaw(cfg, s, ids[..n], active, now);
      RecurAllKeeps(cfg, s, ids[..n], active, now);
      var before := RecurAll(cfg, s, ids[..n], active, now);
      if ids[n] in active {
        var c := Blast(s.store.dag, ids[n]);
        LogAppend(s.recurrences, before.recurrences, Recurrence(ids[n], now, |c| > cfg.maxAmplification, c), s.store.dag, now);
      }
    }
  }

  lemma AssessSaw(cfg: Config, s: State, root: Id, now: int)
    ensures LogGrew(s.recurrences, Assess(cfg, s, root, now).recurrences, s.store.dag, now)
  {
    hide BlastRepairs, Closure, EdgesOf, LogGrew, Active, RecurAll;
    var s1 := s.(repairs := BlastRepairs(s, root));
    RecurAllSaw(cfg, s1, SortedIds(Blast(s.store.dag, root)), Active(s1, now), now);
  }

  /** The graph a request traverses: a refused write is committed before the traversal, a designation is not yet quarantined. */
  ghost function Traversed(s: State, r: Request): Dag {
    match r
    case SubmitCandidate(sub, _) => Commit(s.store, WithGap(sub.payload, s.store.dag)).dag
    case _ => s.store.dag
  }

  function TimeOf(r: Request): int {
    match r
    case SubmitCandidate(_, now) => now
    case DesignatePoison(_, _, now) => now
    case Observe(_, now) => now
    case _ => 0
  }

  lemma SubmitSaw(cfg: Config, s: State, sub: Submission, now: int)
    ensures LogGrew(s.recurrences, Submit(cfg, s, sub, now).0.recurrences, Commit(s.store, WithGap(sub.payload, s.store.dag)).dag, now)
  {
    hide LogGrew, Submit, Reject, Accept, Evaluate, WithGap, Considered, Commit;
    var p := WithGap(sub.payload, s.store.dag);
    var dag := Commit(s.store, p).dag;
    SubmitBranches(cfg, s, sub, now);
    AcceptRecords(s, p);
    LogSame(s.recurrences, dag, now);
    match Evaluate(sub.payload, s.store, sub.auth, now) {
      case TaintedParent(root) =>
        AssessSaw(cfg, s.(store := Commit(s.store, p)), root, now);
        RejectLog(cfg, s, p, root, now);
      case _ =>
    }
  }

  lemma RejectLog(cfg: Config, s: State, p: Payload, root: Id, now: int)
    ensures Reject(cfg, s, p, root, now).0.recurrences == Assess(cfg, s.(store := Commit(s.store, p)), root, now).recurrences
  {
    hide Assess, FindReplacement, RejectionEvent, Offered, Commit, Closure, EdgesOf;
  }

  lemma DesignateSaw(cfg: Config, s: State, root: Id, token: string, now: int)
    ensures LogGrew(s.recurrences, Designate(cfg, s, root, token, now).0.recurrences, s.store.dag, now)
  {
    hide LogGrew, Assess, Continue, Reconstruct, Closure, EdgesOf, Critical;
    LogSame(s.recurrences, s.store.dag, now);
    AssessSaw(cfg, s, root, now);
    var s1 := Contain(cfg, s, root, now);
    var c := Blast(s.store.dag, root);
    ContinueKeeps(s1, s1, Critical(s1.store.dag, s1.store.order, c), token, now);
    ReconstructKeeps(cfg, Continuity(cfg, s1, c, token, now), root, token, now);
  }

  lemma StepSaw(cfg: Config, s: State, r: Request)
    ensures LogGrew(s.recurrences, Next(cfg, s, r).recurrences, Traversed(s, r), TimeOf(r))
  {
    hide LogGrew, Submit, Designate, CompactionPayload, Tainted, Upserted, BlastRepairs, Closure, EdgesOf, Withdrawn;
    LogSame(s.recurrences, s.store.dag, TimeOf(r));
    match r {
      case SubmitCandidate(sub, now) => SubmitSaw(cfg, s, sub, now);
      case DesignatePoison(root, token, now) => DesignateSaw(cfg, s, root, token, now);
      case Observe(n, now) =>
        var c := Blast(s.store.dag, n);
        LogAppend(s.recurrences, s.recurrences, Recurrence(n, now, |c| > cfg.maxAmplification, c), s.store.dag, now);
      case _ =>
    }
  }

  /**
   * Each event of a run was logged by one of its requests, and its closure is the closure of its node in the
   * graph that request traversed.
   */
  lemma {:induction false} LoggedClosures(cfg: Config, key: string, rs: seq<Request>, k: nat) returns (i: nat)
    requires k < |Run(cfg, Initial(key), rs).recurrences|
    ensures i < |rs|
    ensures var s := Run(cfg, Initial(key), rs[..i]);
            && |s.recurrences| <= k
            && Saw(Traversed(s, rs[i]), TimeOf(rs[i]), Run(cfg, Initial(key), rs).recurrences[k])
    decreases |rs|
  {
    hide Next, Saw, Traversed;
    var n := |rs| - 1;
    var s := Run(cfg, Initial(key), rs[..n]);
    StepSaw(cfg, s, rs[n]);
    if k < |s.recurrences| {
      i := LoggedClosures(cfg, key, rs[..n], k);
      assert rs[..n][..i] == rs[..i];
    } else {
      i := n;
    }
  }

  /** The log of a step records the closure of the observed node at that time; the node itself is labelled direct only when it is least. */
  lemma ObservedEvent(cfg: Config, s: State, n: Id, now: int)
    requires Truthful(cfg, s)
    ensures var t := Recur(cfg, s, n, now);
            var c := Blast(s.store.dag, n);
            && t.recurrences == s.recurrences + [Recurrence(n, now, |c| > cfg.maxAmplification, c)]
            && (|c| > cfg.maxAmplification ==> t.withdrawals == s.withdrawals)
            && (|c| <= cfg.maxAmplification ==> t.withdrawals.Keys == s.withdrawals.Keys + c)
            && (|c| <= cfg.maxAmplification && n !in s.withdrawals ==>
                 n in t.withdrawals && (t.withdrawals[n].direct <==> forall x :: x in c ==> Leq(n, x)))
  {
    hide Closure, EdgesOf, BlastRepairs, SortedIds, Withdraws;
    var c := Blast(s.store.dag, n);
    ClosureIsClosed(EdgesOf(s.store.dag), {n});
    assert n in {n};
    FirstIsLeast(c, n);
    assert Elements(SortedIds(c)) == c;
  }
}
