/** Which recurrences a designation or a refusal processes: one per active node it reaches, in id order. */
module Recurrences {
  import opened Ids
  import opened Reach
  import opened Records
  import opened BlastRadius
  import opened Admission
  import opened Replacement
  import opened Gateway
  import opened Judgement
  import opened Containment
  import opened Dispositions
  import opened Submissions

  /** The nodes of the closure that are still inside their reintegration horizon. */
  ghost function ActiveBelow(dag: Dag, horizon: map<Id, int>, root: Id, now: int): set<Id> {
    set x | x in Blast(dag, root) && x in horizon && horizon[x] > now
  }

  /** The event that a recurrence of x logs: its own closure, escalated when that is too large. */
  ghost function EventOf(cfg: Config, dag: Dag, now: int, x: Id): Recurrence {
    Recurrence(x, now, |Blast(dag, x)| > cfg.maxAmplification, Blast(dag, x))
  }

  ghost function EventsOf(cfg: Config, dag: Dag, now: int, ids: seq<Id>): seq<Recurrence> {
    seq(|ids|, i requires 0 <= i < |ids| => EventOf(cfg, dag, now, ids[i]))
  }

  /** x is in the closure of one of the ids, and that closure is within the amplification limit. */
  ghost predicate WithdrawnThrough(cfg: Config, dag: Dag, ids: set<Id>, x: Id) {
    exists n :: n in ids && |Blast(dag, n)| <= cfg.maxAmplification && x in Blast(dag, n)
  }

  /**
   * The log gains one event per active node below the root, in id order, and the withdrawal ledger gains the closures
   * of those within the limit; entries already there stay.
   */
  ghost predicate Recurred(cfg: Config, dag: Dag, horizon: map<Id, int>, root: Id, now: int, s: State, t: State) {
    var active := ActiveBelow(dag, horizon, root, now);
    && t.recurrences == s.recurrences + EventsOf(cfg, dag, now, SortedIds(active))
    && (forall x :: x in t.withdrawals <==> x in s.withdrawals || WithdrawnThrough(cfg, dag, active, x))
    && (forall x :: x in s.withdrawals ==> t.withdrawals[x] == s.withdrawals[x])
  }

  // ---- Folding the recurrences ----

  /** The same for an explicit list of processed nodes. */
  ghost predicate Processed(cfg: Config, dag: Dag, now: int, ids: seq<Id>, s: State, t: State) {
    && t.recurrences == s.recurrences + EventsOf(cfg, dag, now, ids)
    && (forall x :: x in t.withdrawals <==> x in s.withdrawals || WithdrawnThrough(cfg, dag, Elements(ids), x))
    && (forall x :: x in s.withdrawals ==> t.withdrawals[x] == s.withdrawals[x])
  }

  lemma NoneProcessed(cfg: Config, dag: Dag, now: int, s: State)
    ensures Processed(cfg, dag, now, [], s, s)
  {
    hide Closure, EdgesOf;
    assert s.recurrences + EventsOf(cfg, dag, now, []) == s.recurrences;
  }

  lemma MoreEvents(cfg: Config, dag: Dag, now: int, ids: seq<Id>, n: Id)
    ensures EventsOf(cfg, dag, now, ids + [n]) == EventsOf(cfg, dag, now, ids) + [EventOf(cfg, dag, now, n)]
  {
    hide EventOf;
  }

  lemma MoreWithdrawn(cfg: Config, dag: Dag, ids: seq<Id>, n: Id, x: Id)
    ensures WithdrawnThrough(cfg, dag, Elements(ids + [n]), x) <==>
      WithdrawnThrough(cfg, dag, Elements(ids), x) || (|Blast(dag, n)| <= cfg.maxAmplification && x in Blast(dag, n))
  {
    hide Closure, EdgesOf;
    assert forall m :: m in Elements(ids + [n]) <==> m in Elements(ids) || m == n;
    assert n in Elements(ids + [n]);
  }

  lemma WithdrawnKeys(w: map<Id, Withdrawal>, c: set<Id>, event: nat, now: int)
    ensures var w' := Withdrawn(w, SortedIds(c), event, now);
            && (forall x :: x in w' <==> x in w || x in c)
            && (forall x :: x in w ==> w'[x] == w[x])
  {
  }

  lemma RecurUnfolds(cfg: Config, t: State, n: Id, now: int)
    ensures var (u, c) := (Recur(cfg, t, n, now), Blast(t.store.dag, n));
            && u.recurrences == t.recurrences + [EventOf(cfg, t.store.dag, now, n)]
            && u.withdrawals == if |c| <= cfg.maxAmplification then Withdrawn(t.withdrawals, SortedIds(c), |t.recurrences|, now) else t.withdrawals
  {
    hide Closure, EdgesOf, BlastRepairs, Withdrawn;
  }

  lemma OneMore(cfg: Config, s: State, t: State, ids: seq<Id>, n: Id, now: int)
    requires Processed(cfg, s.store.dag, now, ids, s, t) && t.store == s.store
    ensures Processed(cfg, s.store.dag, now, ids + [n], s, Recur(cfg, t, n, now))
  {
    hide Closure, EdgesOf, BlastRepairs, EventsOf, WithdrawnThrough, Withdrawn, Recur, EventOf, Elements;
    MoreEvents(cfg, s.store.dag, now, ids, n);
    RecurUnfolds(cfg, t, n, now);
    MoreWithdrawals(cfg, s, t, ids, n, now);
  }

  lemma MoreWithdrawals(cfg: Config, s: State, t: State, ids: seq<Id>, n: Id, now: int)
    requires Processed(cfg, s.store.dag, now, ids, s, t) && t.store == s.store
    ensures var w := Recur(cfg, t, n, now).withdrawals;
            && (forall x :: x in w <==> x in s.withdrawals || WithdrawnThrough(cfg, s.store.dag, Elements(ids + [n]), x))
            && (forall x :: x in s.withdrawals ==> w[x] == s.withdrawals[x])
  {
    hide Closure, EdgesOf, BlastRepairs, EventsOf, WithdrawnThrough, Withdrawn, Recur, EventOf, Elements;
    var dag := s.store.dag;
    RecurUnfolds(cfg, t, n, now);
    WithdrawnKeys(t.withdrawals, Blast(dag, n), |t.recurrences|, now);
    forall x ensures WithdrawnThrough(cfg, dag, Elements(ids + [n]), x) <==>
      WithdrawnThrough(cfg, dag, Elements(ids), x) || (|Blast(dag, n)| <= cfg.maxAmplification && x in Blast(dag, n))
    {
      MoreWithdrawn(cfg, dag, ids, n, x);
    }
  }

  lemma {:induction false} AllProcessed(cfg: Config, s: State, ids: seq<Id>, active: set<Id>, now: int)
    ensures Processed(cfg, s.store.dag, now, ActiveIn(ids, active), s, RecurAll(cfg, s, ids, active, now))
    decreases |ids|
  {
    hide Processed, Recur;
    if ids == [] {
      NoneProcessed(cfg, s.store.dag, now, s);
    } else {
      var n := |ids| - 1;
      AllProcessed(cfg, s, ids[..n], active, now);
      RecurAllKeeps(cfg, s, ids[..n], active, now);
      if ids[n] in active {
        OneMore(cfg, s, RecurAll(cfg, s, ids[..n], active, now), ActiveIn(ids[..n], active), ids[n], now);
      } else {
        assert ActiveIn(ids, active) == ActiveIn(ids[..n], active);
      }
    }
  }

  lemma {:induction false} ActiveInAscends(ids: seq<Id>, active: set<Id>)
    requires Ascending(ids)
    ensures Ascending(ActiveIn(ids, active))
    decreases |ids|
  {
    hide Leq;
    if ids != [] {
      var n := |ids| - 1;
      ActiveInAscends(ids[..n], active);
      ActiveInMembers(ids[..n], active);
      var r := ActiveIn(ids[..n], active);
      forall i | 0 <= i < |r| ensures Leq(r[i], ids[n]) && r[i] != ids[n] {
        assert r[i] in r;
        var j :| 0 <= j < n && ids[j] == r[i];
      }
    }
  }

  /** The active nodes of an ascending listing are the ascending listing of its active nodes. */
  lemma ActiveInSorted(c: set<Id>, active: set<Id>)
    ensures ActiveIn(SortedIds(c), active) == SortedIds(c * active)
  {
    hide Leq;
    ActiveInAscends(SortedIds(c), active);
    ActiveInMembers(SortedIds(c), active);
    AscendingIsCanonical(ActiveIn(SortedIds(c), active), SortedIds(c * active));
  }

  lemma AssessRecurs(cfg: Config, s: State, root: Id, now: int)
    ensures Recurred(cfg, s.store.dag, s.horizon, root, now, s, Assess(cfg, s, root, now))
  {
    hide *;
    AssessUnfolds(cfg, s, root, now);
    var s1 := s.(repairs := BlastRepairs(s, root));
    var c := Blast(s.store.dag, root);
    AllProcessed(cfg, s1, SortedIds(c), Active(s1, now), now);
    ActiveInSorted(c, Active(s1, now));
    ActiveBelowMeaning(s1, root, now);
    ProcessedIsRecurred(cfg, s1, root, now, Assess(cfg, s, root, now));
    RecurredDepends(cfg, s.store.dag, s.horizon, root, now, s1, Assess(cfg, s, root, now), s, Assess(cfg, s, root, now));
  }

  lemma AssessUnfolds(cfg: Config, s: State, root: Id, now: int)
    ensures var s1 := s.(repairs := BlastRepairs(s, root));
            Assess(cfg, s, root, now) == RecurAll(cfg, s1, SortedIds(Blast(s.store.dag, root)), Active(s1, now), now)
  {
    hide RecurAll, BlastRepairs, Active, Closure, EdgesOf;
  }

  lemma ActiveBelowMeaning(s: State, root: Id, now: int)
    ensures ActiveBelow(s.store.dag, s.horizon, root, now) == Blast(s.store.dag, root) * Active(s, now)
  {
    hide Closure, EdgesOf;
  }

  lemma ProcessedIsRecurred(cfg: Config, s: State, root: Id, now: int, t: State)
    requires Processed(cfg, s.store.dag, now, SortedIds(ActiveBelow(s.store.dag, s.horizon, root, now)), s, t)
    ensures Recurred(cfg, s.store.dag, s.horizon, root, now, s, t)
  {
    hide ActiveBelow, EventsOf, WithdrawnThrough, Closure, EdgesOf;
    var active := ActiveBelow(s.store.dag, s.horizon, root, now);
    assert Elements(SortedIds(active)) == active;
  }

  lemma RecurredDepends(cfg: Config, dag: Dag, horizon: map<Id, int>, root: Id, now: int, s: State, t: State, s': State, t': State)
    requires Recurred(cfg, dag, horizon, root, now, s, t)
    requires s'.recurrences == s.recurrences && s'.withdrawals == s.withdrawals
    requires t'.recurrences == t.recurrences && t'.withdrawals == t.withdrawals
    ensures Recurred(cfg, dag, horizon, root, now, s', t')
  {
    hide Closure, EdgesOf, EventsOf, WithdrawnThrough, ActiveBelow;
  }

  // ---- Whole requests ----

  /** A designation that takes effect processes every active node of its closure, as it stood before the request. */
  lemma DesignationRecurs(cfg: Config, s: State, root: Id, token: string, now: int)
    requires root in s.store.dag && root !in s.store.ledger
    ensures Recurred(cfg, s.store.dag, s.horizon, root, now, s, Designate(cfg, s, root, token, now).0)
  {
    hide Recurred, Assess, Continue, Reconstruct, Closure, EdgesOf, Critical;
    AssessRecurs(cfg, s, root, now);
    var s1, c := Contain(cfg, s, root, now), Blast(s.store.dag, root);
    ContinueKeeps(s1, s1, Critical(s1.store.dag, s1.store.order, c), token, now);
    ReconstructKeeps(cfg, Continuity(cfg, s1, c, token, now), root, token, now);
    RecurredDepends(cfg, s.store.dag, s.horizon, root, now, s, Assess(cfg, s, root, now), s, Designate(cfg, s, root, token, now).0);
  }

  lemma RejectRecurs(cfg: Config, s: State, p: Payload, root: Id, now: int)
    ensures var t := Reject(cfg, s, p, root, now).0;
            Recurred(cfg, t.store.dag, s.horizon, root, now, s, t)
  {
    hide Recurred, Assess, FindReplacement, RejectionEvent, Offered, Commit, Closure, EdgesOf;
    var s1 := s.(store := Commit(s.store, p));
    var t := Reject(cfg, s, p, root, now).0;
    AssessRecurs(cfg, s1, root, now);
    RecurredDepends(cfg, s1.store.dag, s.horizon, root, now, s1, Assess(cfg, s1, root, now), s, t);
  }

  lemma UnchangedDesignation(cfg: Config, s: State, root: Id, token: string, now: int)
    requires root !in s.store.dag || root in s.store.ledger
    ensures Designate(cfg, s, root, token, now).0 == s
  {
  }

  /** A refusal processes every active node below the parent it names, over the graph that already holds the write. */
  lemma RefusalRecurs(cfg: Config, s: State, sub: Submission, now: int)
    requires Submit(cfg, s, sub, now).1.TaintedLineage?
    ensures var (t, resp) := Submit(cfg, s, sub, now);
            Recurred(cfg, t.store.dag, s.horizon, resp.event.root, now, s, t)
  {
    hide Submit, Evaluate, WithGap, Reject, Accept, Recurred, Closure, EdgesOf, Considered;
    var p := WithGap(sub.payload, s.store.dag);
    SubmitBranches(cfg, s, sub, now);
    SubmitReply(cfg, s, sub, now);
    AcceptNeverTainted(s, p);
    var root := Evaluate(sub.payload, s.store, sub.auth, now).root;
    RejectEvent(cfg, s, p, root, now);
    EventRoot(Commit(s.store, p).dag, s.store.ledger, p.id, root, now);
    RejectRecurs(cfg, s, p, root, now);
  }

  lemma EventRoot(dag: Dag, ledger: set<Id>, node: Id, root: Id, now: int)
    ensures RejectionEvent(dag, ledger, node, root, now).root == root
  {
    hide Closure, EdgesOf;
  }

  lemma CompactRecords(s: State, ev: CompactionEvent, valid: bool)
    ensures var t := Compact(s, ev, valid).0; t.recurrences == s.recurrences && t.withdrawals == s.withdrawals
  {
    hide CompactionPayload, Tainted, Commit;
  }

  /** No other request logs or withdraws anything, but for an observation, which processes its own node. */
  lemma OthersDoNotRecur(cfg: Config, s: State, r: Request)
    requires match r
             case DesignatePoison(root, _, _) => root !in s.store.dag || root in s.store.ledger
             case SubmitCandidate(sub, now) => !Submit(cfg, s, sub, now).1.TaintedLineage?
             case Observe(_, _) => false
             case _ => true
    ensures var t := Next(cfg, s, r); t.recurrences == s.recurrences && t.withdrawals == s.withdrawals
  {
    hide Submit, Designate, Recur, Compact, Upserted, Commit, ParentSet;
    match r {
      case SubmitCandidate(sub, now) => var q := SubmitStores(cfg, s, sub, now);
      case DesignatePoison(root, token, now) => UnchangedDesignation(cfg, s, root, token, now);
      case ContextCompacted(ev, valid) => CompactRecords(s, ev, valid);
      case _ =>
    }
  }

  /** An observation processes its node once, whatever its horizon, and judges what that node's traversal reaches. */
  lemma ObservationRecurs(cfg: Config, s: State, n: Id, now: int)
    ensures var t := Next(cfg, s, Observe(n, now));
            && Processed(cfg, s.store.dag, now, [n], s, t)
            && SettlesAll(s, [n], t.repairs)
            && t == s.(repairs := t.repairs, recurrences := t.recurrences, withdrawals := t.withdrawals)
  {
    hide Processed, SettlesAll, BlastRepairs, Closure, EdgesOf, Withdrawn, Submit, Designate;
    NoneProcessed(cfg, s.store.dag, now, s);
    OneMore(cfg, s, s, [], n, now);
    SettlesStart(s);
    SettlesStep(s, s, [], n);
    assert [] + [n] == [n];
  }
}
