/** What the traversals of one designation leave in the repair table, read off the state before it. */
module Judgement {
  import opened Ids
  import opened Reach
  import opened Records
  import opened BlastRadius
  import opened Replacement
  import opened Gateway

  /** A traversal from m judges n: it first discovers n over a CARRIED commitment. */
  predicate Judges(st: Store, m: Id, n: Id) {
    n in BlastSearch(st, m).carried
  }

  /** The active ids of a listing, in its order. */
  function ActiveIn(ids: seq<Id>, active: set<Id>): seq<Id> {
    if ids == [] then []
    else ActiveIn(ids[..|ids| - 1], active) + if ids[|ids| - 1] in active then [ids[|ids| - 1]] else []
  }

  /** The traversals of a designation: from the root, then from every active node of its closure in id order. */
  ghost function Traversals(s: State, root: Id, now: int): seq<Id> {
    [root] + ActiveIn(SortedIds(Blast(s.store.dag, root)), Active(s, now))
  }

  /** Those of the traversals that judge n. */
  function JudgesOf(st: Store, traversals: seq<Id>, n: Id): seq<Id> {
    if traversals == [] then []
    else
      var m := traversals[|traversals| - 1];
      JudgesOf(st, traversals[..|traversals| - 1], n) + if Judges(st, m, n) then [m] else []
  }

  ghost function Verdict(s: State, m: Id, n: Id): Repair
    requires n in s.store.dag
  {
    Disposition(s, s.store.dag[n], Blast(s.store.dag, m))
  }

  ghost predicate AllPending(s: State, judges: seq<Id>, n: Id)
    requires n in s.store.dag
  {
    forall m :: m in judges ==> Verdict(s, m, n).Pending?
  }

  /**
   * The entry of n after the traversals: a terminal one stays, an unjudged one stays, and a judged one is pending
   * exactly when every judge finds it pending; then the last judge's frontier stands, else the first terminal verdict.
   */
  ghost predicate Settles(s: State, traversals: seq<Id>, repairs: map<Id, Repair>, n: Id) {
    var judges := JudgesOf(s.store, traversals, n);
    if Terminal(s.repairs, n) || judges == [] then
      (n in repairs <==> n in s.repairs) && (n in s.repairs ==> repairs[n] == s.repairs[n])
    else
      && n in s.store.dag && n in repairs
      && (repairs[n].Pending? <==> AllPending(s, judges, n))
      && (repairs[n].Pending? ==> repairs[n] == Verdict(s, judges[|judges| - 1], n))
      && (!repairs[n].Pending? ==> exists i :: FirstTerminal(s, judges, n, i) && repairs[n] == Verdict(s, judges[i], n))
  }

  /** Judge i is the first with a terminal verdict. */
  ghost predicate FirstTerminal(s: State, judges: seq<Id>, n: Id, i: int)
    requires n in s.store.dag
  {
    && 0 <= i < |judges| && !Verdict(s, judges[i], n).Pending?
    && forall j :: 0 <= j < i ==> Verdict(s, judges[j], n).Pending?
  }

  ghost predicate SettlesAll(s: State, traversals: seq<Id>, repairs: map<Id, Repair>) {
    forall n :: Settles(s, traversals, repairs, n)
  }

  lemma JudgedIsCommitted(st: Store, m: Id, n: Id)
    requires Judges(st, m, n)
    ensures n in st.dag
  {
    hide SearchFrom;
    SearchClassifies(st.dag, st.order, {m}, [m], n);
  }

  lemma JudgesOfMembers(st: Store, traversals: seq<Id>, n: Id)
    ensures forall m :: m in JudgesOf(st, traversals, n) <==> m in traversals && Judges(st, m, n)
    decreases |traversals|
  {
    hide Judges;
    if traversals != [] {
      JudgesOfMembers(st, traversals[..|traversals| - 1], n);
      assert traversals == traversals[..|traversals| - 1] + [traversals[|traversals| - 1]];
    }
  }

  lemma JudgesOfAppend(st: Store, traversals: seq<Id>, m: Id, n: Id)
    ensures JudgesOf(st, traversals + [m], n) ==
      if Judges(st, m, n) then JudgesOf(st, traversals, n) + [m] else JudgesOf(st, traversals, n)
  {
    hide Judges;
    assert (traversals + [m])[..|traversals|] == traversals;
    assert JudgesOf(st, traversals, n) + [] == JudgesOf(st, traversals, n);
  }

  lemma VerdictDepends(s: State, t: State, p: Payload, c: set<Id>)
    requires t.effects == s.effects && t.checkpoints == s.checkpoints
    ensures Disposition(t, p, c) == Disposition(s, p, c)
  {
  }

  /** What one more traversal does to the entry of n. */
  lemma JudgedEntry(t: State, m: Id, n: Id)
    ensures var r := BlastRepairs(t, m);
            if Judges(t.store, m, n) && !Terminal(t.repairs, n) then
              n in t.store.dag && n in r && r[n] == Verdict(t, m, n)
            else (n in r <==> n in t.repairs) && (n in t.repairs ==> r[n] == t.repairs[n])
  {
    hide Disposition, SearchFrom, Closure, EdgesOf;
    if Judges(t.store, m, n) { JudgedIsCommitted(t.store, m, n); }
    assert n in Elements(BlastSearch(t.store, m).carried) <==> Judges(t.store, m, n);
  }

  lemma AllPendingMore(s: State, judges: seq<Id>, m: Id, n: Id)
    requires n in s.store.dag
    ensures AllPending(s, [], n)
    ensures AllPending(s, judges + [m], n) <==> AllPending(s, judges, n) && Verdict(s, m, n).Pending?
  {
    hide Verdict;
    assert forall x :: x in judges + [m] <==> x in judges || x == m;
  }

  lemma SameVerdict(s: State, t: State, m: Id, n: Id)
    requires t.store == s.store && t.effects == s.effects && t.checkpoints == s.checkpoints && n in s.store.dag
    ensures Verdict(t, m, n) == Verdict(s, m, n)
  {
    hide Closure, EdgesOf;
    VerdictDepends(s, t, s.store.dag[n], Blast(s.store.dag, m));
  }

  lemma SettlesNext(s: State, t: State, traversals: seq<Id>, m: Id, n: Id)
    requires t == s.(repairs := t.repairs, recurrences := t.recurrences, withdrawals := t.withdrawals)
    requires Settles(s, traversals, t.repairs, n)
    ensures Settles(s, traversals + [m], BlastRepairs(t, m), n)
  {
    hide Verdict, AllPending, Judges, BlastRepairs, JudgesOf;
    var judges := JudgesOf(s.store, traversals, n);
    JudgedEntry(t, m, n);
    JudgesOfAppend(s.store, traversals, m, n);
    if Judges(s.store, m, n) {
      JudgedIsCommitted(s.store, m, n);
      SameVerdict(s, t, m, n);
      AllPendingMore(s, judges, m, n);
      FirstTerminalMore(s, judges, m, n);
      assert (judges + [m])[|judges|] == m;
      assert forall i :: 0 <= i < |judges| ==> (judges + [m])[i] == judges[i];
    }
  }

  lemma FirstTerminalMore(s: State, judges: seq<Id>, m: Id, n: Id)
    requires n in s.store.dag
    ensures forall i :: FirstTerminal(s, judges, n, i) ==> FirstTerminal(s, judges + [m], n, i)
    ensures AllPending(s, judges, n) && !Verdict(s, m, n).Pending? ==> FirstTerminal(s, judges + [m], n, |judges|)
  {
    hide Verdict;
    assert forall i :: 0 <= i < |judges| ==> (judges + [m])[i] == judges[i] && judges[i] in judges;
  }

  lemma SettlesStart(s: State)
    ensures SettlesAll(s, [], s.repairs)
  {
  }

  lemma SettlesStep(s: State, t: State, traversals: seq<Id>, m: Id)
    requires t == s.(repairs := t.repairs, recurrences := t.recurrences, withdrawals := t.withdrawals)
    requires SettlesAll(s, traversals, t.repairs)
    ensures SettlesAll(s, traversals + [m], BlastRepairs(t, m))
  {
    hide Settles, BlastRepairs;
    forall n ensures Settles(s, traversals + [m], BlastRepairs(t, m), n) {
      SettlesNext(s, t, traversals, m, n);
    }
  }

  lemma {:induction false} RecurAllSettles(cfg: Config, s: State, s1: State, before: seq<Id>, ids: seq<Id>, active: set<Id>, now: int)
    requires s1 == s.(repairs := s1.repairs) && SettlesAll(s, before, s1.repairs)
    ensures SettlesAll(s, before + ActiveIn(ids, active), RecurAll(cfg, s1, ids, active, now).repairs)
    decreases |ids|
  {
    hide SettlesAll, BlastRepairs, Closure, EdgesOf, Withdrawn;
    if ids == [] {
      assert before + [] == before;
    } else {
      var n := |ids| - 1;
      RecurAllSettles(cfg, s, s1, before, ids[..n], active, now);
      var t := RecurAll(cfg, s1, ids[..n], active, now);
      RecurAllKeeps(cfg, s1, ids[..n], active, now);
      var done := before + ActiveIn(ids[..n], active);
      if ids[n] in active {
        SettlesStep(s, t, done, ids[n]);
        assert done + [ids[n]] == before + ActiveIn(ids, active);
      } else {
        assert ActiveIn(ids, active) == ActiveIn(ids[..n], active);
      }
    }
  }

  /** Every entry of the repair table after containment, in terms of the state before it. */
  lemma ContainSettles(cfg: Config, s: State, root: Id, now: int)
    ensures SettlesAll(s, Traversals(s, root, now), Contain(cfg, s, root, now).repairs)
  {
    hide SettlesAll, BlastRepairs, Closure, EdgesOf, RecurAll;
    var s1 := s.(repairs := BlastRepairs(s, root));
    SettlesStart(s);
    SettlesStep(s, s, [], root);
    assert [] + [root] == [root];
    RecurAllSettles(cfg, s, s1, [root], SortedIds(Blast(s.store.dag, root)), Active(s1, now), now);
    assert Active(s1, now) == Active(s, now);
  }

  /** A refusal judges the same way, over the graph that already holds the refused write. */
  lemma RefusalSettles(cfg: Config, s: State, p: Payload, root: Id, now: int)
    ensures var s1 := s.(store := Commit(s.store, p));
            SettlesAll(s1, Traversals(s1, root, now), Reject(cfg, s, p, root, now).0.repairs)
  {
    hide SettlesAll, Traversals, Assess, Commit, FindReplacement, RejectionEvent, Offered, Closure, EdgesOf;
    ContainSettles(cfg, s.(store := Commit(s.store, p)), root, now);
  }

  // ---- Pending repairs and their frontiers ----

  /** n will be pending: not settled before, found pending by every judge, and either judged or pending already. */
  ghost predicate PendingAfter(s: State, root: Id, now: int, n: Id) {
    var judges := JudgesOf(s.store, Traversals(s, root, now), n);
    && !Terminal(s.repairs, n)
    && if judges == [] then n in PendingIn(s.repairs) else n in s.store.dag && AllPending(s, judges, n)
  }

  /** The frontier it will have: what the last judge's closure leaves of its covers, or the old one. */
  ghost function RepairAfter(s: State, root: Id, now: int, n: Id): (r: Repair)
    requires PendingAfter(s, root, now, n)
    ensures r.Pending?
  {
    var judges := JudgesOf(s.store, Traversals(s, root, now), n);
    if judges == [] then s.repairs[n] else
      assert judges[|judges| - 1] in judges;
      Verdict(s, judges[|judges| - 1], n)
  }

  lemma ContainPending(cfg: Config, s: State, root: Id, now: int, n: Id)
    ensures var r := Contain(cfg, s, root, now).repairs;
            && (n in PendingIn(r) <==> PendingAfter(s, root, now, n))
            && (n in PendingIn(r) ==> r[n] == RepairAfter(s, root, now, n))
  {
    hide Contain, Traversals, Verdict, AllPending, JudgesOf;
    ContainSettles(cfg, s, root, now);
    assert Settles(s, Traversals(s, root, now), Contain(cfg, s, root, now).repairs, n);
  }

  /** The frontier of a judged compaction is its covers without the last judge's closure. */
  lemma FrontierAfter(s: State, root: Id, now: int, n: Id)
    requires PendingAfter(s, root, now, n)
    ensures var judges := JudgesOf(s.store, Traversals(s, root, now), n);
            judges != [] ==>
              RepairAfter(s, root, now, n).frontier == FrontierOf(s.store.dag[n].covers, Blast(s.store.dag, judges[|judges| - 1]))
  {
    hide Traversals, JudgesOf, Closure, EdgesOf, FrontierOf;
  }
}
