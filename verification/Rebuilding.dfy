/** What reconstruction does with each pending compaction: the node it rebuilds, or the reason it gives up. */
module Rebuilding {
  import opened Ids
  import opened Reach
  import opened Records
  import opened BlastRadius
  import opened Gateway
  import opened Judgement
  import opened Containment
  import opened Repairs
  import opened Recurrences
  import opened Emissions

  /** The rebuilt node covers exactly the frontier and derives from it alone. */
  ghost predicate IsRebuilt(cfg: Config, token: string, n: Id, r: Repair, p: Payload)
    requires r.Pending?
  {
    && p == Bare(RebuiltId(token, n)).(
         compaction := true, parents := p.parents, covers := r.frontier, digest := "sha256:" + r.checkpoint.id,
         summarizer := if cfg.recovery.Remote? then "verified_checkpoint_reconstruction" else "",
         author := if cfg.recovery.Remote? then cfg.recovery.identity else "key:" + RebuiltId(token, n))
    && |p.parents| == |r.frontier|
    && forall i :: 0 <= i < |r.frontier| ==> p.parents[i] == Commitment(r.frontier[i], PLACEHOLDER_HASH, Compaction)
  }

  /** The adapter derives the requested frontier itself. */
  ghost predicate AdapterAnswers(st: Store, root: Id, n: Id, r: Repair)
    requires r.Pending?
  {
    AdapterAgrees(st.dag, root, if n in st.dag then st.dag[n].covers else [], r.frontier)
  }

  /** The final disposition of a pending compaction, and the node that goes with it. */
  ghost predicate SettledAs(cfg: Config, rebuilt: bool, answered: bool, token: string, now: int, n: Id, r: Repair, t: State)
    requires r.Pending?
  {
    var id := RebuiltId(token, n);
    n in t.repairs &&
    if rebuilt then
      && t.repairs[n] == Reducible(r.frontier, id)
      && id in t.horizon && t.horizon[id] == now + cfg.horizonSeconds
      && id in t.store.dag && IsRebuilt(cfg, token, n, r, t.store.dag[id])
    else t.repairs[n] == Irreducible(if answered then InvalidIdentity else BackendUnavailable)
  }

  /** The two ways one rebuild of n can go. */
  ghost predicate Outcome(cfg: Config, snapshot: Store, s: State, root: Id, n: Id, r: Repair, token: string, now: int, p: Payload, t: State)
    requires r.Pending?
  {
    var id := RebuiltId(token, n);
    if Rebuilds(cfg, snapshot, s.adapterKey, root, n, r) then
      && t.store == Commit(s.store, p) && t.horizon == s.horizon[id := now + cfg.horizonSeconds]
      && t.repairs == s.repairs[n := Reducible(r.frontier, id)]
    else
      && t.store == s.store && t.horizon == s.horizon
      && t.repairs == s.repairs[n := Irreducible(if AdapterAnswers(snapshot, root, n, r) then InvalidIdentity else BackendUnavailable)]
  }

  lemma InlineOutcome(cfg: Config, snapshot: Store, s: State, root: Id, n: Id, r: Repair, token: string, now: int)
    requires r.Pending? && cfg.recovery == Inline
    ensures var id := RebuiltId(token, n);
            Outcome(cfg, snapshot, s, root, n, r, token, now, RebuiltPayload(id, r, "", "key:" + id), Rebuild(cfg, snapshot, s, root, n, r, token, now))
  {
    hide AdapterAgrees, Commit, RebuiltId, RebuiltPayload;
  }

  lemma RemoteOutcome(cfg: Config, snapshot: Store, s: State, root: Id, n: Id, r: Repair, token: string, now: int)
    requires r.Pending? && cfg.recovery.Remote?
    ensures var (id, t) := (RebuiltId(token, n), Rebuild(cfg, snapshot, s, root, n, r, token, now));
            && Outcome(cfg, snapshot, s, root, n, r, token, now, RebuiltPayload(id, r, "verified_checkpoint_reconstruction", cfg.recovery.identity), t)
            && t.adapterKey == s.adapterKey
  {
    hide AdapterAgrees, Commit, RebuiltId, RebuiltPayload;
  }

  lemma RebuildOutcome(cfg: Config, snapshot: Store, s: State, root: Id, n: Id, r: Repair, token: string, now: int) returns (p: Payload)
    requires r.Pending?
    ensures IsRebuilt(cfg, token, n, r, p)
    ensures Outcome(cfg, snapshot, s, root, n, r, token, now, p, Rebuild(cfg, snapshot, s, root, n, r, token, now))
    ensures cfg.recovery.Remote? ==> Rebuild(cfg, snapshot, s, root, n, r, token, now).adapterKey == s.adapterKey
  {
    hide Outcome, Rebuild, RebuiltId, RebuiltPayload;
    var id := RebuiltId(token, n);
    match cfg.recovery {
      case Inline =>
        p := RebuiltPayload(id, r, "", "key:" + id);
        RebuiltFields(id, r, "", "key:" + id);
        InlineOutcome(cfg, snapshot, s, root, n, r, token, now);
      case Remote(identity) =>
        p := RebuiltPayload(id, r, "verified_checkpoint_reconstruction", identity);
        RebuiltFields(id, r, "verified_checkpoint_reconstruction", identity);
        RemoteOutcome(cfg, snapshot, s, root, n, r, token, now);
    }
  }

  /** What a rebuild of n leaves alone. */
  lemma OutcomeKeeps(cfg: Config, snapshot: Store, s: State, root: Id, n: Id, r: Repair, token: string, now: int, p: Payload, t: State)
    requires r.Pending? && Outcome(cfg, snapshot, s, root, n, r, token, now, p, t)
    ensures forall m :: m != n ==> (m in t.repairs <==> m in s.repairs) && (m in s.repairs ==> t.repairs[m] == s.repairs[m])
    ensures forall x :: x in s.store.dag ==> x in t.store.dag && t.store.dag[x] == s.store.dag[x]
    ensures forall x :: x in s.horizon ==> x in t.horizon && (x != RebuiltId(token, n) ==> t.horizon[x] == s.horizon[x])
    ensures forall x :: x in t.horizon && x !in s.horizon ==> x == RebuiltId(token, n) && Rebuilds(cfg, snapshot, s.adapterKey, root, n, r)
    ensures forall x :: x in t.store.dag && x !in s.store.dag ==> x == p.id && Rebuilds(cfg, snapshot, s.adapterKey, root, n, r)
  {
    hide Rebuilds, AdapterAnswers, RebuiltId;
  }

  lemma RebuiltFields(id: Id, r: Repair, summarizer: string, author: string)
    requires r.Pending?
    ensures var p := RebuiltPayload(id, r, summarizer, author);
            && p == Bare(id).(compaction := true, parents := p.parents, covers := r.frontier, digest := "sha256:" + r.checkpoint.id,
                              summarizer := summarizer, author := author)
            && |p.parents| == |r.frontier|
            && forall i :: 0 <= i < |r.frontier| ==> p.parents[i] == Commitment(r.frontier[i], PLACEHOLDER_HASH, Compaction)
  {
  }

  /** The pending compaction n of s is settled in t. */
  ghost predicate SettledIn(cfg: Config, s: State, root: Id, n: Id, token: string, now: int, t: State)
    requires n in PendingIn(s.repairs)
  {
    SettledAs(cfg, Rebuilds(cfg, s.store, s.adapterKey, root, n, s.repairs[n]), AdapterAnswers(s.store, root, n, s.repairs[n]),
              token, now, n, s.repairs[n], t)
  }

  /** The listed compactions are settled, and nothing else changed in repairs and horizon. */
  ghost predicate SettledThrough(cfg: Config, s: State, root: Id, comps: seq<Id>, token: string, now: int, t: State) {
    && (forall n :: n in comps ==> n in PendingIn(s.repairs) && SettledIn(cfg, s, root, n, token, now, t))
    && (forall n :: n !in comps ==> (n in t.repairs <==> n in s.repairs) && (n in s.repairs ==> t.repairs[n] == s.repairs[n]))
    && (forall x :: x in t.horizon && x !in s.horizon ==>
          exists n :: n in comps && n in PendingIn(s.repairs) && Rebuilds(cfg, s.store, s.adapterKey, root, n, s.repairs[n]) && x == RebuiltId(token, n))
    && (forall x :: x in s.horizon ==> x in t.horizon && ((forall n :: x != RebuiltId(token, n)) ==> t.horizon[x] == s.horizon[x]))
    && (forall x :: x in t.store.dag && x !in s.store.dag ==>
          exists n :: n in comps && n in PendingIn(s.repairs) && Rebuilds(cfg, s.store, s.adapterKey, root, n, s.repairs[n]) && x == RebuiltId(token, n))
  }

  lemma NothingSettled(cfg: Config, s: State, root: Id, token: string, now: int)
    ensures SettledThrough(cfg, s, root, [], token, now, s)
  {
    hide Rebuilds, AdapterAnswers, SettledAs;
  }

  lemma StaysSettled(cfg: Config, s: State, root: Id, token: string, now: int, n: Id, t: State, t': State, m: Id)
    requires n in PendingIn(s.repairs) && SettledIn(cfg, s, root, n, token, now, t) && m != n
    requires (n in t'.repairs <==> n in t.repairs) && (n in t.repairs ==> t'.repairs[n] == t.repairs[n])
    requires forall x :: x in t.store.dag ==> x in t'.store.dag && t'.store.dag[x] == t.store.dag[x]
    requires forall x :: x in t.horizon ==> x in t'.horizon && (x != RebuiltId(token, m) ==> t'.horizon[x] == t.horizon[x])
    ensures SettledIn(cfg, s, root, n, token, now, t')
  {
    hide IsRebuilt, RebuiltId, Rebuilds, AdapterAnswers;
    MintedDistinct(token, n, m);
  }

  lemma OneSettled(cfg: Config, s: State, before: State, root: Id, comps: seq<Id>, n: Id, token: string, now: int)
    requires SettledThrough(cfg, s, root, comps, token, now, before)
    requires n in PendingIn(s.repairs) && n !in comps && RebuiltId(token, n) !in before.store.dag
    requires cfg.recovery.Remote? ==> before.adapterKey == s.adapterKey
    ensures SettledThrough(cfg, s, root, comps + [n], token, now, Rebuild(cfg, s.store, before, root, n, s.repairs[n], token, now))
  {
    hide AdapterAnswers, Rebuild, RebuiltId, SettledIn, AdapterAgrees, Outcome, IsRebuilt, Rebuilds;
    var r := s.repairs[n];
    var t := Rebuild(cfg, s.store, before, root, n, r, token, now);
    var p := RebuildOutcome(cfg, s.store, before, root, n, r, token, now);
    SameKey(cfg, s, before, root, n);
    OutcomeKeeps(cfg, s.store, before, root, n, r, token, now, p, t);
    assert forall m :: m in comps + [n] <==> m in comps || m == n;
    forall m | m in comps ensures m in PendingIn(s.repairs) && SettledIn(cfg, s, root, m, token, now, t) {
      StaysSettled(cfg, s, root, token, now, m, before, t, n);
    }
    NowSettled(cfg, s, before, root, n, token, now, t, p);
    RebuiltHasId(cfg, token, n, r, p);
  }

  lemma RebuiltHasId(cfg: Config, token: string, n: Id, r: Repair, p: Payload)
    requires r.Pending? && IsRebuilt(cfg, token, n, r, p)
    ensures p.id == RebuiltId(token, n)
  {
    hide RebuiltId;
  }

  lemma SameKey(cfg: Config, s: State, before: State, root: Id, n: Id)
    requires n in PendingIn(s.repairs) && (cfg.recovery.Remote? ==> before.adapterKey == s.adapterKey)
    ensures Rebuilds(cfg, s.store, before.adapterKey, root, n, s.repairs[n]) <==> Rebuilds(cfg, s.store, s.adapterKey, root, n, s.repairs[n])
  {
    hide AdapterAgrees;
  }

  lemma NowSettled(cfg: Config, s: State, before: State, root: Id, n: Id, token: string, now: int, t: State, p: Payload)
    requires n in PendingIn(s.repairs) && RebuiltId(token, n) !in before.store.dag && IsRebuilt(cfg, token, n, s.repairs[n], p)
    requires cfg.recovery.Remote? ==> before.adapterKey == s.adapterKey
    requires Outcome(cfg, s.store, before, root, n, s.repairs[n], token, now, p, t)
    ensures SettledIn(cfg, s, root, n, token, now, t)
  {
    hide Rebuilds, AdapterAnswers, RebuiltId;
    SameKey(cfg, s, before, root, n);
    assert p.id == RebuiltId(token, n);
  }

  lemma {:induction false} AllSettled(cfg: Config, s: State, root: Id, comps: seq<Id>, token: string, now: int)
    requires Filed(s.store) && FreshRebuilt(s.store, token) && NoDuplicates(comps) && Elements(comps) <= PendingIn(s.repairs)
    ensures SettledThrough(cfg, s, root, comps, token, now, RebuildAll(cfg, s, s, root, comps, token, now))
    ensures cfg.recovery.Remote? ==> RebuildAll(cfg, s, s, root, comps, token, now).adapterKey == s.adapterKey
    decreases |comps|
  {
    hide SettledThrough, Outcome, IsRebuilt, Rebuild, Filed, RebuildHarmless, RebuiltId, FreshRebuilt, Closed, EdgesOf;
    if comps == [] {
      NothingSettled(cfg, s, root, token, now);
    } else {
      var init, n := comps[..|comps| - 1], comps[|comps| - 1];
      assert comps == init + [n];
      assert n in Elements(comps) && Elements(init) <= Elements(comps);
      AllSettled(cfg, s, root, init, token, now);
      RebuildAllClosed(cfg, s, root, init, token, now);
      var before := RebuildAll(cfg, s, s, root, init, token, now);
      NotRebuiltYet(s.store, before.store, token, Elements(init), n);
      OneSettled(cfg, s, before, root, init, n, token, now);
      var p := RebuildOutcome(cfg, s.store, before, root, n, s.repairs[n], token, now);
    }
  }

  lemma NotRebuiltYet(st: Store, st': Store, token: string, comps: set<Id>, n: Id)
    requires FreshRebuilt(st, token) && RebuiltOnly(st, st', token, comps) && n !in comps
    ensures RebuiltId(token, n) !in st'.dag
  {
    forall m | m in comps ensures RebuiltId(token, n) != RebuiltId(token, m) {
      MintedDistinct(token, n, m);
    }
  }

  // ---- A designation ----

  /** The store the adapter is asked about: the old one, with the records emitted by then. */
  ghost function Asked(cfg: Config, s: State, root: Id, token: string, now: int): Store {
    var view := After(s, Blast(s.store.dag, root));
    if EmitsAny(cfg, s, root, token, now) then Continue(view, view, DependentsOf(s, root), token, now).store else s.store
  }

  /**
   * After a designation every compaction it found pending is either rebuilt on the predicted frontier, committed and on
   * the horizon, or given up: the adapter did not answer, or its key was not in place. All other dispositions are those
   * of the traversals, and the horizon changes for rebuilt nodes only.
   */
  lemma DesignationRebuilds(cfg: Config, s: State, root: Id, token: string, now: int, n: Id)
    requires Filed(s.store) && FreshToken(s.store, token)
    requires root in s.store.dag && root !in s.store.ledger
    ensures var t := Designate(cfg, s, root, token, now).0;
            if PendingAfter(s, root, now, n) then
              SettledAs(cfg, RebuiltAfter(cfg, s, root, token, now, n),
                        AdapterAnswers(Asked(cfg, s, root, token, now), root, n, RepairAfter(s, root, now, n)),
                        token, now, n, RepairAfter(s, root, now, n), t)
            else Settles(s, Traversals(s, root, now), t.repairs, n)
    ensures var t := Designate(cfg, s, root, token, now).0;
            && (forall x :: x in t.horizon && x !in s.horizon ==> exists m :: RebuiltAfter(cfg, s, root, token, now, m) && x == RebuiltId(token, m))
            && (forall x :: x in s.horizon ==> x in t.horizon && ((forall m :: x != RebuiltId(token, m)) ==> t.horizon[x] == s.horizon[x]))
  {
    hide Designate, Contain, Continuity, Reconstruct, Filed, FreshToken, Closure, EdgesOf, PendingAfter, RepairAfter, RebuiltAfter,
         SettledAs, Rebuilds, AdapterAnswers, Asked, Settles, SettlesAll, Traversals, RebuiltId;
    var s1, c := Contain(cfg, s, root, now), Blast(s.store.dag, root);
    var s2 := Continuity(cfg, s1, c, token, now);
    var t := Designate(cfg, s, root, token, now).0;
    DesignationSettles(cfg, s, root, token, now);
    RebuiltMeaning(cfg, s, root, token, now, n);
    if n in PendingIn(s2.repairs) {
      AskedMeaning(cfg, s, root, token, now, n, s2.repairs[n]);
      assert SettledIn(cfg, s2, root, n, token, now, t);
    } else {
      ContainSettles(cfg, s, root, now);
      SettlesDepends(s, Traversals(s, root, now), s1.repairs, t.repairs, n);
    }
    forall x | x in t.horizon && x !in s.horizon ensures exists m :: RebuiltAfter(cfg, s, root, token, now, m) && x == RebuiltId(token, m) {
      var m: Id :| m in PendingIn(s2.repairs) && Rebuilds(cfg, s2.store, s2.adapterKey, root, m, s2.repairs[m]) && x == RebuiltId(token, m);
      RebuiltMeaning(cfg, s, root, token, now, m);
    }
  }

  lemma DesignationSettles(cfg: Config, s: State, root: Id, token: string, now: int)
    requires Filed(s.store) && FreshToken(s.store, token)
    requires root in s.store.dag && root !in s.store.ledger
    ensures var s1 := Contain(cfg, s, root, now);
            var s2 := Continuity(cfg, s1, Blast(s.store.dag, root), token, now);
            && s2.horizon == s.horizon && s2.repairs == s1.repairs
            && SettledThrough(cfg, s2, root, SortedIds(PendingIn(s2.repairs)), token, now, Designate(cfg, s, root, token, now).0)
  {
    hide Contain, Continuity, Reconstruct, Filed, FreshToken, FreshRebuilt, Closure, EdgesOf, SettledThrough, Roots;
    var s1, c := Contain(cfg, s, root, now), Blast(s.store.dag, root);
    ContainEffect(cfg, s, root, now);
    ContinuityHorizon(cfg, s1, c, token, now);
    FreshAfterContain(s, s1, root, token);
    FreshAfter(cfg, s1, c, token, now);
    ReconstructSettlesThrough(cfg, Continuity(cfg, s1, c, token, now), root, token, now);
  }

  lemma ContinuityHorizon(cfg: Config, s: State, c: set<Id>, token: string, now: int)
    ensures var t := Continuity(cfg, s, c, token, now); t.horizon == s.horizon && t.repairs == s.repairs
  {
    hide Continue, Critical;
    ContinueKeeps(s, s, Critical(s.store.dag, s.store.order, c), token, now);
  }

  lemma ReconstructSettlesThrough(cfg: Config, s: State, root: Id, token: string, now: int)
    requires Filed(s.store) && FreshRebuilt(s.store, token)
    ensures SettledThrough(cfg, s, root, SortedIds(PendingIn(s.repairs)), token, now, Reconstruct(cfg, s, root, token, now))
  {
    hide RebuildAll, SettledThrough, Filed, FreshRebuilt;
    var comps := SortedIds(PendingIn(s.repairs));
    assert Elements(comps) == PendingIn(s.repairs);
    AllSettled(cfg, s, root, comps, token, now);
  }

  lemma AskedMeaning(cfg: Config, s: State, root: Id, token: string, now: int, n: Id, r: Repair)
    requires r.Pending?
    ensures var s2 := Continuity(cfg, Contain(cfg, s, root, now), Blast(s.store.dag, root), token, now);
            AdapterAnswers(s2.store, root, n, r) <==> AdapterAnswers(Asked(cfg, s, root, token, now), root, n, r)
  {
    hide Contain, Continuity, Continue, Closure, EdgesOf, DependentsOf, EmitsAny, AdapterAgrees;
    ContinuedState(cfg, s, root, token, now);
  }

  lemma SettlesDepends(s: State, traversals: seq<Id>, r: map<Id, Repair>, r': map<Id, Repair>, n: Id)
    requires SettlesAll(s, traversals, r)
    requires (n in r' <==> n in r) && (n in r ==> r'[n] == r[n])
    ensures Settles(s, traversals, r', n)
  {
    hide JudgesOf, Verdict, AllPending, FirstTerminal;
    assert Settles(s, traversals, r, n);
  }
}
