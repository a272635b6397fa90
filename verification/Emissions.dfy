/** What continuity emits for a designation: which records, standing in for what, built on what, and exposed how. */
module Emissions {
  import opened Ids
  import opened Reach
  import opened Records
  import opened BlastRadius
  import opened Admission
  import opened Replacement
  import opened Gateway
  import opened Selection
  import opened Containment
  import opened Nearest
  import opened Completion
  import opened Audit
  import opened Submissions
  import opened Recurrences

  // ---- What a record must look like; `view` is the state with the closure already quarantined ----

  /** n carries weight and lies in the closure or has a parent there. */
  predicate IsCritical(dag: Dag, c: set<Id>, n: Id) {
    n in dag && dag[n].criticality > 0.0 && (n in c || exists q :: q in dag[n].parents && q.parent in c)
  }

  /** The quarantined ids among a node and its parents. */
  function TaintOf(st: Store, n: Id): set<Id>
    requires n in st.dag
  {
    (ParentSet(st.dag[n]) + {n}) * st.ledger
  }

  predicate Replays(view: State, at: int, n: Id)
    requires n in view.store.dag
  {
    exists cp :: cp in view.checkpoints && CanReplay(cp, TaintOf(view.store, n), view.store.ledger, at)
  }

  /** A substitute for x was declared before, and is committed and not quarantined. */
  predicate CanSubstitute(view: State, at: int, x: Id) {
    && x in view.substitutes && view.substitutes[x].declaredAt < at
    && view.substitutes[x].source != ""
    && view.substitutes[x].source in view.store.dag && view.substitutes[x].source !in view.store.ledger
  }

  /** Something can stand in for n: an eligible checkpoint, or an eligible substitute for part of its taint. */
  predicate Served(view: State, at: int, n: Id)
    requires n in view.store.dag
  {
    Replays(view, at, n) || exists x :: x in TaintOf(view.store, n) && CanSubstitute(view, at, x)
  }

  /** The checkpoint at i is the first that can be replayed for n. */
  predicate FirstReplay(view: State, at: int, n: Id, i: int)
    requires n in view.store.dag
  {
    && 0 <= i < |view.checkpoints| && CanReplay(view.checkpoints[i], TaintOf(view.store, n), view.store.ledger, at)
    && forall j :: 0 <= j < i ==> !CanReplay(view.checkpoints[j], TaintOf(view.store, n), view.store.ledger, at)
  }

  /** x is the least tainted id with an eligible substitute. */
  predicate LeastSubstitute(view: State, at: int, n: Id, x: Id)
    requires n in view.store.dag
  {
    && x in TaintOf(view.store, n) && CanSubstitute(view, at, x)
    && forall y :: y in TaintOf(view.store, n) && CanSubstitute(view, at, y) ==> Leq(x, y)
  }

  /** All unquarantined parents of n, each as often as n names it; the built-in root when none is left. */
  ghost predicate CleanParentsOf(st: Store, n: Id, parents: seq<Commitment>)
    requires n in st.dag
  {
    && (forall q :: q in parents ==> q.edgeClass == Material && q.hash == PLACEHOLDER_HASH)
    && if ParentSet(st.dag[n]) <= st.ledger
       then parents == [Commitment(CLEAN_PARENT, PLACEHOLDER_HASH, Material)]
       else forall u :: Occurrences(parents, u) == if u in st.ledger then 0 else Occurrences(st.dag[n].parents, u)
  }

  /** How often u is named as a parent. */
  function Occurrences(parents: seq<Commitment>, u: Id): nat {
    if parents == [] then 0 else (if parents[0].parent == u then 1 else 0) + Occurrences(parents[1..], u)
  }

  /** The replay of a checkpoint for n stands in for the checkpoint's target, on n's clean parents. */
  ghost predicate IsReplay(st: Store, token: string, n: Id, cp: Checkpoint, p: Payload)
    requires n in st.dag
  {
    && p == Bare(ReplayId(token, n)).(parents := p.parents, digest := "sha256:" + cp.id, criticality := st.dag[n].criticality,
                                      originalTarget := Some(cp.target))
    && CleanParentsOf(st, n, p.parents)
  }

  /** The substitution for n stands in for the tainted id x, on the declared source alone. */
  predicate IsSubstitution(view: State, token: string, n: Id, x: Id, p: Payload)
    requires n in view.store.dag && x in view.substitutes && view.substitutes[x].source in view.store.dag
  {
    var source := view.substitutes[x].source;
    var digest := view.store.dag[source].digest;
    p == Bare(SubstituteId(token, n)).(
      parents := [Commitment(source, if digest == "" then PLACEHOLDER_HASH else digest, Material)],
      digest := "sha256:" + source, criticality := view.store.dag[n].criticality, originalTarget := Some(x))
  }

  /** The record for a served node: a replay of the first eligible checkpoint, or else a substitution. */
  ghost predicate RecordFor(view: State, token: string, at: int, n: Id, p: Payload)
    requires n in view.store.dag
  {
    if Replays(view, at, n)
    then exists i :: FirstReplay(view, at, n, i) && IsReplay(view.store, token, n, view.checkpoints[i], p)
    else exists x :: LeastSubstitute(view, at, n, x) && IsSubstitution(view, token, n, x, p)
  }

  /** The exposure that announces it. */
  function ExposureOf(view: State, token: string, at: int, n: Id): Exposure
    requires n in view.store.dag
  {
    if Replays(view, at, n) then Exposure(ReplayId(token, n), "M4") else Exposure(SubstituteId(token, n), "M3")
  }

  // ---- One critical dependent ----

  /** The dependent is n with its taint: what the emission looks at is the taint of n. */
  predicate Depends(view: State, d: Dependent, n: Id) {
    && n in view.store.dag && d.node == n && d.criticality == view.store.dag[n].criticality
    && Relevant(view.store, d) == TaintOf(view.store, n)
  }

  lemma {:induction false} FirstSubstitutableAt(view: State, targets: seq<Id>, at: int) returns (i: nat)
    ensures FirstSubstitutable(view, targets, at).None? <==> forall x :: x in targets ==> !CanSubstitute(view, at, x)
    ensures FirstSubstitutable(view, targets, at).Some? ==>
      && i < |targets| && FirstSubstitutable(view, targets, at) == Some(targets[i]) && CanSubstitute(view, at, targets[i])
      && forall j :: 0 <= j < i ==> !CanSubstitute(view, at, targets[j])
  {
    i := 0;
    if targets != [] && !CanSubstitute(view, at, targets[0]) {
      var k := FirstSubstitutableAt(view, targets[1..], at);
      i := k + 1;
      assert targets == [targets[0]] + targets[1..];
    }
  }

  lemma LeastIsFirst(view: State, at: int, n: Id)
    requires n in view.store.dag
    ensures var r := FirstSubstitutable(view, SortedIds(TaintOf(view.store, n)), at);
            && (r.None? <==> forall x :: x in TaintOf(view.store, n) ==> !CanSubstitute(view, at, x))
            && (r.Some? ==> LeastSubstitute(view, at, n, r.value))
  {
    hide CanSubstitute, TaintOf, FirstSubstitutable, Leq;
    var targets := SortedIds(TaintOf(view.store, n));
    var i := FirstSubstitutableAt(view, targets, at);
    if FirstSubstitutable(view, targets, at).Some? {
      forall y | y in TaintOf(view.store, n) && CanSubstitute(view, at, y) ensures Leq(targets[i], y) {
        var j :| 0 <= j < |targets| && targets[j] == y;
        LeqTotal(y, y);
      }
    }
  }

  lemma {:induction false} FrontierOccurrences(parents: seq<Commitment>, ids: seq<Id>, ledger: set<Id>, u: Id)
    requires |ids| == |parents| && forall i :: 0 <= i < |ids| ==> ids[i] == parents[i].parent
    ensures Occurrences(Commitments(FrontierOf(ids, ledger), PLACEHOLDER_HASH, Material), u) ==
      if u in ledger then 0 else Occurrences(parents, u)
  {
    if ids != [] {
      FrontierOccurrences(parents[1..], ids[1..], ledger, u);
      var rest := FrontierOf(ids[1..], ledger);
      if ids[0] in ledger {
        assert FrontierOf(ids, ledger) == rest;
      } else {
        assert FrontierOf(ids, ledger) == [ids[0]] + rest;
        assert Commitments([ids[0]] + rest, PLACEHOLDER_HASH, Material)[1..] == Commitments(rest, PLACEHOLDER_HASH, Material);
      }
    }
  }

  lemma ReplayParentsMeaning(st: Store, n: Id)
    requires n in st.dag
    ensures CleanParentsOf(st, n, Commitments(ReplayParents(st, n), PLACEHOLDER_HASH, Material))
  {
    hide FrontierOf, Occurrences, ParentList;
    var ids := ParentList(st.dag[n]);
    ParentListMeaning(st.dag[n]);
    FrontierOfMeaning(ids, st.ledger);
    HasMember(FrontierOf(ids, st.ledger));
    ParentAt(st.dag[n]);
    forall u ensures Occurrences(Commitments(FrontierOf(ids, st.ledger), PLACEHOLDER_HASH, Material), u) ==
      if u in st.ledger then 0 else Occurrences(st.dag[n].parents, u)
    {
      FrontierOccurrences(st.dag[n].parents, ids, st.ledger, u);
    }
  }

  lemma ParentAt(p: Payload)
    ensures |ParentList(p)| == |p.parents| && forall i :: 0 <= i < |p.parents| ==> ParentList(p)[i] == p.parents[i].parent
  {
  }

  /** A critical dependent gets a record exactly when it can be served, and then the record for it. */
  lemma EmitMeaning(view: State, d: Dependent, n: Id, token: string, at: int)
    requires Depends(view, d, n)
    ensures var em := Emit(view, d, token, at);
            && (em.Some? <==> Served(view, at, n))
            && (em.Some? ==> RecordFor(view, token, at, n, em.value.payload))
            && (em.Some? ==> ExposureOf(view, token, at, n) == Exposure(em.value.payload.id, em.value.mechanism))
  {
    hide CleanParentsOf, TaintOf, Relevant, Replayable, FirstSubstitutable, ReplayParents, CanReplay, CanSubstitute, ReplayId, SubstituteId;
    var taint := TaintOf(view.store, n);
    var i := ReplayableFinds(view.checkpoints, taint, view.store.ledger, at);
    LeastIsFirst(view, at, n);
    ReplayParentsMeaning(view.store, n);
    if Replayable(view.checkpoints, taint, view.store.ledger, at).Some? {
      assert view.checkpoints[i] in view.checkpoints;
      assert FirstReplay(view, at, n, i);
    } else {
      SubstitutionFor(view, d, n, token, at);
    }
  }

  lemma SubstitutionFor(view: State, d: Dependent, n: Id, token: string, at: int)
    requires Depends(view, d, n) && Replayable(view.checkpoints, TaintOf(view.store, n), view.store.ledger, at).None?
    ensures var target := FirstSubstitutable(view, SortedIds(TaintOf(view.store, n)), at);
            var em := Emit(view, d, token, at);
            && (target.None? ==> em.None?)
            && (target.Some? ==>
                  && em.Some? && em.value.mechanism == "M3" && em.value.payload.id == SubstituteId(token, n)
                  && target.value in view.substitutes && view.substitutes[target.value].source in view.store.dag
                  && IsSubstitution(view, token, n, target.value, em.value.payload))
  {
    hide TaintOf, Relevant, Replayable, SubstituteId;
  }

  // ---- All dependents, in dictionary order ----

  predicate Serves(view: State, c: set<Id>, at: int, n: Id) {
    IsCritical(view.store.dag, c, n) && Served(view, at, n)
  }

  /** The critical nodes of the listing that can be served, in its order. */
  function ServedIn(view: State, c: set<Id>, at: int, order: seq<Id>): (r: seq<Id>)
    ensures forall n :: n in r ==> n in view.store.dag
  {
    if order == [] then []
    else if Serves(view, c, at, order[0]) then [order[0]] + ServedIn(view, c, at, order[1..])
    else ServedIn(view, c, at, order[1..])
  }

  lemma {:induction false} ServedInMembers(view: State, c: set<Id>, at: int, order: seq<Id>)
    ensures forall n :: n in ServedIn(view, c, at, order) <==> n in order && Serves(view, c, at, n)
  {
    hide Serves;
    if order != [] {
      ServedInMembers(view, c, at, order[1..]);
      assert order == [order[0]] + order[1..];
    }
  }

  /** Their exposures, one each. */
  function ExposuresFor(view: State, token: string, at: int, nodes: seq<Id>): seq<Exposure>
    requires forall n :: n in nodes ==> n in view.store.dag
  {
    seq(|nodes|, i requires 0 <= i < |nodes| => assert nodes[i] in nodes; ExposureOf(view, token, at, nodes[i]))
  }

  /** What a list of dependents adds to the exposures. */
  function EmittedBy(snapshot: State, deps: seq<Dependent>, token: string, at: int): seq<Exposure> {
    if deps == [] then [] else
      (match Emit(snapshot, deps[0], token, at)
       case None => []
       case Some(em) => [Exposure(em.payload.id, em.mechanism)])
      + EmittedBy(snapshot, deps[1..], token, at)
  }

  lemma {:induction false} EmittedMore(snapshot: State, deps: seq<Dependent>, d: Dependent, token: string, at: int)
    ensures EmittedBy(snapshot, deps + [d], token, at) ==
      EmittedBy(snapshot, deps, token, at) + match Emit(snapshot, d, token, at)
                                             case None => []
                                             case Some(em) => [Exposure(em.payload.id, em.mechanism)]
  {
    hide Emit;
    if deps == [] {
      assert [] + [d] == [d] && [d][1..] == [];
      assert EmittedBy(snapshot, [], token, at) == [];
    } else {
      assert (deps + [d])[1..] == deps[1..] + [d];
      EmittedMore(snapshot, deps[1..], d, token, at);
    }
  }

  lemma {:induction false} ContinueExposes(snapshot: State, s: State, deps: seq<Dependent>, token: string, at: int)
    ensures Continue(snapshot, s, deps, token, at).exposures == s.exposures + EmittedBy(snapshot, deps, token, at)
    decreases |deps|
  {
    hide Emit, Commit;
    if deps != [] {
      var init, d := deps[..|deps| - 1], deps[|deps| - 1];
      assert deps == init + [d];
      ContinueExposes(snapshot, s, init, token, at);
      EmittedMore(snapshot, init, d, token, at);
    } else {
      assert EmittedBy(snapshot, [], token, at) == [];
    }
  }

  lemma CriticalDepends(view: State, c: set<Id>, order: seq<Id>, d: Dependent)
    requires c <= view.store.ledger && d in Critical(view.store.dag, order, c)
    ensures d.node in view.store.dag && Depends(view, d, d.node) && IsCritical(view.store.dag, c, d.node)
  {
    hide Critical, ParentSet;
    CriticalFinds(view.store.dag, order, c, d.node);
    ParentIn(view.store.dag, c, d.node);
    var parents := ParentSet(view.store.dag[d.node]);
    assert Relevant(view.store, d) == (parents + {d.node}) * view.store.ledger;
  }

  lemma ParentIn(dag: Dag, c: set<Id>, n: Id)
    requires n in dag
    ensures ParentSet(dag[n]) * c != {} <==> exists q :: q in dag[n].parents && q.parent in c
  {
    if u :| u in ParentSet(dag[n]) * c {
      var q :| q in dag[n].parents && q.parent == u;
    }
    if q :| q in dag[n].parents && q.parent in c {
      assert q.parent in ParentSet(dag[n]) * c;
    }
  }

  lemma CriticalHead(dag: Dag, order: seq<Id>, c: set<Id>)
    requires order != []
    ensures var (all, rest) := (Critical(dag, order, c), Critical(dag, order[1..], c));
            if IsCritical(dag, c, order[0]) then |all| > 0 && all[0].node == order[0] && all[1..] == rest else all == rest
  {
    hide ParentSet, IsCritical;
    var n := order[0];
    if n in dag { ParentIn(dag, c, n); }
    CriticalOne(dag, c, n);
  }

  lemma CriticalOne(dag: Dag, c: set<Id>, n: Id)
    ensures IsCritical(dag, c, n) <==>
      n in dag && dag[n].criticality > 0.0 && (n in c || exists q :: q in dag[n].parents && q.parent in c)
  {
  }

  lemma {:induction false} EmittedAre(view: State, c: set<Id>, order: seq<Id>, token: string, at: int)
    requires c <= view.store.ledger
    ensures EmittedBy(view, Critical(view.store.dag, order, c), token, at) ==
      ExposuresFor(view, token, at, ServedIn(view, c, at, order))
  {
    hide Critical, IsCritical, Served, ExposureOf, RecordFor, Emit, Depends;
    var dag := view.store.dag;
    var nodes := ServedIn(view, c, at, order);
    if order == [] {
      assert Critical(dag, order, c) == [] by { NoCritical(dag, c); }
    } else {
      var deps := Critical(dag, order, c);
      EmittedAre(view, c, order[1..], token, at);
      CriticalHead(dag, order, c);
      if IsCritical(dag, c, order[0]) {
        var d := deps[0];
        assert d in deps;
        CriticalDepends(view, c, order, d);
        EmitMeaning(view, d, order[0], token, at);
        var rest := ServedIn(view, c, at, order[1..]);
        if Served(view, at, order[0]) {
          ExposuresHead(view, token, at, order[0], rest);
        } else {
          assert [] + EmittedBy(view, deps[1..], token, at) == EmittedBy(view, deps[1..], token, at);
        }
      }
    }
  }

  lemma NoCritical(dag: Dag, c: set<Id>)
    ensures Critical(dag, [], c) == []
  {
  }

  lemma ExposuresHead(view: State, token: string, at: int, n: Id, rest: seq<Id>)
    requires n in view.store.dag && forall m :: m in rest ==> m in view.store.dag
    ensures ExposuresFor(view, token, at, [n] + rest) == [ExposureOf(view, token, at, n)] + ExposuresFor(view, token, at, rest)
  {
    hide ExposureOf;
  }

  // ---- What gets committed ----

  /** The dependents' records are in the graph, and nothing else was added to it. */
  ghost predicate Recorded(snapshot: State, before: Store, after: Store, deps: seq<Dependent>, token: string, at: int) {
    && (forall d :: d in deps && Emit(snapshot, d, token, at).Some? ==>
          var p := Emit(snapshot, d, token, at).value.payload; p.id in after.dag && after.dag[p.id] == p)
    && (forall x :: x in after.dag && x !in before.dag ==>
          exists d :: d in deps && Emit(snapshot, d, token, at).Some? && Emit(snapshot, d, token, at).value.payload.id == x)
    && (forall x :: x in before.dag ==> x in after.dag && after.dag[x] == before.dag[x])
  }

  lemma RecordedMore(snapshot: State, st: Store, before: Store, after: Store, deps: seq<Dependent>, d: Dependent, token: string, at: int)
    requires Recorded(snapshot, st, before, deps, token, at)
    requires match Emit(snapshot, d, token, at)
             case None => after.dag == before.dag
             case Some(em) => em.payload.id !in before.dag && after == Commit(before, em.payload)
    ensures Recorded(snapshot, st, after, deps + [d], token, at)
  {
    hide Emit;
    assert forall e :: e in deps + [d] <==> e in deps || e == d;
  }

  lemma {:induction false} ContinueRecords(s: State, deps: seq<Dependent>, token: string, at: int)
    requires Filed(s.store) && FreshToken(s.store, token) && DistinctNodes(deps)
    ensures Recorded(s, s.store, Continue(s, s, deps, token, at).store, deps, token, at)
    decreases |deps|
  {
    hide Emit, Recorded, AddsOnly, FreshToken, Filed, Commit, EdgesOf, EmissionHarmless;
    if deps == [] {
      NothingRecorded(s, token, at);
    } else {
      var init, d := deps[..|deps| - 1], deps[|deps| - 1];
      assert deps == init + [d];
      ContinueRecords(s, init, token, at);
      ContinueClosed(s, s, init, token, at);
      var before := Continue(s, s, init, token, at);
      if Emit(s, d, token, at).Some? { EmitStep(s, s, before, d, Nodes(init), token, at); }
      RecordedMore(s, s.store, before.store, Continue(s, s, deps, token, at).store, init, d, token, at);
    }
  }

  lemma NothingRecorded(s: State, token: string, at: int)
    ensures Recorded(s, s.store, s.store, [], token, at)
  {
    hide Emit;
  }

  /**
   * Every served critical node has its record in the graph, the exposures gained one entry per such node in dictionary
   * order, and nothing else was added but rebuilt compactions.
   */
  ghost predicate Emitted(view: State, c: set<Id>, token: string, at: int, t: State) {
    && t.exposures == view.exposures + ExposuresFor(view, token, at, ServedIn(view, c, at, view.store.order))
    && (forall n :: Serves(view, c, at, n) ==>
          var x := ExposureOf(view, token, at, n).node; x in t.store.dag && RecordFor(view, token, at, n, t.store.dag[x]))
    && (forall x :: x in t.store.dag && x !in view.store.dag ==>
          || (exists n :: Serves(view, c, at, n) && x == ExposureOf(view, token, at, n).node)
          || exists n :: x == RebuiltId(token, n))
  }

  lemma RecordedNode(view: State, c: set<Id>, st: Store, token: string, at: int, n: Id)
    requires Filed(view.store) && c <= view.store.ledger
    requires Recorded(view, view.store, st, Critical(view.store.dag, view.store.order, c), token, at)
    requires Serves(view, c, at, n)
    ensures var x := ExposureOf(view, token, at, n).node; x in st.dag && RecordFor(view, token, at, n, st.dag[x])
  {
    hide Critical, Served, RecordFor, ExposureOf, Emit, Depends, ParentSet;
    CriticalFinds(view.store.dag, view.store.order, c, n);
    ParentIn(view.store.dag, c, n);
    var d :| d in Critical(view.store.dag, view.store.order, c) && d.node == n;
    CriticalDepends(view, c, view.store.order, d);
    EmitMeaning(view, d, n, token, at);
  }

  lemma NewNode(view: State, c: set<Id>, st: Store, token: string, at: int, x: Id)
    requires c <= view.store.ledger && x in st.dag && x !in view.store.dag
    requires Recorded(view, view.store, st, Critical(view.store.dag, view.store.order, c), token, at)
    ensures exists n :: Serves(view, c, at, n) && x == ExposureOf(view, token, at, n).node
  {
    hide Critical, IsCritical, Served, RecordFor, ExposureOf, Emit, Depends;
    var d :| d in Critical(view.store.dag, view.store.order, c) && Emit(view, d, token, at).Some? && Emit(view, d, token, at).value.payload.id == x;
    CriticalDepends(view, c, view.store.order, d);
    EmitMeaning(view, d, d.node, token, at);
    assert Serves(view, c, at, d.node);
  }

  lemma ContinueEmits(view: State, c: set<Id>, token: string, at: int)
    requires Filed(view.store) && FreshToken(view.store, token) && c <= view.store.ledger
    ensures Emitted(view, c, token, at, Continue(view, view, Critical(view.store.dag, view.store.order, c), token, at))
  {
    hide Filed, FreshToken, Continue, Critical, Serves, RecordFor, ExposureOf, Recorded, ExposuresFor, ServedIn;
    var deps := Critical(view.store.dag, view.store.order, c);
    var t := Continue(view, view, deps, token, at);
    DistinctCritical(view.store, c);
    ContinueExposes(view, view, deps, token, at);
    EmittedAre(view, c, view.store.order, token, at);
    ContinueRecords(view, deps, token, at);
    forall n | Serves(view, c, at, n)
      ensures n in view.store.dag && ExposureOf(view, token, at, n).node in t.store.dag
      ensures RecordFor(view, token, at, n, t.store.dag[ExposureOf(view, token, at, n).node])
    {
      ServesCommitted(view, c, at, n);
      RecordedNode(view, c, t.store, token, at, n);
    }
    forall x | x in t.store.dag && x !in view.store.dag ensures exists n :: Serves(view, c, at, n) && x == ExposureOf(view, token, at, n).node {
      NewNode(view, c, t.store, token, at, x);
    }
  }

  lemma ServesCommitted(view: State, c: set<Id>, at: int, n: Id)
    requires Serves(view, c, at, n)
    ensures n in view.store.dag
  {
    hide Served;
  }

  lemma DistinctCritical(st: Store, c: set<Id>)
    requires Filed(st)
    ensures DistinctNodes(Critical(st.dag, st.order, c))
  {
    CriticalDistinct(st.dag, st.order, c);
  }

  /** What was emitted depends on the store, the checkpoints, the substitutes and the earlier exposures only. */
  lemma EmittedDepends(view: State, view': State, c: set<Id>, token: string, at: int, t: State, t': State)
    requires view'.store == view.store && view'.checkpoints == view.checkpoints && view'.substitutes == view.substitutes
    requires view'.exposures == view.exposures && t'.exposures == t.exposures
    requires forall x :: x in t.store.dag ==> x in t'.store.dag && t'.store.dag[x] == t.store.dag[x]
    requires forall x :: x in t'.store.dag && x !in t.store.dag ==> exists n :: x == RebuiltId(token, n)
    requires Emitted(view, c, token, at, t)
    ensures Emitted(view', c, token, at, t')
  {
    hide CanReplay, CanSubstitute, TaintOf, RebuiltId, IsCritical, IsReplay, ServedIn, ExposuresFor;
    forall n | n in view.store.dag ensures ExposureOf(view', token, at, n) == ExposureOf(view, token, at, n) && (Serves(view', c, at, n) <==> Serves(view, c, at, n)) {
      ServesDepends(view, view', c, token, at, n);
    }
    forall n, p | n in view.store.dag && RecordFor(view, token, at, n, p) ensures RecordFor(view', token, at, n, p) {
      RecordDepends(view, view', token, at, n, p);
    }
    ServedInDepends(view, view', c, token, at, view.store.order);
    forall n | Serves(view', c, at, n) ensures n in view.store.dag { ServesCommitted(view', c, at, n); }
    forall n | Serves(view, c, at, n) ensures n in view.store.dag { ServesCommitted(view, c, at, n); }
  }

  lemma ServesDepends(view: State, view': State, c: set<Id>, token: string, at: int, n: Id)
    requires view'.store == view.store && view'.checkpoints == view.checkpoints && view'.substitutes == view.substitutes
    requires n in view.store.dag
    ensures ExposureOf(view', token, at, n) == ExposureOf(view, token, at, n)
    ensures Serves(view', c, at, n) <==> Serves(view, c, at, n)
  {
    hide CanReplay, TaintOf, IsCritical;
    forall x ensures CanSubstitute(view', at, x) <==> CanSubstitute(view, at, x) {
    }
  }

  lemma RecordDepends(view: State, view': State, token: string, at: int, n: Id, p: Payload)
    requires view'.store == view.store && view'.checkpoints == view.checkpoints && view'.substitutes == view.substitutes
    requires n in view.store.dag && RecordFor(view, token, at, n, p)
    ensures RecordFor(view', token, at, n, p)
  {
    hide CanReplay, TaintOf, IsReplay;
    forall x ensures CanSubstitute(view', at, x) <==> CanSubstitute(view, at, x) {
    }
    if Replays(view, at, n) {
      var i :| FirstReplay(view, at, n, i) && IsReplay(view.store, token, n, view.checkpoints[i], p);
      assert FirstReplay(view', at, n, i);
    } else {
      var x :| LeastSubstitute(view, at, n, x) && IsSubstitution(view, token, n, x, p);
      assert LeastSubstitute(view', at, n, x);
    }
  }

  lemma {:induction false} ServedInDepends(view: State, view': State, c: set<Id>, token: string, at: int, order: seq<Id>)
    requires view'.store == view.store && view'.checkpoints == view.checkpoints && view'.substitutes == view.substitutes
    ensures ServedIn(view', c, at, order) == ServedIn(view, c, at, order)
    ensures ExposuresFor(view', token, at, ServedIn(view, c, at, order)) == ExposuresFor(view, token, at, ServedIn(view, c, at, order))
  {
    hide Serves, ExposureOf;
    forall n | n in view.store.dag ensures ExposureOf(view', token, at, n) == ExposureOf(view, token, at, n) {
      ServesDepends(view, view', c, token, at, n);
    }
    if order != [] {
      ServedInDepends(view, view', c, token, at, order[1..]);
      if order[0] in view.store.dag { ServesDepends(view, view', c, token, at, order[0]); }
      else { NotServed(view, view', c, at, order[0]); }
    }
  }

  lemma NotServed(view: State, view': State, c: set<Id>, at: int, n: Id)
    requires n !in view.store.dag && view'.store == view.store
    ensures !Serves(view, c, at, n) && !Serves(view', c, at, n)
  {
    hide Served;
  }

  // ---- A designation ----

  lemma ReconstructAdds(cfg: Config, s: State, root: Id, token: string, now: int)
    requires Filed(s.store) && FreshRebuilt(s.store, token)
    ensures var t := Reconstruct(cfg, s, root, token, now);
            && t.exposures == s.exposures
            && (forall x :: x in s.store.dag ==> x in t.store.dag && t.store.dag[x] == s.store.dag[x])
            && (forall x :: x in t.store.dag && x !in s.store.dag ==> exists n :: x == RebuiltId(token, n))
  {
    hide Reconstruct, Filed, FreshRebuilt, ReconstructionHarmless, Closed, EdgesOf;
    ReconstructKeeps(cfg, s, root, token, now);
    ReconstructClosed(cfg, s, root, token, now);
  }

  /**
   * A designation that takes effect emits, for each critical node of the closure or just below it that an eligible
   * checkpoint or substitute can stand in for, the record for that node, and exposes it; without continuity, nothing.
   */
  lemma DesignationEmits(cfg: Config, s: State, root: Id, token: string, now: int)
    requires Filed(s.store) && FreshToken(s.store, token)
    requires root in s.store.dag && root !in s.store.ledger
    ensures var t := Designate(cfg, s, root, token, now).0;
            var c := Blast(s.store.dag, root);
            if cfg.continuity then Emitted(s.(store := Quarantine(s.store, c)), c, token, now, t)
            else t.exposures == s.exposures && forall x :: x in t.store.dag && x !in s.store.dag ==> exists n :: x == RebuiltId(token, n)
  {
    hide Contain, Continue, Reconstruct, Filed, FreshToken, FreshRebuilt, Closure, EdgesOf, Critical, Emitted, Roots, RebuiltId;
    var s1, c := Contain(cfg, s, root, now), Blast(s.store.dag, root);
    var s2 := Continuity(cfg, s1, c, token, now);
    var t := Reconstruct(cfg, s2, root, token, now);
    ContainEffect(cfg, s, root, now);
    FreshAfterContain(s, s1, root, token);
    FreshAfter(cfg, s1, c, token, now);
    ReconstructAdds(cfg, s2, root, token, now);
    if cfg.continuity {
      ContinueEmits(s1, c, token, now);
      EmittedDepends(s1, s.(store := Quarantine(s.store, c)), c, token, now, s2, t);
    }
  }

  lemma FreshAfter(cfg: Config, s1: State, c: set<Id>, token: string, now: int)
    requires Filed(s1.store) && FreshToken(s1.store, token)
    ensures var s2 := Continuity(cfg, s1, c, token, now); Filed(s2.store) && FreshRebuilt(s2.store, token)
  {
    hide Continue, Filed, FreshToken, FreshRebuilt, Critical, AddsOnly, Closed, EdgesOf, ContinuityHarmless;
    var deps := Critical(s1.store.dag, s1.store.order, c);
    var s2 := Continuity(cfg, s1, c, token, now);
    DistinctCritical(s1.store, c);
    ContinueClosed(s1, s1, deps, token, now);
    FreshStaysRebuilt(s1.store, s2.store, token, Nodes(deps));
  }

  // ---- From the record to the offer ----

  /** No request removes an exposure. */
  lemma StepExposes(cfg: Config, s: State, r: Request)
    ensures s.exposures <= Next(cfg, s, r).exposures
  {
    hide Submit, Designate, Recur, CompactionPayload, Tainted, Upserted, Commit, ParentSet;
    match r {
      case SubmitCandidate(sub, now) => SubmitExposes(cfg, s, sub, now);
      case DesignatePoison(root, token, now) => DesignateExposes(cfg, s, root, token, now);
      case Observe(n, now) => ObserveExposes(cfg, s, n, now);
      case _ =>
    }
  }

  lemma ObserveExposes(cfg: Config, s: State, n: Id, now: int)
    ensures Recur(cfg, s, n, now).exposures == s.exposures
  {
    hide Closure, EdgesOf, BlastRepairs, Withdrawn;
  }

  lemma SubmitExposes(cfg: Config, s: State, sub: Submission, now: int)
    ensures var t := Submit(cfg, s, sub, now).0; t.exposures == s.exposures && t.substitutes == s.substitutes
  {
    hide Submit, Evaluate, WithGap, Reject, Accept, Considered;
    var p := WithGap(sub.payload, s.store.dag);
    SubmitBranches(cfg, s, sub, now);
    if Considered(s, sub) {
      match Evaluate(sub.payload, s.store, sub.auth, now) {
        case TaintedParent(root) => RejectExposes(cfg, s, p, root, now);
        case Admit => AcceptAdds(s, p);
        case _ =>
      }
    }
  }

  lemma RejectExposes(cfg: Config, s: State, p: Payload, root: Id, now: int)
    ensures var t := Reject(cfg, s, p, root, now).0; t.exposures == s.exposures && t.substitutes == s.substitutes
  {
    hide Assess, FindReplacement, RejectionEvent, Offered, Commit;
    AssessKeeps(cfg, s.(store := Commit(s.store, p)), root, now);
  }

  lemma DesignateExposes(cfg: Config, s: State, root: Id, token: string, now: int)
    ensures s.exposures <= Designate(cfg, s, root, token, now).0.exposures
  {
    hide Contain, Continue, Reconstruct, Closure, EdgesOf, Critical, Roots;
    if root in s.store.dag && root !in s.store.ledger {
      var s1, c := Contain(cfg, s, root, now), Blast(s.store.dag, root);
      ContainEffect(cfg, s, root, now);
      ContinueExposes(s1, s1, Critical(s1.store.dag, s1.store.order, c), token, now);
      ReconstructKeeps(cfg, Continuity(cfg, s1, c, token, now), root, token, now);
    }
  }

  /** Exposures, payloads, quarantine facts and the accounting of refusals stay along every run. */
  lemma {:induction false} RunKeepsRecords(cfg: Config, s: State, rs: seq<Request>)
    requires Accounted(s)
    ensures var t := Run(cfg, s, rs); s.exposures <= t.exposures && Extends(s.store, t.store) && Accounted(t)
    decreases |rs|
  {
    hide Next, Accounted, Extends;
    if rs == [] {
      ExtendsReflexive(s.store);
    } else {
      var before, r := Run(cfg, s, rs[..|rs| - 1]), rs[|rs| - 1];
      RunKeepsRecords(cfg, s, rs[..|rs| - 1]);
      StepExposes(cfg, before, r);
      StepExtends(cfg, before, r);
      StepAccounts(cfg, before, r);
      ExtendsTransitive(s.store, before.store, Next(cfg, before, r).store);
    }
  }

  /**
   * Once a record standing in for a quarantined x is exposed, every later refusal on account of x is offered, as a
   * direct replacement, that record or the one of an earlier exposure for x.
   */
  lemma ExposedIsOffered(cfg: Config, t: State, k: nat, x: Id, rs: seq<Request>, sub: Submission, now: int) returns (j: nat)
    requires Accounted(t) && k < |t.exposures| && StandsIn(t.store.dag, t.exposures[k], x) && x in t.store.ledger
    requires var resp := Submit(cfg, Run(cfg, t, rs), sub, now).1; resp.TaintedLineage? && resp.event.root == x
    ensures var u := Run(cfg, t, rs);
            var (v, resp) := Submit(cfg, u, sub, now);
            && j <= k && k < |v.exposures| && FirstStandIn(v, j, x)
            && resp.TaintedLineage? && resp.replacement == Some(Found(v.exposures[j].node, x, v.exposures[j].mechanism))
            && |v.rejections| == |u.rejections| + 1
            && v.rejections[|u.rejections|].offer == Some(Offer(v.exposures[j].node, true))
  {
    hide Submit, Run, RowsTrue, TaintedAncestry, NoFarther, Closure, EdgesOf;
    var u := Run(cfg, t, rs);
    var (v, resp) := Submit(cfg, u, sub, now);
    RunKeepsRecords(cfg, t, rs);
    RefusalRecorded(cfg, u, sub, now);
    SubmitExposes(cfg, u, sub, now);
    SubmitExtends(cfg, u, sub, now);
    assert v.exposures[k] == t.exposures[k] && v.exposures[k] in v.exposures;
    assert StandsIn(v.store.dag, v.exposures[k], x);
    SelfAncestry(v.store, x);
    assert HasOffer(v, x);
    j := EarliestStandIn(v, x, resp.replacement.value);
  }

  lemma SelfAncestry(st: Store, x: Id)
    requires x in st.ledger
    ensures x in TaintedAncestry(st, x)
  {
    hide Closure, Climbs;
    ClosureIsClosed(Climbs(st), {x});
    assert x in {x};
  }

  lemma EarliestStandIn(s: State, x: Id, f: Found) returns (j: nat)
    requires IsOffer(s, f) && f.target == x && exists e :: e in s.exposures && StandsIn(s.store.dag, e, x)
    ensures FirstStandIn(s, j, x) && f == Found(s.exposures[j].node, x, s.exposures[j].mechanism)
    ensures forall k :: 0 <= k < |s.exposures| && StandsIn(s.store.dag, s.exposures[k], x) ==> j <= k
  {
    hide StandsIn;
    var i :| FirstStandIn(s, i, f.target) && f.node == s.exposures[i].node && f.mechanism == s.exposures[i].mechanism;
    j := i;
  }

  /** A record stands in for one of the tainted ids of its node. */
  lemma RecordTarget(view: State, token: string, at: int, n: Id, p: Payload)
    requires n in view.store.dag && Served(view, at, n) && RecordFor(view, token, at, n, p)
    ensures p.originalTarget.Some? && p.originalTarget.value in TaintOf(view.store, n)
  {
    hide TaintOf, CleanParentsOf;
  }

  lemma ServedAt(view: State, c: set<Id>, token: string, at: int, n: Id) returns (i: nat)
    requires Filed(view.store) && Serves(view, c, at, n)
    ensures n in view.store.dag
    ensures var added := ExposuresFor(view, token, at, ServedIn(view, c, at, view.store.order));
            i < |added| && added[i] == ExposureOf(view, token, at, n)
  {
    hide Served, ExposureOf;
    ServedInMembers(view, c, at, view.store.order);
    var nodes := ServedIn(view, c, at, view.store.order);
    i :| 0 <= i < |nodes| && nodes[i] == n;
  }

  /**
   * End to end: a designation's record for a served node n stands in for a tainted id x, and whatever happens in
   * between, a later refusal on account of x is offered that record, or the one of an earlier exposure for x, as direct.
   */
  lemma RecordIsOffered(cfg: Config, s: State, root: Id, token: string, now: int, n: Id, rs: seq<Request>, sub: Submission, later: int)
    returns (x: Id, k: nat)
    requires Accounted(s) && Filed(s.store) && FreshToken(s.store, token) && cfg.continuity
    requires root in s.store.dag && root !in s.store.ledger
    requires Serves(s.(store := Quarantine(s.store, Blast(s.store.dag, root))), Blast(s.store.dag, root), now, n)
    ensures var (view, t) := (s.(store := Quarantine(s.store, Blast(s.store.dag, root))), Designate(cfg, s, root, token, now).0);
            && x in TaintOf(view.store, n)
            && k < |t.exposures| && t.exposures[k] == ExposureOf(view, token, now, n) && StandsIn(t.store.dag, t.exposures[k], x)
    ensures var u := Run(cfg, Designate(cfg, s, root, token, now).0, rs);
            var (v, resp) := Submit(cfg, u, sub, later);
            resp.TaintedLineage? && resp.event.root == x ==>
              && |v.rejections| == |u.rejections| + 1
              && exists j :: j <= k < |v.exposures| && FirstStandIn(v, j, x)
                   && resp.replacement == Some(Found(v.exposures[j].node, x, v.exposures[j].mechanism))
                   && v.rejections[|u.rejections|].offer == Some(Offer(v.exposures[j].node, true))
  {
    hide Submit, Run, Designate, Accounted, Filed, FreshToken, Closure, EdgesOf, Served, RecordFor, ExposureOf, TaintOf, IsCritical, ServedIn, ExposuresFor, RebuiltId;
    var c := Blast(s.store.dag, root);
    var view, t := s.(store := Quarantine(s.store, c)), Designate(cfg, s, root, token, now).0;
    DesignationEmits(cfg, s, root, token, now);
    DesignationAccounts(cfg, s, root, token, now);
    FiledDepends(s.store, view.store);
    var i := ServedAt(view, c, token, now, n);
    k := |s.exposures| + i;
    var p := t.store.dag[ExposureOf(view, token, now, n).node];
    RecordTarget(view, token, now, n, p);
    x := p.originalTarget.value;
    TaintIsTainted(view.store, n, x);
    if Submit(cfg, Run(cfg, t, rs), sub, later).1.TaintedLineage? && Submit(cfg, Run(cfg, t, rs), sub, later).1.event.root == x {
      var j := ExposedIsOffered(cfg, t, k, x, rs, sub, later);
    }
  }

  lemma FiledDepends(st: Store, st': Store)
    requires Filed(st) && st'.dag == st.dag && st'.order == st.order
    ensures Filed(st')
  {
  }

  lemma TaintIsTainted(st: Store, n: Id, x: Id)
    requires n in st.dag && x in TaintOf(st, n)
    ensures x in st.ledger
  {
  }

  lemma DesignationAccounts(cfg: Config, s: State, root: Id, token: string, now: int)
    requires Accounted(s) && root in s.store.dag && root !in s.store.ledger
    ensures var t := Designate(cfg, s, root, token, now).0;
            Accounted(t) && t.store.ledger == s.store.ledger + Blast(s.store.dag, root)
  {
    hide Accounted, Designate, Closure, EdgesOf;
    DesignationRecordTruth(cfg, s, root, token, now);
    StepAccounts(cfg, s, DesignatePoison(root, token, now));
    DesignationIs(cfg, s, root, token, now);
  }

  lemma DesignationIs(cfg: Config, s: State, root: Id, token: string, now: int)
    ensures Next(cfg, s, DesignatePoison(root, token, now)) == Designate(cfg, s, root, token, now).0
  {
    hide Designate;
  }
}
