/** The in-memory backend: fields updated in place, each method proved against the state functions. */
module MemoryBackend {
  import opened Ids
  import opened Reach
  import opened Records
  import opened BlastRadius
  import opened Admission
  import opened Replacement
  import opened Gateway

  class MemoryStateBackend {
    var dag: Dag
    var order: seq<Id>
    var quarantineLedger: seq<Id>
    var quarantineEvents: seq<QuarantineEvent>
    var repairCandidates: map<Id, Repair>
    var checkpoints: seq<Checkpoint>
    var externalEffects: map<string, Id>
    var reintegrationHorizon: map<Id, int>
    var recurrenceEvents: seq<Recurrence>
    var withdrawalLedger: map<Id, Withdrawal>
    var continuityExposures: seq<Exposure>
    var substituteDeclarations: map<Id, Declaration>
    var taintedRejections: seq<Row>
    var adapterKey: string

    ghost function StoreView(): Store
      reads this
    {
      Store(dag, order, Elements(quarantineLedger))
    }

    /** The state this object represents; the ledger list is read as a set. */
    ghost function View(): State
      reads this
    {
      State(StoreView(), quarantineEvents, repairCandidates, checkpoints, externalEffects, reintegrationHorizon,
            recurrenceEvents, withdrawalLedger, continuityExposures, substituteDeclarations, taintedRejections, adapterKey)
    }

    ghost predicate Valid()
      reads this
    {
      Filed(StoreView()) && NoDuplicates(quarantineLedger)
    }

    constructor (key: string)
      ensures Valid() && View() == Initial(key)
    {
      dag := map[CLEAN_PARENT := Bare(CLEAN_PARENT)];
      order := [CLEAN_PARENT];
      quarantineLedger := [SEED_QUARANTINED];
      quarantineEvents := [];
      repairCandidates := map[];
      checkpoints := [];
      externalEffects := map[];
      reintegrationHorizon := map[];
      recurrenceEvents := [];
      withdrawalLedger := map[];
      continuityExposures := [];
      substituteDeclarations := map[];
      taintedRejections := [];
      adapterKey := key;
      new;
      assert Elements(quarantineLedger) == {SEED_QUARANTINED};
    }

    /** First writer wins: a known id is a no-op. */
    method CommitNode(p: Payload) returns (isNew: bool)
      requires Valid()
      modifies `dag, `order
      ensures Valid()
      ensures StoreView() == Commit(old(StoreView()), p)
      ensures isNew <==> p.id !in old(dag)
    {
      if p.id in dag { return false; }
      dag := dag[p.id := p];
      order := order + [p.id];
      return true;
    }

    method ApplyQuarantineTransaction(event: QuarantineEvent, ids: seq<Id>)
      requires Valid()
      modifies `quarantineLedger, `quarantineEvents
      ensures Valid()
      ensures StoreView() == Quarantine(old(StoreView()), Elements(ids))
      ensures quarantineEvents == old(quarantineEvents) + [event]
    {
      quarantineEvents := quarantineEvents + [event];
      for i := 0 to |ids|
        modifies `quarantineLedger
        invariant NoDuplicates(quarantineLedger)
        invariant Elements(quarantineLedger) == old(Elements(quarantineLedger)) + Elements(ids[..i])
      {
        assert ids[..i + 1] == ids[..i] + [ids[i]];
        assert Elements(ids[..i + 1]) == Elements(ids[..i]) + {ids[i]};
        assert Elements(quarantineLedger + [ids[i]]) == Elements(quarantineLedger) + {ids[i]};
        if ids[i] !in quarantineLedger {
          quarantineLedger := quarantineLedger + [ids[i]];
        }
      }
      assert ids[..|ids|] == ids;
    }

    // ---- Traversal ----

    /** Whether a payload derives from `current`, as a parent or else as a cover, and whether over a CARRIED commitment. */
    static method Derives(p: Payload, current: Id) returns (derives: bool, isCarried: bool)
      ensures derives <==> current in Sources(p)
      ensures isCarried <==> CarriedFrom(p, current)
    {
      derives, isCarried := false, false;
      for j := 0 to |p.parents|
        invariant derives <==> exists k :: 0 <= k < j && p.parents[k].parent == current
        invariant isCarried <==> exists k :: 0 <= k < j && p.parents[k].parent == current && p.parents[k].edgeClass == Carried
      {
        if p.parents[j].parent == current {
          derives := true;
          if p.parents[j].edgeClass == Carried { isCarried := true; }
        }
      }
      if !derives && current in p.covers {
        derives := true;
      }
    }

    /** One scan of the graph dictionary for `current`. */
    static method ScanFor(nodes: Dag, keys: seq<Id>, current: Id, visited0: set<Id>, queue0: seq<Id>, affected0: seq<Id>)
      returns (visited: set<Id>, queue: seq<Id>, affected: seq<Id>)
      requires forall n :: n in keys ==> n in nodes
      ensures var kids := Discover(nodes, keys, current, visited0);
              && visited == visited0 + Elements(kids)
              && queue == queue0 + kids
              && affected == affected0 + CarriedAmong(nodes, kids, current)
    {
      hide *;
      visited, queue, affected := visited0, queue0, affected0;
      ghost var found: seq<Id> := [];
      CarriedAmongNone(nodes, current);
      NoElements();
      for i := 0 to |keys|
        invariant visited == visited0 + Elements(found)
        invariant queue == queue0 + found
        invariant affected == affected0 + CarriedAmong(nodes, found, current)
        invariant found + Discover(nodes, keys[i..], current, visited) == Discover(nodes, keys, current, visited0)
      {
        var n := keys[i];
        assert n in keys;
        DiscoverAt(nodes, keys, i, current, visited);
        if n in visited { continue; }
        var derives, isCarried := Derives(nodes[n], current);
        if derives {
          visited := visited + {n};
          queue := queue + [n];
          if isCarried { affected := affected + [n]; }
          CarriedAmongAppend(nodes, found, [n], current);
          CarriedAmongOne(nodes, n, current);
          ScanStep(visited0, queue0, affected0, found, n, CarriedAmong(nodes, found, current), CarriedAmong(nodes, [n], current),
                   Discover(nodes, keys[i + 1..], current, visited));
          found := found + [n];
        }
      }
      DiscoverNone(nodes, keys, current, visited);
      assert found + [] == found;
    }

    static lemma ScanStep(visited: set<Id>, queue: seq<Id>, affected: seq<Id>, found: seq<Id>, n: Id, earlier: seq<Id>, latest: seq<Id>, rest: seq<Id>)
      ensures visited + Elements(found + [n]) == visited + Elements(found) + {n}
      ensures queue + (found + [n]) == queue + found + [n]
      ensures affected + (earlier + latest) == affected + earlier + latest
      ensures affected + earlier + [] == affected + earlier
      ensures (found + [n]) + rest == found + ([n] + rest)
    {
      ElementsAppend(found, n);
    }

    static lemma ElementsAppend(found: seq<Id>, n: Id)
      ensures Elements(found + [n]) == Elements(found) + {n}
    {
    }

    static lemma DiscoverAt(dag: Dag, keys: seq<Id>, i: nat, current: Id, visited: set<Id>)
      requires i < |keys|
      ensures Discover(dag, keys[i..], current, visited) ==
        if keys[i] in dag && keys[i] !in visited && current in Sources(dag[keys[i]])
        then [keys[i]] + Discover(dag, keys[i + 1..], current, visited + {keys[i]})
        else Discover(dag, keys[i + 1..], current, visited)
    {
      assert keys[i..][0] == keys[i] && keys[i..][1..] == keys[i + 1..];
    }

    static lemma DiscoverNone(dag: Dag, keys: seq<Id>, current: Id, visited: set<Id>)
      ensures Discover(dag, keys[|keys|..], current, visited) == []
    {
    }

    static lemma CarriedAmongNone(dag: Dag, current: Id)
      ensures CarriedAmong(dag, [], current) == []
    {
    }

    static lemma CarriedAmongOne(dag: Dag, n: Id, current: Id)
      requires n in dag
      ensures CarriedAmong(dag, [n], current) == if CarriedFrom(dag[n], current) then [n] else []
    {
      assert [n][1..] == [];
      assert CarriedAmong(dag, [], current) == [];
    }

    /** Breadth-first search over the payloads; the pops and the CARRIED discoveries in order. */
    method Search(root: Id) returns (visit: seq<Id>, affected: seq<Id>)
      requires Valid()
      ensures BlastRadius.Search(visit, affected) == BlastSearch(StoreView(), root)
      ensures Elements(visit) == Blast(dag, root) && NoDuplicates(visit)
    {
      hide SearchFrom, Closure, EdgesOf;
      visit, affected := SearchIn(dag, order, root);
      SearchIsClosure(StoreView(), root);
    }

    static method SearchIn(nodes: Dag, keys: seq<Id>, root: Id) returns (visit: seq<Id>, affected: seq<Id>)
      requires forall n :: n in keys ==> n in nodes
      ensures BlastRadius.Search(visit, affected) == SearchFrom(nodes, keys, {root}, [root])
    {
      hide *;
      var visited := {root};
      var queue := [root];
      visit, affected := [], [];
      while queue != []
        invariant var rest := SearchFrom(nodes, keys, visited, queue);
                  && visit + rest.visit == SearchFrom(nodes, keys, {root}, [root]).visit
                  && affected + rest.carried == SearchFrom(nodes, keys, {root}, [root]).carried
        decreases Unseen(nodes, visited), |queue|
      {
        var current := queue[0];
        DiscoverMakesProgress(nodes, keys, current, visited);
        SearchUnfolds(nodes, keys, visited, queue);
        visit := visit + [current];
        visited, queue, affected := ScanFor(nodes, keys, current, visited, queue[1..], affected);
      }
      SearchEnds(nodes, keys, visited);
    }

    static lemma SearchEnds(dag: Dag, order: seq<Id>, visited: set<Id>)
      ensures SearchFrom(dag, order, visited, []) == BlastRadius.Search([], [])
    {
    }

    method HasExternalEffects(ids: seq<Id>) returns (found: bool)
      ensures found <==> exists k :: k in externalEffects && externalEffects[k] in Elements(ids)
    {
      var keys := externalEffects.Keys;
      found := false;
      while keys != {} && !found
        invariant keys <= externalEffects.Keys
        invariant found ==> exists k :: k in externalEffects && externalEffects[k] in Elements(ids)
        invariant !found ==> forall k :: k in externalEffects && k !in keys ==> externalEffects[k] !in Elements(ids)
        decreases keys
      {
        var k :| k in keys;
        keys := keys - {k};
        if externalEffects[k] in ids { found := true; }
      }
    }

    method SelectCheckpoint(frontier: seq<Id>) returns (cp: Option<Checkpoint>)
      ensures cp == FirstCheckpoint(checkpoints, frontier)
    {
      for i := 0 to |checkpoints|
        invariant FirstCheckpoint(checkpoints, frontier) == FirstCheckpoint(checkpoints[i..], frontier)
      {
        assert checkpoints[i..][1..] == checkpoints[i + 1..];
        if checkpoints[i].target in frontier {
          return Some(checkpoints[i]);
        }
      }
      return None;
    }

    method Judge(n: Id, visit: seq<Id>, semanticRollback: bool) returns (r: Repair)
      requires n in dag
      requires semanticRollback <==> exists k :: k in externalEffects && externalEffects[k] in Elements(visit)
      ensures r == Disposition(View(), dag[n], Elements(visit))
    {
      if semanticRollback { return Irreducible(SemanticRollback); }
      var frontier := FrontierOf(dag[n].covers, Elements(visit));
      if frontier == [] { return Irreducible(EmptyFrontier); }
      if dag[n].summarizer == LLM_METHOD {
        var cp := SelectCheckpoint(frontier);
        match cp {
          case None => return Irreducible(NoCheckpoint);
          case Some(c) => return Pending(frontier, c);
        }
      } else {
        return Irreducible(NoBackend);
      }
    }

    /** Judge the affected compactions one after the other, skipping terminal dispositions. */
    method JudgeAffected(affected: seq<Id>, visit: seq<Id>, semanticRollback: bool)
      requires forall n :: n in affected ==> n in dag
      requires semanticRollback <==> exists k :: k in externalEffects && externalEffects[k] in Elements(visit)
      modifies `repairCandidates
      ensures repairCandidates == Judged(old(View()), Elements(affected), Elements(visit))
    {
      hide Disposition;
      ghost var s := View();
      ghost var closure := Elements(visit);
      assert Judged(s, Elements(affected[..0]), closure) == s.repairs;
      for i := 0 to |affected|
        modifies `repairCandidates
        invariant repairCandidates == Judged(s, Elements(affected[..i]), closure)
      {
        var n := affected[i];
        assert n in affected;
        assert affected[..i + 1] == affected[..i] + [n];
        assert Elements(affected[..i + 1]) == Elements(affected[..i]) + {n};
        JudgedStep(s, Elements(affected[..i]), n, closure);
        if !(n in repairCandidates && !repairCandidates[n].Pending?) {
          var r := Judge(n, visit, semanticRollback);
          DispositionIgnoresRepairs(s, View(), dag[n], closure);
          repairCandidates := repairCandidates[n := r];
        }
      }
      assert affected[..|affected|] == affected;
    }

    method ComputeBlastRadius(root: Id) returns (c: seq<Id>)
      requires Valid()
      modifies `repairCandidates
      ensures c == SortedIds(Blast(dag, root))
      ensures repairCandidates == BlastRepairs(old(View()), root)
    {
      hide Closure, EdgesOf, SearchFrom, Judged, Filed;
      var visit, affected := Search(root);
      var semanticRollback := HasExternalEffects(visit);
      forall n | n in affected ensures n in dag {
        AffectedIsCommitted(root, n);
      }
      JudgeAffected(affected, visit, semanticRollback);
      c := SortedIds(Elements(visit));
    }

    lemma AffectedIsCommitted(root: Id, n: Id)
      ensures n in BlastSearch(StoreView(), root).carried ==> n in dag
    {
      SearchClassifies(dag, order, {root}, [root], n);
    }

    lemma DispositionIgnoresRepairs(s: State, t: State, p: Payload, c: set<Id>)
      requires t.effects == s.effects && t.checkpoints == s.checkpoints
      ensures Disposition(t, p, c) == Disposition(s, p, c)
    {
    }

    lemma JudgedStep(s: State, done: set<Id>, n: Id, c: set<Id>)
      requires n in s.store.dag
      ensures var r := Judged(s, done, c);
              Judged(s, done + {n}, c) == if Terminal(r, n) then r else r[n := Disposition(s, s.store.dag[n], c)]
    {
      hide Disposition;
    }

    // ---- Withdrawal ----

    method ApplyWithdrawalTransaction(event: Recurrence, ids: seq<Id>, now: int)
      modifies `recurrenceEvents, `withdrawalLedger
      ensures recurrenceEvents == old(recurrenceEvents) + [event]
      ensures withdrawalLedger == Withdrawn(old(withdrawalLedger), ids, |old(recurrenceEvents)|, now)
    {
      var eventId := |recurrenceEvents|;
      recurrenceEvents := recurrenceEvents + [event];
      ghost var before := withdrawalLedger;
      for i := 0 to |ids|
        modifies `withdrawalLedger
        invariant withdrawalLedger.Keys == before.Keys + Elements(ids[..i])
        invariant forall x :: x in before ==> withdrawalLedger[x] == before[x]
        invariant forall x :: x in withdrawalLedger && x !in before ==> withdrawalLedger[x] == Withdrawal(now, eventId, x == ids[0])
      {
        assert ids[..i + 1] == ids[..i] + [ids[i]];
        if ids[i] !in withdrawalLedger {
          withdrawalLedger := withdrawalLedger[ids[i] := Withdrawal(now, eventId, i == 0)];
          assert i > 0 ==> ids[0] in ids[..i];
        }
      }
      assert ids[..|ids|] == ids;
    }

    method GetActiveHorizonSet(now: int) returns (active: set<Id>)
      ensures active == Active(View(), now)
    {
      active := set x | x in reintegrationHorizon && reintegrationHorizon[x] > now;
    }

    // ---- Tainted-action rows ----

    method RecordTaintedRejection(node: Id, parent: Id, now: int, author: string)
      modifies `taintedRejections
      ensures taintedRejections == old(taintedRejections) + [Row(node, parent, now, author, None, None)]
    {
      taintedRejections := taintedRejections + [Row(node, parent, now, author, None, None)];
    }

    /** First match only, then stop. */
    method RecordTaintedOffer(node: Id, offer: Offer)
      modifies `taintedRejections
      ensures taintedRejections == Offered(old(taintedRejections), node, offer)
    {
      hide Offered;
      var rows := taintedRejections;
      var i := 0;
      assert rows[..0] == [] && rows[0..] == rows;
      while i < |rows| && !(rows[i].node == node && rows[i].offer.None?)
        invariant 0 <= i <= |rows| && taintedRejections == rows
        invariant Offered(rows, node, offer) == rows[..i] + Offered(rows[i..], node, offer)
      {
        OfferedAt(rows, i, node, offer);
        i := i + 1;
      }
      if i < |rows| {
        OfferedAt(rows, i, node, offer);
        taintedRejections := rows[i := rows[i].(offer := Some(offer))];
        assert taintedRejections == Offered(rows, node, offer);
      } else {
        OfferedNone(rows, i, node, offer);
        assert rows == Offered(rows, node, offer);
      }
    }

    lemma OfferedAt(rows: seq<Row>, i: nat, node: Id, offer: Offer)
      requires i < |rows|
      ensures rows[..i] + Offered(rows[i..], node, offer) ==
        if rows[i].node == node && rows[i].offer.None? then rows[i := rows[i].(offer := Some(offer))]
        else rows[..i + 1] + Offered(rows[i + 1..], node, offer)
    {
      assert rows[i..][1..] == rows[i + 1..];
    }

    lemma OfferedNone(rows: seq<Row>, i: nat, node: Id, offer: Offer)
      requires i == |rows|
      ensures rows[..i] + Offered(rows[i..], node, offer) == rows
    {
      assert rows[i..] == [] && rows[..i] == rows;
    }

    /** Whether the write completes the refused action: the offered replacement must be among its parents. */
    static method Earns(r: Row, p: Payload) returns (earns: bool)
      ensures earns <==> Completes(r, p)
    {
      ParentListMeaning(p);
      if r.completedBy.Some? { return false; }
      if r.offer.None? { return false; }
      if r.offer.value.node == "" || r.offer.value.node !in ParentList(p) { return false; }
      if p.retryOf != "" && p.retryOf == r.node {
        if r.author != "" && p.author != r.author { return false; }
      }
      earns := true;
    }

    method CheckRetryCompletion(p: Payload)
      modifies `taintedRejections
      ensures taintedRejections == Completed(old(taintedRejections), p)
    {
      taintedRejections := CompleteRows(taintedRejections, p);
    }

    static method CompleteRows(before: seq<Row>, p: Payload) returns (rows: seq<Row>)
      ensures rows == Completed(before, p)
    {
      hide Completes;
      rows := before;
      for i := 0 to |rows|
        invariant |rows| == |before|
        invariant forall k :: 0 <= k < i ==> rows[k] == Completed(before, p)[k]
        invariant forall k :: i <= k < |rows| ==> rows[k] == before[k]
      {
        var earns := Earns(rows[i], p);
        if earns {
          rows := rows[i := rows[i].(completedBy := Some(p.id))];
        }
      }
    }

    // ---- Replacement search ----

    method QuarantinedAncestors(start: Id) returns (candidates: seq<Id>)
      ensures candidates == Candidates(StoreView(), start)
    {
      hide UpFrom, Universe, ParentsOf;
      ghost var st := StoreView();
      candidates := [];
      var visited: set<Id> := {};
      var queue := [start];
      StartInUniverse(start);
      while queue != []
        invariant Elements(queue) <= Universe(dag, start)
        invariant candidates + UpFrom(st, start, visited, queue) == Candidates(st, start)
        decreases |Universe(dag, start) - visited|, |queue|
      {
        var n := queue[0];
        assert n in Elements(queue);
        UpUnfolds(st, start, visited, queue);
        queue := queue[1..];
        if n in visited { continue; }
        UniverseShrinks(Universe(dag, start), visited, n);
        visited := visited + {n};
        if n in quarantineLedger {
          candidates := candidates + [n];
          queue := queue + ParentsOf(dag, n);
        }
      }
      UpEnds(st, start, visited);
    }

    lemma StartInUniverse(start: Id)
      ensures Elements([start]) <= Universe(dag, start)
    {
    }

    lemma UpEnds(st: Store, start: Id, visited: set<Id>)
      ensures UpFrom(st, start, visited, []) == []
    {
    }

    method OfferFor(candidate: Id) returns (r: Option<Found>)
      ensures r == OfferOf(View(), candidate)
    {
      for i := 0 to |continuityExposures|
        invariant FiredExposure(dag, continuityExposures, candidate) == FiredExposure(dag, continuityExposures[i..], candidate)
      {
        assert continuityExposures[i..][1..] == continuityExposures[i + 1..];
        var e := continuityExposures[i];
        if e.node in dag && dag[e.node].originalTarget == Some(candidate) {
          return Some(Found(e.node, candidate, e.mechanism));
        }
      }
      if candidate in substituteDeclarations {
        var source := substituteDeclarations[candidate].source;
        if source != "" && source in dag && source !in quarantineLedger {
          return Some(Found(source, candidate, "M3_DECLARED_SUBSTITUTE"));
        }
      }
      return None;
    }

    method FindContinuityReplacement(tainted: Id) returns (r: Option<Found>)
      ensures r == FindReplacement(View(), tainted)
    {
      var candidates := QuarantinedAncestors(tainted);
      for i := 0 to |candidates|
        invariant FirstOffer(View(), candidates) == FirstOffer(View(), candidates[i..])
      {
        assert candidates[i..][1..] == candidates[i + 1..];
        r := OfferFor(candidates[i]);
        if r.Some? { return; }
      }
      r := None;
    }

    /** Critical nodes inside the closure or directly below it. */
    method GetCriticalDependents(c: set<Id>) returns (deps: seq<Dependent>)
      requires Valid()
      ensures deps == Critical(dag, order, c)
    {
      hide Critical;
      deps := CriticalIn(dag, order, c);
    }

    static method CriticalIn(nodes: Dag, keys: seq<Id>, c: set<Id>) returns (deps: seq<Dependent>)
      requires forall n :: n in keys ==> n in nodes
      ensures deps == Critical(nodes, keys, c)
    {
      hide *;
      deps := [];
      for i := 0 to |keys|
        invariant deps + Critical(nodes, keys[i..], c) == Critical(nodes, keys, c)
      {
        var n := keys[i];
        assert n in keys;
        CriticalAt(nodes, keys, i, c);
        if nodes[n].criticality > 0.0 {
          var tainted := ParentSet(nodes[n]) * c;
          if n in c || tainted != {} {
            deps := deps + [Dependent(n, nodes[n].criticality, if tainted != {} then tainted else {n})];
          }
        }
      }
      CriticalAtEnd(nodes, keys, c);
      assert deps + [] == deps;
    }

    static lemma CriticalAt(dag: Dag, keys: seq<Id>, i: nat, c: set<Id>)
      requires i < |keys| && keys[i] in dag
      ensures var n := keys[i];
              var tainted := ParentSet(dag[n]) * c;
              Critical(dag, keys[i..], c) ==
                (if dag[n].criticality > 0.0 && (n in c || tainted != {})
                 then [Dependent(n, dag[n].criticality, if tainted != {} then tainted else {n})] else [])
                + Critical(dag, keys[i + 1..], c)
    {
      hide ParentSet;
      assert keys[i..][1..] == keys[i + 1..];
    }

    static lemma CriticalAtEnd(dag: Dag, keys: seq<Id>, c: set<Id>)
      ensures Critical(dag, keys[|keys|..], c) == []
    {
    }
  }
}
