/** What the first-match searches and list builders of the handlers select, stated without their recursion. */
module Selection {
  import opened Ids
  import opened Reach
  import opened Records
  import opened Discovery
  import opened Replacement
  import opened Gateway
  import opened Containment

  /** The checkpoint of a pending repair is the earliest declared one that targets its frontier. */
  lemma {:induction false} FirstCheckpointFinds(checkpoints: seq<Checkpoint>, frontier: seq<Id>) returns (i: nat)
    ensures FirstCheckpoint(checkpoints, frontier).None? <==> forall cp :: cp in checkpoints ==> cp.target !in frontier
    ensures FirstCheckpoint(checkpoints, frontier).Some? ==>
      && i < |checkpoints| && FirstCheckpoint(checkpoints, frontier) == Some(checkpoints[i]) && checkpoints[i].target in frontier
      && forall j :: 0 <= j < i ==> checkpoints[j].target !in frontier
  {
    i := 0;
    if checkpoints != [] && checkpoints[0].target !in frontier {
      var k := FirstCheckpointFinds(checkpoints[1..], frontier);
      i := k + 1;
      assert checkpoints == [checkpoints[0]] + checkpoints[1..];
    }
  }

  predicate CanReplay(cp: Checkpoint, relevant: set<Id>, ledger: set<Id>, at: int) {
    cp.target in relevant && cp.declaredAt < at && cp.refs != {} && cp.refs !! ledger
  }

  /** The replayed checkpoint targets relevant taint, predates containment, and references nothing quarantined. */
  lemma {:induction false} ReplayableFinds(checkpoints: seq<Checkpoint>, relevant: set<Id>, ledger: set<Id>, at: int) returns (i: nat)
    ensures Replayable(checkpoints, relevant, ledger, at).None? <==> forall cp :: cp in checkpoints ==> !CanReplay(cp, relevant, ledger, at)
    ensures Replayable(checkpoints, relevant, ledger, at).Some? ==>
      && i < |checkpoints| && Replayable(checkpoints, relevant, ledger, at) == Some(checkpoints[i])
      && CanReplay(checkpoints[i], relevant, ledger, at)
      && forall j :: 0 <= j < i ==> !CanReplay(checkpoints[j], relevant, ledger, at)
  {
    i := 0;
    if checkpoints != [] && !CanReplay(checkpoints[0], relevant, ledger, at) {
      var k := ReplayableFinds(checkpoints[1..], relevant, ledger, at);
      i := k + 1;
      assert checkpoints == [checkpoints[0]] + checkpoints[1..];
    }
  }

  /** The critical dependents are the nodes of positive weight in the closure or directly below it. */
  lemma {:induction false} CriticalFinds(dag: Dag, order: seq<Id>, c: set<Id>, n: Id)
    ensures (exists d :: d in Critical(dag, order, c) && d.node == n) <==>
      n in order && n in dag && dag[n].criticality > 0.0 && (n in c || ParentSet(dag[n]) * c != {})
    ensures forall d :: d in Critical(dag, order, c) && d.node == n ==>
      d.node in dag && d.criticality == dag[n].criticality
      && d.tainted == if ParentSet(dag[n]) * c == {} then {n} else ParentSet(dag[n]) * c
  {
    hide ParentSet;
    if order != [] {
      CriticalFinds(dag, order[1..], c, n);
      var rest, m := Critical(dag, order[1..], c), order[0];
      assert order == [m] + order[1..];
      if m in dag && dag[m].criticality > 0.0 && (m in c || ParentSet(dag[m]) * c != {}) {
        var tainted := ParentSet(dag[m]) * c;
        var d := Dependent(m, dag[m].criticality, if tainted == {} then {m} else tainted);
        assert Critical(dag, order, c) == [d] + rest;
        assert d in Critical(dag, order, c);
        assert forall e :: e in rest ==> e in Critical(dag, order, c);
      } else {
        assert Critical(dag, order, c) == rest;
      }
    }
  }

  predicate Mismatched(c: Commitment, dag: Dag) {
    c.parent in dag && dag[c.parent].digest != "" && c.hash != dag[c.parent].digest
  }

  /** A write passes the hash comparison exactly when every parent with a stored digest was declared with it. */
  lemma {:induction false} FirstMismatchFinds(parents: seq<Commitment>, dag: Dag) returns (i: nat)
    ensures FirstMismatch(parents, dag).None? <==> forall c :: c in parents ==> !Mismatched(c, dag)
    ensures FirstMismatch(parents, dag).Some? ==> IsFirstMismatch(parents, dag, i) && FirstMismatch(parents, dag) == Some(parents[i].parent)
  {
    i := 0;
    if parents != [] && !Mismatched(parents[0], dag) {
      var k := FirstMismatchFinds(parents[1..], dag);
      i := k + 1;
      assert parents == [parents[0]] + parents[1..];
    }
  }

  predicate IsFirstMismatch(parents: seq<Commitment>, dag: Dag, i: int) {
    0 <= i < |parents| && Mismatched(parents[i], dag) && forall j :: 0 <= j < i ==> !Mismatched(parents[j], dag)
  }

  predicate OneEach(checkpoints: seq<Checkpoint>) {
    forall i, j :: 0 <= i < j < |checkpoints| ==> checkpoints[i].id != checkpoints[j].id
  }

  /** Declaring a checkpoint replaces the one under its id, keeps all others, and keeps one per id. */
  lemma {:induction false} UpsertedFinds(checkpoints: seq<Checkpoint>, cp: Checkpoint)
    requires OneEach(checkpoints)
    ensures OneEach(Upserted(checkpoints, cp))
    ensures forall x :: x in Upserted(checkpoints, cp) <==> x == cp || (x in checkpoints && x.id != cp.id)
  {
    if checkpoints != [] {
      var head, rest := checkpoints[0], checkpoints[1..];
      assert checkpoints == [head] + rest;
      assert forall x :: x in rest ==> x.id != head.id;
      if head.id == cp.id {
        assert Upserted(checkpoints, cp) == [cp] + rest;
        FirstDiffers(cp, rest);
      } else {
        UpsertedFinds(rest, cp);
        FirstDiffers(head, Upserted(rest, cp));
      }
    }
  }

  lemma FirstDiffers(head: Checkpoint, rest: seq<Checkpoint>)
    requires OneEach(rest) && forall x :: x in rest ==> x.id != head.id
    ensures OneEach([head] + rest)
  {
    var s := [head] + rest;
    forall i, j | 0 <= i < j < |s| ensures s[i].id != s[j].id {
      assert s[j] == rest[j - 1] && s[j] in rest;
      if i > 0 { assert s[i] == rest[i - 1]; }
    }
  }

  /** Where a checkpoint lands: in the place of the one under its id, else last; every other keeps its place. */
  lemma {:induction false} UpsertedInPlace(checkpoints: seq<Checkpoint>, cp: Checkpoint)
    requires OneEach(checkpoints)
    ensures var r := Upserted(checkpoints, cp);
            && |r| == (if exists x :: x in checkpoints && x.id == cp.id then |checkpoints| else |checkpoints| + 1)
            && (forall i :: 0 <= i < |checkpoints| ==> r[i] == if checkpoints[i].id == cp.id then cp else checkpoints[i])
            && (|r| > |checkpoints| ==> r[|checkpoints|] == cp)
  {
    if checkpoints != [] {
      var head, rest := checkpoints[0], checkpoints[1..];
      assert checkpoints == [head] + rest;
      if head.id == cp.id {
        assert head in checkpoints;
        assert forall i :: 1 <= i < |checkpoints| ==> checkpoints[i].id != checkpoints[0].id;
      } else {
        UpsertedInPlace(rest, cp);
      }
    }
  }

  /** Some external effect was recorded for a node of the closure. */
  predicate HadEffect(s: State, c: set<Id>) {
    exists k :: k in s.effects && s.effects[k] in c
  }

  /** Some declared checkpoint targets a cover outside the closure. */
  predicate HasCheckpoint(s: State, p: Payload, c: set<Id>) {
    exists cp :: cp in s.checkpoints && cp.target in p.covers && cp.target !in c
  }

  /**
   * The disposition of a compaction, reason by reason: a rollback hazard comes first, then a fully tainted cover list,
   * then a missing backend, then a missing checkpoint; otherwise it is pending.
   */
  lemma DispositionMeaning(s: State, p: Payload, c: set<Id>)
    ensures var (d, left) := (Disposition(s, p, c), exists u :: u in p.covers && u !in c);
            && (d == Irreducible(SemanticRollback) <==> HadEffect(s, c))
            && (d == Irreducible(EmptyFrontier) <==> !HadEffect(s, c) && !left)
            && (d == Irreducible(NoBackend) <==> !HadEffect(s, c) && left && p.summarizer != LLM_METHOD)
            && (d == Irreducible(NoCheckpoint) <==> !HadEffect(s, c) && left && p.summarizer == LLM_METHOD && !HasCheckpoint(s, p, c))
            && (d.Pending? <==> !HadEffect(s, c) && p.summarizer == LLM_METHOD && HasCheckpoint(s, p, c))
    ensures Disposition(s, p, c).Pending? ==> PendingOn(s, p, c, Disposition(s, p, c))
  {
    hide FirstCheckpoint, FrontierOf, PendingOn, HadEffect, HasCheckpoint, Listed;
    var frontier := FrontierOf(p.covers, c);
    FrontierOfMeaning(p.covers, c);
    HasMember(frontier);
    EffectsMeaning(s, c);
    CheckpointsMeaning(s, p, c);
    if FirstCheckpoint(s.checkpoints, frontier).Some? { PendingFields(s, p, c); }
  }

  /** The repair waits on the first checkpoint that targets a clean cover, and keeps the clean covers as they are listed. */
  ghost predicate PendingOn(s: State, p: Payload, c: set<Id>, r: Repair)
    requires r.Pending?
  {
    && (exists i :: 0 <= i < |s.checkpoints| && r.checkpoint == s.checkpoints[i]
          && forall j :: 0 <= j < i ==> !(s.checkpoints[j].target in p.covers && s.checkpoints[j].target !in c))
    && r.checkpoint in s.checkpoints && r.checkpoint.target in r.frontier
    && (forall u :: u in r.frontier <==> u in p.covers && u !in c)
    && (forall u :: u !in c ==> multiset(r.frontier)[u] == multiset(p.covers)[u])
    && Listed(p.covers, r.frontier)
  }

  lemma EffectsMeaning(s: State, c: set<Id>)
    ensures HadEffect(s, c) <==> exists k :: k in s.effects && s.effects[k] in c
  {
  }

  lemma CheckpointsMeaning(s: State, p: Payload, c: set<Id>)
    ensures HasCheckpoint(s, p, c) <==> FirstCheckpoint(s.checkpoints, FrontierOf(p.covers, c)).Some?
    ensures HasCheckpoint(s, p, c) ==> exists u :: u in p.covers && u !in c
  {
    hide FirstCheckpoint, FrontierOf;
    FrontierOfMeaning(p.covers, c);
    var i := FirstCheckpointFinds(s.checkpoints, FrontierOf(p.covers, c));
  }

  lemma PendingFields(s: State, p: Payload, c: set<Id>)
    requires FirstCheckpoint(s.checkpoints, FrontierOf(p.covers, c)).Some?
    ensures PendingOn(s, p, c, Pending(FrontierOf(p.covers, c), FirstCheckpoint(s.checkpoints, FrontierOf(p.covers, c)).value))
  {
    hide FirstCheckpoint, FrontierOf, Listed;
    FrontierOfMeaning(p.covers, c);
    FrontierCounts(p.covers, c);
    FrontierListed(p.covers, c);
    var i := FirstCheckpointFinds(s.checkpoints, FrontierOf(p.covers, c));
    assert s.checkpoints[i] in s.checkpoints;
  }

  lemma {:induction false} FrontierListed(covers: seq<Id>, c: set<Id>)
    ensures Listed(covers, FrontierOf(covers, c))
  {
    hide Listed;
    if covers == [] {
      NothingListed();
    } else {
      FrontierListed(covers[1..], c);
      FrontierOfMeaning(covers[1..], c);
      ListedLater(covers, FrontierOf(covers[1..], c));
      assert [] + FrontierOf(covers[1..], c) == FrontierOf(covers[1..], c);
    }
  }

  lemma {:induction false} FrontierCounts(covers: seq<Id>, c: set<Id>)
    ensures forall u :: u !in c ==> multiset(FrontierOf(covers, c))[u] == multiset(covers)[u]
  {
    if covers != [] {
      FrontierCounts(covers[1..], c);
      assert covers == [covers[0]] + covers[1..];
    }
  }
}
