/** The order of containment decisions does not matter to the graph and the ledger. */
module Confluence {
  import opened Ids
  import opened Reach
  import opened Records
  import opened BlastRadius
  import opened Admission
  import opened Gateway
  import opened Containment
  import opened Lineage

  /** Designation up to the quarantine transaction: the node must exist, and a second designation changes nothing. */
  ghost function Mark(cfg: Config, s: State, root: Id, now: int): State {
    if root !in s.store.dag || root in s.store.ledger then s else Contain(cfg, s, root, now)
  }

  lemma MarkEffect(cfg: Config, s: State, root: Id, now: int)
    ensures Mark(cfg, s, root, now).store ==
      if root !in s.store.dag || root in s.store.ledger then s.store else Quarantine(s.store, Blast(s.store.dag, root))
  {
    hide Contain;
    ContainEffect(cfg, s, root, now);
  }

  /** Marking adds the closure of the node, also when it returns early because the node is already quarantined. */
  lemma MarkAddsClosure(cfg: Config, s: State, root: Id, now: int)
    requires Closed(EdgesOf(s.store.dag), s.store.ledger) && root in s.store.dag
    ensures Mark(cfg, s, root, now).store == Quarantine(s.store, Blast(s.store.dag, root))
  {
    hide Closure, EdgesOf, Mark;
    MarkEffect(cfg, s, root, now);
    if root in s.store.ledger {
      ClosureIsLeast(EdgesOf(s.store.dag), {root}, s.store.ledger);
      assert s.store.ledger + Blast(s.store.dag, root) == s.store.ledger;
    }
  }

  /** Any two designations commute. */
  lemma DesignationsCommute(cfg: Config, s: State, a: Id, b: Id, now: int, later: int)
    requires Closed(EdgesOf(s.store.dag), s.store.ledger)
    ensures Mark(cfg, Mark(cfg, s, a, now), b, later).store == Mark(cfg, Mark(cfg, s, b, now), a, later).store
  {
    hide Closure, EdgesOf, Mark;
    MarkEffect(cfg, s, a, now);
    MarkEffect(cfg, s, b, now);
    MarkEffect(cfg, Mark(cfg, s, a, now), b, later);
    MarkEffect(cfg, Mark(cfg, s, b, now), a, later);
    if a in s.store.dag && b in s.store.dag {
      var ca, cb := Blast(s.store.dag, a), Blast(s.store.dag, b);
      MarkAddsClosure(cfg, s, a, now);
      MarkAddsClosure(cfg, s, b, now);
      QuarantineKeepsClosed(s.store, a);
      QuarantineKeepsClosed(s.store, b);
      MarkAddsClosure(cfg, Mark(cfg, s, a, now), b, later);
      MarkAddsClosure(cfg, Mark(cfg, s, b, now), a, later);
      assert s.store.ledger + ca + cb == s.store.ledger + cb + ca;
    }
  }

  lemma QuarantineKeepsClosed(st: Store, root: Id)
    requires Closed(EdgesOf(st.dag), st.ledger)
    ensures Closed(EdgesOf(st.dag), Quarantine(st, Blast(st.dag, root)).ledger)
  {
    ClosureIsClosed(EdgesOf(st.dag), {root});
    hide Closure, EdgesOf;
  }

  /** A new, cover-free write with committed parents and matching hashes that passes verification. */
  ghost predicate PlainWrite(st: Store, sub: Submission, now: int) {
    var p := sub.payload;
    && p.id !in st.dag && p.id !in st.ledger && p.covers == [] && |p.parents| <= 256
    && ParentSet(p) <= st.dag.Keys && FirstMismatch(p.parents, st.dag).None?
    && sub.signatureValid && sub.policyUp
    && p.boundaryFixed && !p.justified && p.id != "none"
    && sub.auth.isNhi && sub.auth.expiresAt > now && sub.auth.scope == "agent:state:reconstruct" && sub.auth.verifier == "PASSED"
  }

  /** A plain write is either admitted or, on a tainted parent, committed and quarantined alone. */
  lemma PlainWriteEffect(cfg: Config, s: State, sub: Submission, now: int)
    requires PlainWrite(s.store, sub, now)
    ensures Submit(cfg, s, sub, now).0.store ==
      var st := Commit(s.store, WithGap(sub.payload, s.store.dag));
      if ParentSet(sub.payload) !! s.store.ledger then st else Quarantine(st, {sub.payload.id})
  {
    hide Reject, Accept, Evaluate, WithGap, Submit, Closure, EdgesOf, FirstMismatch, Commit, Quarantine, RejectionEvent, Roots;
    var p, parents, ledger := sub.payload, ParentSet(sub.payload), s.store.ledger;
    PlainIsConsidered(s, sub, now);
    hide ParentSet, PlainWrite, Considered;
    SubmitBranches(cfg, s, sub, now);
    GapKeepsFields(p, s.store.dag);
    Meet(parents, ledger, {});
    match Evaluate(p, s.store, sub.auth, now) {
      case TaintedParent(root) => RejectEffect(cfg, s, WithGap(p, s.store.dag), root, now);
      case _ => PlainIsAccepted(s, sub, now);
    }
  }

  lemma Meet(a: set<Id>, b: set<Id>, c: set<Id>)
    ensures a !! b <==> a * b == {}
    ensures a <= c && a * b == {} ==> a <= c - b
  {
    if a * b == {} {
      forall x | x in a ensures x !in b {
        assert x !in a * b;
      }
    }
  }

  lemma PlainIsConsidered(s: State, sub: Submission, now: int)
    requires PlainWrite(s.store, sub, now)
    ensures Considered(s, sub)
    ensures Evaluate(sub.payload, s.store, sub.auth, now).TaintedParent? <==> ParentSet(sub.payload) * s.store.ledger != {}
    ensures Evaluate(sub.payload, s.store, sub.auth, now).TaintedParent? || Evaluate(sub.payload, s.store, sub.auth, now) == Admit
  {
    hide Evaluate, ParentSet, FirstMismatch;
    DecisionMeaning(sub.payload, s.store, sub.auth, now);
    assert Tainted(sub.payload.covers, s.store.ledger) == [];
    Meet(ParentSet(sub.payload), s.store.ledger, s.store.dag.Keys);
  }

  lemma PlainIsAccepted(s: State, sub: Submission, now: int)
    requires PlainWrite(s.store, sub, now)
    ensures Accept(s, WithGap(sub.payload, s.store.dag)).0.store == Commit(s.store, WithGap(sub.payload, s.store.dag))
  {
    hide WithGap, FirstMismatch, ParentSet, Completed;
    GapKeepsFields(sub.payload, s.store.dag);
  }

  /** What the write adds below itself is already accounted for. */
  lemma ClosureAroundWrite(st: Store, p: Payload, root: Id)
    requires Filed(st) && CleanLineage(st) && p.id !in st.dag && root in st.dag
    ensures var c, c' := Blast(st.dag, root), Blast(Commit(st, p).dag, root);
            && c <= c' <= st.ledger + c + {p.id}
            && (Sources(p) !! st.ledger + c ==> c' == c)
            && (!(Sources(p) !! c) ==> p.id in c')
  {
    hide Closure, EdgesOf, Sources;
    var e, e' := EdgesOf(st.dag), EdgesOf(Commit(st, p).dag);
    var c := Blast(st.dag, root);
    CommitEdges(st, p);
    LineageIsClosed(st);
    ClosureMonotone(e, e', {root}, {root});
    ClosureIsClosed(e, {root});
    ClosureIsClosed(e', {root});
    BlastIsCommitted(st, root);
    forall v | (p.id, v) in e ensures v in st.ledger {
      EdgeMeaning(st.dag, p.id, v);
    }
    ClosureIsLeast(e', {root}, st.ledger + c + {p.id});
    if Sources(p) !! st.ledger + c {
      ClosureIsLeast(e', {root}, c);
    }
    if !(Sources(p) !! c) {
      var u :| u in Sources(p) && u in c;
      assert (u, p.id) in e';
    }
  }

  lemma PlainSources(p: Payload, dag: Dag)
    requires p.covers == []
    ensures Sources(WithGap(p, dag)) == ParentSet(p)
  {
    GapKeepsFields(p, dag);
    assert Elements(p.covers) == {};
  }

  lemma DifferentNodesCommute(cfg: Config, s: State, sub: Submission, root: Id, now: int)
    requires Filed(s.store) && CleanLineage(s.store) && PlainWrite(s.store, sub, now) && root != sub.payload.id
    ensures Mark(cfg, Submit(cfg, s, sub, now).0, root, now).store == Submit(cfg, Mark(cfg, s, root, now), sub, now).0.store
  {
    hide Closure, EdgesOf, Mark, Submit, WithGap, ParentSet, FirstMismatch, CleanLineage, Filed, Sources;
    var first, marked := Submit(cfg, s, sub, now).0, Mark(cfg, s, root, now);
    var p := WithGap(sub.payload, s.store.dag);
    GapKeepsFields(sub.payload, s.store.dag);
    PlainSources(sub.payload, s.store.dag);
    PlainWriteEffect(cfg, s, sub, now);
    MarkEffect(cfg, s, root, now);
    MarkEffect(cfg, first, root, now);
    BlastIsCommitted(s.store, root);
    if root in s.store.dag && root !in s.store.ledger {
      PlainWriteEffect(cfg, marked, sub, now);
      ClosureAroundWrite(s.store, p, root);
      var c, c' := Blast(s.store.dag, root), Blast(Commit(s.store, p).dag, root);
      assert Commit(marked.store, p).dag == Commit(s.store, p).dag;
      LedgersAgree(s.store.ledger, c, c', p.id, ParentSet(sub.payload));
    } else {
      PlainWriteEffect(cfg, marked, sub, now);
    }
  }

  /** Designating the written node itself: unknown before the write, contained after it unless the write was refused. */
  lemma OwnDesignation(cfg: Config, s: State, sub: Submission, now: int)
    requires PlainWrite(s.store, sub, now)
    ensures var root := sub.payload.id;
            Mark(cfg, Submit(cfg, s, sub, now).0, root, now).store == Submit(cfg, Mark(cfg, s, root, now), sub, now).0.store <==>
              !(ParentSet(sub.payload) !! s.store.ledger)
  {
    hide Closure, EdgesOf, Mark, Submit, WithGap, ParentSet, FirstMismatch;
    var root := sub.payload.id;
    var first := Submit(cfg, s, sub, now).0;
    GapKeepsFields(sub.payload, s.store.dag);
    PlainWriteEffect(cfg, s, sub, now);
    MarkIsNothing(cfg, s, root, now);
    MarkEffect(cfg, first, root, now);
    if ParentSet(sub.payload) !! s.store.ledger {
      ClosureIsClosed(EdgesOf(first.store.dag), {root});
      assert root in Blast(first.store.dag, root);
      assert root !in first.store.ledger;
    }
  }

  lemma MarkIsNothing(cfg: Config, s: State, root: Id, now: int)
    requires root !in s.store.dag
    ensures Mark(cfg, s, root, now) == s
  {
    hide Contain;
  }

  /**
   * Submitting then designating, or designating then submitting, ends in the same graph and ledger, except that
   * an admitted write cannot be designated before it exists.
   */
  lemma SubmitAndDesignateCommute(cfg: Config, s: State, sub: Submission, root: Id, now: int)
    requires Filed(s.store) && CleanLineage(s.store) && PlainWrite(s.store, sub, now)
    ensures Mark(cfg, Submit(cfg, s, sub, now).0, root, now).store == Submit(cfg, Mark(cfg, s, root, now), sub, now).0.store <==>
      root != sub.payload.id || !(ParentSet(sub.payload) !! s.store.ledger)
  {
    hide *;
    if root == sub.payload.id {
      OwnDesignation(cfg, s, sub, now);
    } else {
      DifferentNodesCommute(cfg, s, sub, root, now);
    }
  }

  lemma LedgersAgree(ledger: set<Id>, c: set<Id>, c': set<Id>, id: Id, parents: set<Id>)
    requires c <= c' <= ledger + c + {id}
    requires parents !! ledger + c ==> c' == c
    requires !(parents !! c) ==> id in c'
    ensures parents !! ledger ==> (if parents !! ledger + c then ledger + c else ledger + c + {id}) == ledger + c'
    ensures !(parents !! ledger) ==> ledger + {id} + c' == ledger + c + {id} && !(parents !! ledger + c)
  {
  }
}
