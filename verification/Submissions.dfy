/** What one submission answers and stores, in terms of the payload that came in and the state it met. */
module Submissions {
  import opened Ids
  import opened Reach
  import opened Records
  import opened BlastRadius
  import opened Admission
  import opened Replacement
  import opened CoversGap
  import opened Gateway
  import opened Containment
  import opened Selection
  import opened Nearest
  import opened Completion
  import opened Audit

  // ---- The answer ----

  /** The verification policy: a separate, unexpired, scoped and passed verifier for an unjustified claim. */
  predicate Verified(p: Payload, auth: Auth, now: int) {
    && !p.justified && p.id != "none"
    && auth.isNhi && auth.expiresAt > now && auth.scope == "agent:state:reconstruct" && auth.verifier == "PASSED"
  }

  /** The outcome of a submission, check by check in the order the checks are made. */
  ghost predicate Answers(s: State, sub: Submission, now: int, resp: Response) {
    var p := sub.payload;
    if !sub.signatureValid then resp == Unauthorized
    else if |p.parents| > 256 then resp == BadRequest
    else if p.id in s.store.ledger then resp == Conflict
    else if p.compaction && exists u :: u in p.covers && u in s.store.ledger then
      resp.TaintedCovers? && forall u :: u in resp.covers <==> u in p.covers && u in s.store.ledger
    else if !sub.policyUp then resp == Unavailable
    else if exists c :: c in p.parents && c.parent in s.store.ledger then resp.TaintedLineage?
    else if !p.boundaryFixed || exists c :: c in p.parents && c.parent !in s.store.dag then resp == BadRequest
    else if !Verified(p, sub.auth, now) then resp == VerificationRefused
    else if exists c :: c in p.parents && Mismatched(c, s.store.dag) then
      exists i :: IsFirstMismatch(p.parents, s.store.dag, i) && resp == HashMismatch(p.parents[i].parent)
    else resp == Ok(p.id in s.store.dag)
  }

  lemma RejectAnswers(cfg: Config, s: State, p: Payload, root: Id, now: int)
    ensures Reject(cfg, s, p, root, now).1.TaintedLineage?
  {
    hide Refused, FindReplacement, RejectionEvent, Offered;
  }

  lemma AcceptAnswers(s: State, p: Payload)
    ensures var resp := Accept(s, p).1;
            if exists c :: c in p.parents && Mismatched(c, s.store.dag) then
              exists i :: IsFirstMismatch(p.parents, s.store.dag, i) && resp == HashMismatch(p.parents[i].parent)
            else resp == Ok(p.id in s.store.dag)
  {
    hide Completed, Commit, FirstMismatch, Mismatched;
    var i := FirstMismatchFinds(p.parents, s.store.dag);
  }

  lemma ParentsMeaning(p: Payload, st: Store)
    ensures ParentSet(p) * st.ledger != {} <==> exists c :: c in p.parents && c.parent in st.ledger
    ensures ParentSet(p) <= st.dag.Keys <==> !exists c :: c in p.parents && c.parent !in st.dag
  {
    if u :| u in ParentSet(p) * st.ledger {
      var c :| c in p.parents && c.parent == u;
    }
    if c :| c in p.parents && c.parent in st.ledger {
      assert c.parent in ParentSet(p) * st.ledger;
    }
    if c :| c in p.parents && c.parent !in st.dag {
      assert c.parent in ParentSet(p);
    }
  }

  lemma EvaluateMeaning(p: Payload, st: Store, auth: Auth, now: int)
    ensures match Evaluate(p, st, auth, now)
            case TaintedParent(_) => exists c :: c in p.parents && c.parent in st.ledger
            case InvalidLineage =>
              && !(exists c :: c in p.parents && c.parent in st.ledger)
              && (!p.boundaryFixed || exists c :: c in p.parents && c.parent !in st.dag)
            case VerificationFailed =>
              && !(exists c :: c in p.parents && c.parent in st.ledger)
              && p.boundaryFixed && !(exists c :: c in p.parents && c.parent !in st.dag) && !Verified(p, auth, now)
            case Admit =>
              && !(exists c :: c in p.parents && c.parent in st.ledger)
              && p.boundaryFixed && !(exists c :: c in p.parents && c.parent !in st.dag) && Verified(p, auth, now)
  {
    hide Evaluate, ParentSet;
    ParentsMeaning(p, st);
    DecisionMeaning(p, st, auth, now);
    InvalidLineageMeaning(p, st, auth, now);
    Avoiding(ParentSet(p), st.dag.Keys, st.ledger);
  }

  lemma Avoiding(a: set<Id>, b: set<Id>, c: set<Id>)
    ensures a * c != {} <==> !(a !! c)
    ensures a !! c ==> (a <= b - c <==> a <= b)
  {
    if !(a !! c) {
      var x :| x in a && x in c;
      assert x in a * c;
    }
  }

  lemma CoversMeaning(covers: seq<Id>, ledger: set<Id>)
    ensures Tainted(covers, ledger) != [] <==> exists u :: u in covers && u in ledger
    ensures forall u :: u in Tainted(covers, ledger) <==> u in covers && u in ledger
  {
    TaintedMeaning(covers, ledger);
    HasMember(Tainted(covers, ledger));
  }

  lemma SubmitResponds(cfg: Config, s: State, sub: Submission, now: int)
    ensures Answers(s, sub, now, Submit(cfg, s, sub, now).1)
  {
    hide Reject, Accept, Evaluate, WithGap, Tainted, Mismatched, Verified;
    var p := WithGap(sub.payload, s.store.dag);
    GapKeepsFields(sub.payload, s.store.dag);
    GapIsAnnotation(sub.payload, s.store, sub.auth, now);
    CoversMeaning(sub.payload.covers, s.store.ledger);
    EvaluateMeaning(sub.payload, s.store, sub.auth, now);
    match Evaluate(sub.payload, s.store, sub.auth, now) {
      case TaintedParent(root) => RejectAnswers(cfg, s, p, root, now);
      case Admit => AcceptAnswers(s, p);
      case _ =>
    }
  }

  // ---- What is stored ----

  /** x is uncovered, committed, and on a parent path from one cover to another. */
  ghost predicate BetweenCovers(dag: Dag, covers: seq<Id>, x: Id) {
    && x in dag && x !in covers
    && (exists u :: u in covers && Reaches(ParentEdges(dag), u, x))
    && (exists u :: u in covers && Reaches(ParentEdges(dag), x, u))
  }

  /** A compaction is stored with its interval gap, computed by the gateway and listed in order; any other payload as it came. */
  ghost predicate StoredFor(dag: Dag, p: Payload, q: Payload) {
    if p.compaction
    then q == p.(gap := q.gap) && Ascending(q.gap) && forall x :: x in q.gap <==> BetweenCovers(dag, p.covers, x)
    else q == p
  }

  lemma AnnotationMeaning(p: Payload, dag: Dag)
    ensures StoredFor(dag, p, WithGap(p, dag))
  {
    hide ParentEdges, Reaches;
    GapKeepsFields(p, dag);
    forall x ensures x in Gap(dag, Elements(p.covers)) <==> BetweenCovers(dag, p.covers, x) {
      assert forall u :: u in Elements(p.covers) <==> u in p.covers;
    }
  }

  /** Only a new id is added, under the payload as it is to be stored. */
  ghost predicate Adds(s: Store, t: Store, p: Payload, q: Payload) {
    if p.id in s.dag then t.dag == s.dag && t.order == s.order
    else t.dag == s.dag[p.id := q] && t.order == s.order + [p.id]
  }

  /**
   * The graph after a submission: an accepted or refused write adds its payload under a new id, with the gap the
   * gateway computed; every other answer leaves the state alone.
   */
  lemma SubmitStores(cfg: Config, s: State, sub: Submission, now: int) returns (q: Payload)
    ensures StoredFor(s.store.dag, sub.payload, q)
    ensures var (t, resp) := Submit(cfg, s, sub, now);
            if resp.TaintedLineage? then
              Adds(s.store, t.store, sub.payload, q) && t.store.ledger == s.store.ledger + {sub.payload.id}
            else if resp == Ok(false) then
              && sub.payload.id !in s.store.dag && Adds(s.store, t.store, sub.payload, q) && t.store.ledger == s.store.ledger
              && t == s.(store := t.store, rejections := t.rejections)
            else t == s
  {
    hide Submit, Evaluate, WithGap, Considered, StoredFor, Answers;
    q := WithGap(sub.payload, s.store.dag);
    AnnotationMeaning(sub.payload, s.store.dag);
    GapKeepsFields(sub.payload, s.store.dag);
    SubmitBranches(cfg, s, sub, now);
    SubmitReply(cfg, s, sub, now);
    if Considered(s, sub) {
      match Evaluate(sub.payload, s.store, sub.auth, now) {
        case TaintedParent(root) => RejectAdds(cfg, s, q, root, now);
        case Admit => AcceptAdds(s, q);
        case _ =>
      }
    }
  }

  lemma SubmitReply(cfg: Config, s: State, sub: Submission, now: int)
    ensures var (p, resp) := (WithGap(sub.payload, s.store.dag), Submit(cfg, s, sub, now).1);
            if !Considered(s, sub) then !resp.TaintedLineage? && !resp.Ok?
            else match Evaluate(sub.payload, s.store, sub.auth, now)
              case TaintedParent(root) => resp == Reject(cfg, s, p, root, now).1
              case Admit => resp == Accept(s, p).1
              case _ => !resp.TaintedLineage? && !resp.Ok?
  {
    hide Reject, Accept, Evaluate, WithGap, Tainted;
    GapKeepsFields(sub.payload, s.store.dag);
    GapIsAnnotation(sub.payload, s.store, sub.auth, now);
  }

  lemma RejectAdds(cfg: Config, s: State, p: Payload, root: Id, now: int)
    ensures var (t, resp) := Reject(cfg, s, p, root, now);
            && resp.TaintedLineage? && t.store.ledger == s.store.ledger + {p.id}
            && Adds(s.store, t.store, p, p)
  {
    hide Reject, RejectionEvent, Roots;
    RejectEffect(cfg, s, p, root, now);
    RejectAnswers(cfg, s, p, root, now);
  }

  lemma AcceptAdds(s: State, p: Payload)
    ensures var (t, resp) := Accept(s, p);
            if resp == Ok(false) then
              p.id !in s.store.dag && Adds(s.store, t.store, p, p) && t.store.ledger == s.store.ledger
              && t == s.(store := t.store, rejections := t.rejections)
            else t == s && !resp.TaintedLineage?
  {
    hide FirstMismatch, Completed;
  }

  // ---- A refusal, end to end ----

  /**
   * A refused write is answered with its first quarantined parent, the closure below that parent and the digest of the
   * ledger with both, and with the best replacement there is; event and row record the same.
   */
  lemma RefusalRecorded(cfg: Config, s: State, sub: Submission, now: int)
    requires RowsOnce(s) && Submit(cfg, s, sub, now).1.TaintedLineage?
    ensures var (t, resp) := Submit(cfg, s, sub, now);
            var (p, root, found) := (sub.payload, resp.event.root, resp.replacement);
            var c := Blast(t.store.dag, root);
            && (exists i :: IsFirstTainted(ParentList(p), s.store.ledger, i) && root == p.parents[i].parent)
            && resp.event == QuarantineEvent(root, now, SortedIds(c), SortedIds(s.store.ledger + c + {p.id}), Rejection)
            && t.events == s.events + [resp.event]
            && BestFound(t, root, found)
            && t.rejections == s.rejections + [Row(p.id, root, now, p.author,
                 if found.None? then None else Some(Offer(found.value.node, found.value.target == root)), None)]
  {
    hide Submit, Evaluate, WithGap, Reject, Accept, BestFound, RowsOnce, Closure, EdgesOf, Roots;
    var p := WithGap(sub.payload, s.store.dag);
    GapKeepsFields(sub.payload, s.store.dag);
    SubmitBranches(cfg, s, sub, now);
    SubmitReply(cfg, s, sub, now);
    AcceptNeverTainted(s, p);
    DecisionMeaning(sub.payload, s.store, sub.auth, now);
    var root := Evaluate(sub.payload, s.store, sub.auth, now).root;
    RejectEffect(cfg, s, p, root, now);
    RejectEvent(cfg, s, p, root, now);
    var found := RefusalOffersNearest(cfg, s, p, root, now);
  }

  lemma AcceptNeverTainted(s: State, p: Payload)
    ensures !Accept(s, p).1.TaintedLineage?
  {
    hide FirstMismatch, Completed;
  }

  lemma RejectEvent(cfg: Config, s: State, p: Payload, root: Id, now: int)
    ensures var (t, resp) := Reject(cfg, s, p, root, now);
            && resp.TaintedLineage?
            && resp.event == RejectionEvent(Commit(s.store, p).dag, s.store.ledger, p.id, root, now)
  {
    hide Refused, FindReplacement, RejectionEvent, Offered;
  }
}
