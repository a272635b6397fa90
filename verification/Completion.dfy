/** Accounting of refused actions: rejection rows, offers and completions over whole runs. */
module Completion {
  import opened Ids
  import opened Reach
  import opened Records
  import opened BlastRadius
  import opened Admission
  import opened Replacement
  import opened Gateway
  import opened Containment
  import opened Audit
  import opened Nearest

  /** One row per refused id, and every refused id is quarantined. */
  ghost predicate RowsOnce(s: State) {
    && (forall i :: 0 <= i < |s.rejections| ==> s.rejections[i].node in s.store.ledger)
    && DistinctRows(s.rejections)
  }

  ghost predicate DistinctRows(rows: seq<Row>) {
    forall i, j :: 0 <= i < j < |rows| ==> rows[i].node != rows[j].node
  }

  /** A completed row was offered, and what completed it is a committed node built on the offered replacement. */
  predicate RowTruth(dag: Dag, r: Row) {
    r.completedBy.Some? ==>
      r.offer.Some? && r.completedBy.value in dag && r.offer.value.node in ParentSet(dag[r.completedBy.value])
  }

  ghost predicate RowsTrue(s: State) {
    forall i :: 0 <= i < |s.rejections| ==> RowTruth(s.store.dag, s.rejections[i])
  }

  /** The same refusal at a later time: what was recorded stays, and an offer and a completion can be added. */
  predicate Later(r: Row, r': Row) {
    && r'.node == r.node && r'.taintedParent == r.taintedParent && r'.at == r.at && r'.author == r.author
    && (r.offer.Some? ==> r'.offer == r.offer)
    && (r.completedBy.Some? ==> r'.completedBy == r.completedBy)
  }

  ghost predicate RowsLater(rows: seq<Row>, rows': seq<Row>) {
    |rows| <= |rows'| && forall i :: 0 <= i < |rows| ==> Later(rows[i], rows'[i])
  }

  // ---- First match and WHERE ----

  /** UPDATE ... SET offered WHERE node_id = ? AND offered = 0. */
  function OfferedWhere(rows: seq<Row>, node: Id, offer: Offer): seq<Row> {
    seq(|rows|, i requires 0 <= i < |rows| =>
      if rows[i].node == node && rows[i].offer.None? then rows[i].(offer := Some(offer)) else rows[i])
  }

  lemma DistinctTail(rows: seq<Row>)
    requires DistinctRows(rows) && rows != []
    ensures DistinctRows(rows[1..])
    ensures forall r :: r in rows[1..] ==> r.node != rows[0].node
  {
  }

  lemma WhereStep(rows: seq<Row>, node: Id, offer: Offer)
    requires rows != []
    ensures OfferedWhere(rows, node, offer) ==
      [if rows[0].node == node && rows[0].offer.None? then rows[0].(offer := Some(offer)) else rows[0]]
      + OfferedWhere(rows[1..], node, offer)
  {
  }

  lemma {:induction false} OfferedElsewhere(rows: seq<Row>, node: Id, offer: Offer)
    requires forall r :: r in rows ==> r.node != node
    ensures Offered(rows, node, offer) == rows == OfferedWhere(rows, node, offer)
  {
    hide OfferedWhere;
    if rows == [] {
      WhereNothing(node, offer);
    } else {
      WhereStep(rows, node, offer);
      OfferedElsewhere(rows[1..], node, offer);
      assert rows == [rows[0]] + rows[1..];
    }
  }

  lemma WhereNothing(node: Id, offer: Offer)
    ensures OfferedWhere([], node, offer) == []
  {
  }

  lemma {:induction false} OfferedFirst(rows: seq<Row>, node: Id, offer: Offer)
    requires DistinctRows(rows)
    ensures Offered(rows, node, offer) == OfferedWhere(rows, node, offer)
  {
    hide DistinctRows, OfferedWhere;
    if rows == [] {
      WhereNothing(node, offer);
    } else {
      DistinctTail(rows);
      WhereStep(rows, node, offer);
      if rows[0].node == node {
        OfferedElsewhere(rows[1..], node, offer);
        assert rows == [rows[0]] + rows[1..];
      } else {
        OfferedFirst(rows[1..], node, offer);
      }
    }
  }

  /** The SQL completion updates by node id every open row of each row that earns it. */
  function CompletedWhere(rows: seq<Row>, p: Payload): seq<Row> {
    seq(|rows|, i requires 0 <= i < |rows| =>
      if rows[i].completedBy.None? && exists j :: 0 <= j < |rows| && rows[j].node == rows[i].node && Completes(rows[j], p)
      then rows[i].(completedBy := Some(p.id)) else rows[i])
  }

  /** With one row per id the two backends' updates agree. */
  lemma UpdatesAgree(rows: seq<Row>, node: Id, offer: Offer, p: Payload)
    requires DistinctRows(rows)
    ensures Offered(rows, node, offer) == OfferedWhere(rows, node, offer)
    ensures Completed(rows, p) == CompletedWhere(rows, p)
  {
    OfferedFirst(rows, node, offer);
    var a, b := Completed(rows, p), CompletedWhere(rows, p);
    forall i | 0 <= i < |rows| ensures a[i] == b[i] {
      if j :| 0 <= j < |rows| && rows[j].node == rows[i].node && Completes(rows[j], p) {
        assert j == i;
      }
    }
  }

  // ---- What one request does to the rows ----

  /** A write was refused: its row is appended, perhaps with an offer. */
  ghost predicate Refuses(s: State, t: State) {
    exists r :: t.rejections == s.rejections + [r] && r.completedBy.None? && r.node !in s.store.ledger && r.node in t.store.ledger
  }

  /** A write was admitted over clean, committed parents, and completes what it earns. */
  ghost predicate Admits(s: State, t: State) {
    exists p: Payload :: AdmittedBy(s, t, p)
  }

  ghost predicate AdmittedBy(s: State, t: State, p: Payload) {
    && t.rejections == Completed(s.rejections, p)
    && p.id !in s.store.dag && p.id in t.store.dag && t.store.dag[p.id] == p
    && ParentSet(p) <= s.store.dag.Keys - s.store.ledger
  }

  lemma OfferedToLast(rows: seq<Row>, r: Row, offer: Offer)
    requires forall i :: 0 <= i < |rows| ==> rows[i].node != r.node
    requires r.offer.None?
    ensures Offered(rows + [r], r.node, offer) == rows + [r.(offer := Some(offer))]
  {
    OfferedPast(rows, [r], r.node, offer);
    assert Offered([r], r.node, offer) == [r.(offer := Some(offer))] + [r][1..];
  }

  lemma {:induction false} OfferedPast(rows: seq<Row>, more: seq<Row>, node: Id, offer: Offer)
    requires forall i :: 0 <= i < |rows| ==> rows[i].node != node
    ensures Offered(rows + more, node, offer) == rows + Offered(more, node, offer)
  {
    if rows == [] {
      assert rows + more == more;
      assert [] + Offered(more, node, offer) == Offered(more, node, offer);
    } else {
      assert (rows + more)[1..] == rows[1..] + more;
      OfferedPast(rows[1..], more, node, offer);
      assert rows == [rows[0]] + rows[1..];
    }
  }

  lemma RefusedRows(cfg: Config, s: State, p: Payload, root: Id, now: int)
    ensures Refused(cfg, s, p, root, now).rejections == s.rejections + [Row(p.id, root, now, p.author, None, None)]
  {
    hide Assess, Closure, EdgesOf, Commit;
    AssessKeeps(cfg, s.(store := Commit(s.store, p)), root, now);
  }

  lemma RejectRows(cfg: Config, s: State, p: Payload, root: Id, now: int)
    requires RowsOnce(s) && p.id !in s.store.ledger
    ensures var t := Reject(cfg, s, p, root, now).0; Refuses(s, t)
  {
    hide Closure, EdgesOf, FindReplacement, Offered, RejectionEvent, Refused;
    var t := Reject(cfg, s, p, root, now).0;
    RejectEffect(cfg, s, p, root, now);
    RefusedRows(cfg, s, p, root, now);
    var r := Row(p.id, root, now, p.author, None, None);
    match FindReplacement(Refused(cfg, s, p, root, now), root) {
      case None =>
        assert t.rejections == s.rejections + [r];
      case Some(f) =>
        OfferedToLast(s.rejections, r, Offer(f.node, f.target == root));
        assert t.rejections == s.rejections + [r.(offer := Some(Offer(f.node, f.target == root)))];
    }
  }

  lemma AcceptRows(s: State, p: Payload)
    requires ParentSet(p) <= s.store.dag.Keys - s.store.ledger
    ensures var t := Accept(s, p).0; t.rejections == s.rejections || Admits(s, t)
  {
    hide FirstMismatch, Completed, ParentSet;
    var t := Accept(s, p).0;
    if t != s { assert AdmittedBy(s, t, p); }
  }

  lemma SubmitRows(cfg: Config, s: State, sub: Submission, now: int)
    requires RowsOnce(s)
    ensures var t := Submit(cfg, s, sub, now).0; t.rejections == s.rejections || Refuses(s, t) || Admits(s, t)
  {
    hide Reject, Accept, Evaluate, WithGap, Submit, Refuses, Admits, RowsOnce;
    var p := WithGap(sub.payload, s.store.dag);
    GapKeepsFields(sub.payload, s.store.dag);
    GapIsAnnotation(sub.payload, s.store, sub.auth, now);
    SubmitBranches(cfg, s, sub, now);
    if Considered(s, sub) {
      DecisionMeaning(sub.payload, s.store, sub.auth, now);
      match Evaluate(sub.payload, s.store, sub.auth, now) {
        case TaintedParent(root) => RejectRows(cfg, s, p, root, now);
        case Admit => AcceptRows(s, p);
        case _ =>
      }
    }
  }

  lemma DesignateRows(cfg: Config, s: State, root: Id, token: string, now: int)
    ensures Designate(cfg, s, root, token, now).0.rejections == s.rejections
  {
    hide Contain, Continue, Reconstruct, Closure, EdgesOf, Critical;
    ContainEffect(cfg, s, root, now);
    var s1 := Contain(cfg, s, root, now);
    var c := Blast(s.store.dag, root);
    ContinueKeeps(s1, s1, Critical(s1.store.dag, s1.store.order, c), token, now);
    ReconstructKeeps(cfg, Continuity(cfg, s1, c, token, now), root, token, now);
  }

  lemma StepRows(cfg: Config, s: State, r: Request)
    requires RowsOnce(s)
    ensures var t := Next(cfg, s, r); t.rejections == s.rejections || Refuses(s, t) || Admits(s, t)
  {
    hide Submit, Designate, Recur, CompactionPayload, Tainted, Upserted, Refuses, Admits, RowsOnce;
    match r {
      case SubmitCandidate(sub, now) => SubmitRows(cfg, s, sub, now);
      case DesignatePoison(root, token, now) => DesignateRows(cfg, s, root, token, now);
      case Observe(n, now) => ObserveRows(cfg, s, n, now);
      case _ =>
    }
  }

  lemma ObserveRows(cfg: Config, s: State, n: Id, now: int)
    ensures Recur(cfg, s, n, now).rejections == s.rejections
  {
    hide Closure, EdgesOf, BlastRepairs;
  }

  // ---- Every run ----

  ghost predicate Accounted(s: State) {
    RowsOnce(s) && RowsTrue(s)
  }

  lemma RowTruthExtends(dag: Dag, dag': Dag, r: Row)
    requires RowTruth(dag, r) && forall n :: n in dag ==> n in dag' && dag'[n] == dag[n]
    ensures RowTruth(dag', r)
  {
  }

  lemma StepAccounts(cfg: Config, s: State, r: Request)
    requires Accounted(s)
    ensures Accounted(Next(cfg, s, r)) && RowsLater(s.rejections, Next(cfg, s, r).rejections)
  {
    hide Next, RowTruth, Completes;
    var t := Next(cfg, s, r);
    StepExtends(cfg, s, r);
    StepRows(cfg, s, r);
    forall i | 0 <= i < |s.rejections| ensures RowTruth(t.store.dag, s.rejections[i]) {
      RowTruthExtends(s.store.dag, t.store.dag, s.rejections[i]);
    }
    if t.rejections != s.rejections {
      if Refuses(s, t) {
        var row :| t.rejections == s.rejections + [row] && row.completedBy.None? && row.node !in s.store.ledger && row.node in t.store.ledger;
        NewRowTruth(t.store.dag, row);
      } else {
        var p :| AdmittedBy(s, t, p);
        CompletedLater(s.rejections, p);
        forall i | 0 <= i < |s.rejections| ensures RowTruth(t.store.dag, t.rejections[i]) {
          CompletedTruth(t.store.dag, s.rejections[i], p);
        }
      }
    }
  }

  lemma NewRowTruth(dag: Dag, r: Row)
    requires r.completedBy.None?
    ensures RowTruth(dag, r)
  {
  }

  lemma CompletedTruth(dag: Dag, r: Row, p: Payload)
    requires RowTruth(dag, r) && p.id in dag && dag[p.id] == p
    ensures RowTruth(dag, if Completes(r, p) then r.(completedBy := Some(p.id)) else r)
  {
  }

  lemma CompletedLater(rows: seq<Row>, p: Payload)
    ensures RowsLater(rows, Completed(rows, p))
  {
    forall i | 0 <= i < |rows| ensures Later(rows[i], Completed(rows, p)[i]) {
    }
  }

  /** In every run each refused id has one row, and every completion is backed by an offer and a committed node. */
  lemma {:induction false} RunAccounts(cfg: Config, key: string, rs: seq<Request>)
    ensures Accounted(Run(cfg, Initial(key), rs))
    decreases |rs|
  {
    hide Accounted, Next;
    if rs == [] {
      NothingRefused(key);
    } else {
      RunAccounts(cfg, key, rs[..|rs| - 1]);
      StepAccounts(cfg, Run(cfg, Initial(key), rs[..|rs| - 1]), rs[|rs| - 1]);
    }
  }

  lemma NothingRefused(key: string)
    ensures Accounted(Initial(key))
  {
  }

  /** Row i was completed by the step from s to t, by a write whose parents were all committed and clean then. */
  ghost predicate CompletedBetween(s: State, t: State, i: nat, n: Id) {
    && i < |s.rejections| <= |t.rejections|
    && s.rejections[i].completedBy.None? && t.rejections[i].completedBy == Some(n)
    && n !in s.store.dag && n in t.store.dag
    && ParentSet(t.store.dag[n]) <= s.store.dag.Keys - s.store.ledger
  }

  lemma StepCompletes(cfg: Config, s: State, r: Request, i: nat)
    requires Accounted(s) && i < |Next(cfg, s, r).rejections| && Next(cfg, s, r).rejections[i].completedBy.Some?
    ensures var t := Next(cfg, s, r);
            || (i < |s.rejections| && s.rejections[i].completedBy == t.rejections[i].completedBy)
            || CompletedBetween(s, t, i, t.rejections[i].completedBy.value)
  {
    hide Next, RowTruth, ParentSet, RowsOnce, RowsTrue;
    StepRows(cfg, s, r);
    var t := Next(cfg, s, r);
    if t.rejections != s.rejections && !Refuses(s, t) {
      var p :| AdmittedBy(s, t, p);
    }
  }

  /** Every completion happened at one request of the run, with parents that were clean at that moment. */
  lemma {:induction false} CompletionHistory(cfg: Config, key: string, rs: seq<Request>, i: nat) returns (k: nat)
    requires i < |Run(cfg, Initial(key), rs).rejections| && Run(cfg, Initial(key), rs).rejections[i].completedBy.Some?
    ensures k < |rs|
    ensures CompletedBetween(Run(cfg, Initial(key), rs[..k]), Run(cfg, Initial(key), rs[..k + 1]), i,
                             Run(cfg, Initial(key), rs).rejections[i].completedBy.value)
    decreases |rs|
  {
    hide Accounted, Next, CompletedBetween;
    var n := |rs| - 1;
    RunAccounts(cfg, key, rs[..n]);
    StepCompletes(cfg, Run(cfg, Initial(key), rs[..n]), rs[n], i);
    assert rs[..n + 1] == rs;
    if CompletedBetween(Run(cfg, Initial(key), rs[..n]), Run(cfg, Initial(key), rs), i, Run(cfg, Initial(key), rs).rejections[i].completedBy.value) {
      k := n;
    } else {
      k := CompletionHistory(cfg, key, rs[..n], i);
      assert rs[..n][..k] == rs[..k] && rs[..n][..k + 1] == rs[..k + 1];
    }
  }

  // ---- What a refusal offers ----

  function OfferFrom(found: Option<Found>, root: Id): Option<Offer> {
    if found.None? then None else Some(Offer(found.value.node, found.value.target == root))
  }

  lemma SameBest(s: State, t: State, root: Id, found: Option<Found>)
    requires t.store == s.store && t.exposures == s.exposures && t.substitutes == s.substitutes
    requires BestFound(s, root, found)
    ensures BestFound(t, root, found)
  {
    hide TaintedAncestry, NoFarther, StandsIn;
    forall x ensures HasOffer(t, x) <==> HasOffer(s, x) {
    }
    if found.Some? {
      forall i ensures FirstStandIn(t, i, found.value.target) <==> FirstStandIn(s, i, found.value.target) {
      }
    }
  }

  /**
   * Every refusal appends one row and answers with the best replacement there is in the state it leads to; the row
   * carries it, marked direct exactly when it stands in for the tainted parent itself.
   */
  lemma RefusalOffersNearest(cfg: Config, s: State, p: Payload, root: Id, now: int) returns (found: Option<Found>)
    requires RowsOnce(s) && p.id !in s.store.ledger && root in s.store.ledger
    ensures var (t, resp) := Reject(cfg, s, p, root, now);
            && resp.TaintedLineage? && resp.replacement == found && BestFound(t, root, found)
            && t.rejections == s.rejections + [Row(p.id, root, now, p.author,
                 if found.None? then None else Some(Offer(found.value.node, found.value.target == root)), None)]
  {
    hide Reject, Refused, FindReplacement, BestFound, Offered;
    var s4 := Refused(cfg, s, p, root, now);
    found := FindReplacement(s4, root);
    RefusedRows(cfg, s, p, root, now);
    RefusedLedger(cfg, s, p, root, now);
    RejectUnfolds(cfg, s, p, root, now);
    NearestReplacement(s4, root);
    SameBest(s4, Reject(cfg, s, p, root, now).0, root, found);
    if found.Some? {
      OfferedToLast(s.rejections, Row(p.id, root, now, p.author, None, None), OfferFrom(found, root).value);
    }
  }

  lemma RefusedLedger(cfg: Config, s: State, p: Payload, root: Id, now: int)
    ensures s.store.ledger <= Refused(cfg, s, p, root, now).store.ledger
  {
    hide Assess, Closure, EdgesOf, RejectionEvent;
  }

  // ---- The report ----

  datatype Stats = Stats(total: nat, offered: nat, completed: nat, directOffered: nat, ancestorOffered: nat,
                         directCompleted: nat, ancestorCompleted: nat)

  predicate IsOffered(r: Row) { r.offer.Some? }

  predicate IsDirect(r: Row) { r.offer.Some? && r.offer.value.direct }

  predicate IsAncestor(r: Row) { r.offer.Some? && !r.offer.value.direct }

  predicate IsCompleted(r: Row) { r.completedBy.Some? }

  predicate IsDirectCompleted(r: Row) { IsCompleted(r) && IsDirect(r) }

  predicate IsAncestorCompleted(r: Row) { IsCompleted(r) && IsAncestor(r) }

  function Count(rows: seq<Row>, f: Row -> bool): nat {
    if rows == [] then 0 else Count(rows[..|rows| - 1], f) + if f(rows[|rows| - 1]) then 1 else 0
  }

  lemma CountStep(rows: seq<Row>, i: nat, f: Row -> bool)
    requires i < |rows|
    ensures Count(rows[..i + 1], f) == Count(rows[..i], f) + if f(rows[i]) then 1 else 0
  {
    assert rows[..i + 1][..i] == rows[..i];
  }

  /** Each figure counts its rows; as every completed row was offered, the kinds add up and no count exceeds its whole. */
  method GetTaintedActionStats(rows: seq<Row>) returns (stats: Stats)
    requires forall r :: r in rows && r.completedBy.Some? ==> r.offer.Some?
    ensures stats.total == |rows|
    ensures stats.offered == Count(rows, IsOffered) && stats.completed == Count(rows, IsCompleted)
    ensures stats.directOffered == Count(rows, IsDirect) && stats.ancestorOffered == Count(rows, IsAncestor)
    ensures stats.directCompleted == Count(rows, IsDirectCompleted) && stats.ancestorCompleted == Count(rows, IsAncestorCompleted)
    ensures stats.directOffered + stats.ancestorOffered == stats.offered
    ensures stats.directCompleted + stats.ancestorCompleted == stats.completed
    ensures stats.completed <= stats.offered <= stats.total
    ensures stats.directCompleted <= stats.directOffered && stats.ancestorCompleted <= stats.ancestorOffered
  {
    hide Count;
    var offered, completed, directO, ancestorO, directC, ancestorC := 0, 0, 0, 0, 0, 0;
    NothingCounted(rows);
    for i := 0 to |rows|
      invariant directO + ancestorO == offered && directC + ancestorC == completed
      invariant directC <= directO && ancestorC <= ancestorO && offered <= i
      invariant offered == Count(rows[..i], IsOffered)
      invariant completed == Count(rows[..i], IsCompleted)
      invariant directO == Count(rows[..i], IsDirect) && ancestorO == Count(rows[..i], IsAncestor)
      invariant directC == Count(rows[..i], IsDirectCompleted) && ancestorC == Count(rows[..i], IsAncestorCompleted)
    {
      var r := rows[i];
      assert r in rows;
      CountStep(rows, i, IsOffered);
      CountStep(rows, i, IsCompleted);
      CountStep(rows, i, IsDirect);
      CountStep(rows, i, IsAncestor);
      CountStep(rows, i, IsDirectCompleted);
      CountStep(rows, i, IsAncestorCompleted);
      if r.offer.Some? {
        offered := offered + 1;
        if r.offer.value.direct { directO := directO + 1; } else { ancestorO := ancestorO + 1; }
      }
      if r.completedBy.Some? {
        completed := completed + 1;
        if r.offer.value.direct { directC := directC + 1; } else { ancestorC := ancestorC + 1; }
      }
    }
    assert rows[..|rows|] == rows;
    stats := Stats(|rows|, offered, completed, directO, ancestorO, directC, ancestorC);
  }

  lemma NothingCounted(rows: seq<Row>)
    ensures Count(rows[..0], IsOffered) == Count(rows[..0], IsCompleted) == 0
    ensures Count(rows[..0], IsDirect) == Count(rows[..0], IsAncestor) == 0
    ensures Count(rows[..0], IsDirectCompleted) == Count(rows[..0], IsAncestorCompleted) == 0
  {
  }
}
