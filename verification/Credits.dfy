/** When a refused action is completed: by the first accepted write that earns it, and by nothing else. */
module Credits {
  import opened Ids
  import opened Reach
  import opened Records
  import opened BlastRadius
  import opened Admission
  import opened Gateway
  import opened Containment
  import opened Audit
  import opened Completion
  import opened Submissions

  /**
   * The write builds on the replacement the row was offered, and does not claim to be the retry of
   * someone else's action.
   */
  predicate Deserves(r: Row, p: Payload) {
    && r.offer.Some? && r.offer.value.node != ""
    && (exists c :: c in p.parents && c.parent == r.offer.value.node)
    && !(p.retryOf != "" && p.retryOf == r.node && r.author != "" && r.author != p.author)
  }

  lemma CompletesMeaning(r: Row, p: Payload, q: Payload)
    requires q == p.(gap := q.gap)
    ensures Completes(r, q) <==> r.completedBy.None? && Deserves(r, p)
  {
    if r.offer.Some? {
      assert r.offer.value.node in ParentSet(q) <==> exists c :: c in p.parents && c.parent == r.offer.value.node;
    }
  }

  lemma CompletedRow(rows: seq<Row>, p: Payload, q: Payload, i: nat)
    requires q == p.(gap := q.gap) && i < |rows|
    ensures |Completed(rows, q)| == |rows|
    ensures Completed(rows, q)[i] ==
      if rows[i].completedBy.None? && Deserves(rows[i], p) then rows[i].(completedBy := Some(p.id)) else rows[i]
  {
    hide Completes, Deserves;
    CompletesMeaning(rows[i], p, q);
  }

  lemma SubmitCompletes(cfg: Config, s: State, sub: Submission, now: int)
    requires Submit(cfg, s, sub, now).1 == Ok(false)
    ensures Submit(cfg, s, sub, now).0.rejections == Completed(s.rejections, WithGap(sub.payload, s.store.dag))
  {
    hide Submit, Evaluate, WithGap, Reject, Accept, Completed, Considered;
    var p := WithGap(sub.payload, s.store.dag);
    SubmitBranches(cfg, s, sub, now);
    SubmitReply(cfg, s, sub, now);
    if Considered(s, sub) {
      match Evaluate(sub.payload, s.store, sub.auth, now) {
        case TaintedParent(root) => RejectAnswers(cfg, s, p, root, now);
        case Admit => AcceptCompletes(s, p);
        case _ =>
      }
    }
  }

  lemma AcceptCompletes(s: State, p: Payload)
    requires Accept(s, p).1 == Ok(false)
    ensures Accept(s, p).0.rejections == Completed(s.rejections, p)
  {
    hide FirstMismatch, Completed;
  }

  /** The request is a submission that is accepted under a new id, and the row is open and earned by it. */
  predicate Credits(r: Request, row: Row, resp: Response) {
    && r.SubmitCandidate? && resp == Ok(false)
    && row.completedBy.None? && Deserves(row, r.sub.payload)
  }

  lemma OtherRows(cfg: Config, s: State, r: Request)
    requires !r.SubmitCandidate?
    ensures Next(cfg, s, r).rejections == s.rejections
  {
    hide Designate, Recur, CompactionPayload, Tainted, Upserted, Commit, ParentSet;
    match r {
      case DesignatePoison(root, token, now) => DesignateRows(cfg, s, root, token, now);
      case Observe(n, now) => ObserveRows(cfg, s, n, now);
      case _ =>
    }
  }

  lemma SubmitIs(cfg: Config, s: State, sub: Submission, now: int)
    ensures Handle(cfg, s, SubmitCandidate(sub, now)) == Submit(cfg, s, sub, now)
  {
    hide Submit;
  }

  /** One request completes exactly the open rows that its accepted new write earns, and leaves every other row alone. */
  lemma StepCredits(cfg: Config, s: State, r: Request, i: nat)
    requires Accounted(s) && i < |s.rejections|
    ensures var (t, resp) := Handle(cfg, s, r);
            && i < |t.rejections|
            && t.rejections[i] ==
                 if Credits(r, s.rejections[i], resp) then s.rejections[i].(completedBy := Some(r.sub.payload.id))
                 else s.rejections[i]
  {
    hide Handle, Submit, RowTruth, Deserves, RowsOnce, RowsTrue;
    match r {
      case SubmitCandidate(sub, now) =>
        SubmitIs(cfg, s, sub, now);
        SubmittedRow(cfg, s, sub, now, i);
      case _ => OtherRows(cfg, s, r);
    }
  }

  lemma SubmittedRow(cfg: Config, s: State, sub: Submission, now: int, i: nat)
    requires RowsOnce(s) && i < |s.rejections|
    ensures var (t, resp) := Submit(cfg, s, sub, now);
            && i < |t.rejections|
            && t.rejections[i] ==
                 if resp == Ok(false) && s.rejections[i].completedBy.None? && Deserves(s.rejections[i], sub.payload)
                 then s.rejections[i].(completedBy := Some(sub.payload.id)) else s.rejections[i]
    ensures var (t, resp) := Submit(cfg, s, sub, now);
            |t.rejections| == if resp.TaintedLineage? then |s.rejections| + 1 else |s.rejections|
  {
    hide *;
    var resp := Submit(cfg, s, sub, now).1;
    var q := SubmitStores(cfg, s, sub, now);
    if resp == Ok(false) {
      SubmitCompletes(cfg, s, sub, now);
      GapKeepsFields(sub.payload, s.store.dag);
      CompletedRow(s.rejections, sub.payload, WithGap(sub.payload, s.store.dag), i);
    } else if resp.TaintedLineage? {
      RefusalRecorded(cfg, s, sub, now);
    }
  }

  // ---- Over whole runs ----

  /** Request k of the run completes row i. */
  ghost predicate CreditedAt(cfg: Config, key: string, rs: seq<Request>, k: int, i: nat) {
    && 0 <= k < |rs|
    && var s := Run(cfg, Initial(key), rs[..k]);
       i < |s.rejections| && Credits(rs[k], s.rejections[i], Handle(cfg, s, rs[k]).1)
  }

  lemma NewRowsAreOpen(cfg: Config, s: State, r: Request, i: nat)
    requires Accounted(s) && |s.rejections| <= i < |Next(cfg, s, r).rejections|
    ensures Next(cfg, s, r).rejections[i].completedBy.None?
  {
    hide Next, RowTruth, RowsOnce, RowsTrue;
    StepRows(cfg, s, r);
    AdmittedLength(s, Next(cfg, s, r));
    if Refuses(s, Next(cfg, s, r)) {
      var row :| Next(cfg, s, r).rejections == s.rejections + [row] && row.completedBy.None?;
    }
  }

  lemma AdmittedLength(s: State, t: State)
    ensures Admits(s, t) ==> |t.rejections| == |s.rejections|
  {
    hide Completes;
  }

  lemma {:induction false} RowsGrow(cfg: Config, key: string, rs: seq<Request>, k: nat)
    requires k <= |rs|
    ensures |Run(cfg, Initial(key), rs[..k]).rejections| <= |Run(cfg, Initial(key), rs).rejections|
    decreases |rs|
  {
    hide Next, Accounted;
    if k == |rs| {
      assert rs[..k] == rs;
    } else {
      var n := |rs| - 1;
      assert rs[..n][..k] == rs[..k];
      RowsGrow(cfg, key, rs[..n], k);
      RunAccounts(cfg, key, rs[..n]);
      StepAccounts(cfg, Run(cfg, Initial(key), rs[..n]), rs[n]);
    }
  }

  /** ... and does so for a submission of n. */
  ghost predicate CreditedTo(cfg: Config, key: string, rs: seq<Request>, k: int, i: nat, n: Id) {
    CreditedAt(cfg, key, rs, k, i) && rs[k].sub.payload.id == n
  }

  lemma CreditedEarlier(cfg: Config, key: string, rs: seq<Request>, k: int, i: nat, n: Id)
    requires rs != [] && k != |rs| - 1
    ensures CreditedTo(cfg, key, rs, k, i, n) <==> CreditedTo(cfg, key, rs[..|rs| - 1], k, i, n)
  {
    hide Run, Handle, Credits;
    if 0 <= k < |rs| - 1 {
      assert rs[..|rs| - 1][..k] == rs[..k] && rs[..|rs| - 1][k] == rs[k];
    }
  }

  lemma NextIs(cfg: Config, s: State, r: Request)
    ensures Next(cfg, s, r) == Handle(cfg, s, r).0
  {
    hide Handle;
  }

  /**
   * In every run a row is completed by n exactly when some request of the run was a submission of n, accepted as new,
   * that earned the row while it was still open.
   */
  lemma {:induction false} CreditHistory(cfg: Config, key: string, rs: seq<Request>, i: nat, n: Id)
    requires i < |Run(cfg, Initial(key), rs).rejections|
    ensures Run(cfg, Initial(key), rs).rejections[i].completedBy == Some(n) <==> exists k :: CreditedTo(cfg, key, rs, k, i, n)
    decreases |rs|
  {
    hide Accounted, Next, Credits, CreditedTo, Handle, Run;
    RunEnds(cfg, key, rs);
    if rs != [] {
      var last := |rs| - 1;
      var s := Run(cfg, Initial(key), rs[..last]);
      RunAccounts(cfg, key, rs[..last]);
      NextIs(cfg, s, rs[last]);
      LastCredit(cfg, key, rs, i, n);
      forall k ensures k != last ==> (CreditedTo(cfg, key, rs, k, i, n) <==> CreditedTo(cfg, key, rs[..last], k, i, n)) {
        if k != last { CreditedEarlier(cfg, key, rs, k, i, n); }
      }
      NotBeyond(cfg, key, rs[..last], i, n);
      if i < |s.rejections| {
        StepCredits(cfg, s, rs[last], i);
        CreditHistory(cfg, key, rs[..last], i, n);
      } else {
        NewRowsAreOpen(cfg, s, rs[last], i);
        forall k ensures !CreditedTo(cfg, key, rs[..last], k, i, n) {
          if CreditedTo(cfg, key, rs[..last], k, i, n) {
            CreditRow(cfg, key, rs[..last], k, i, n);
            RowsGrow(cfg, key, rs[..last], k);
          }
        }
      }
    }
  }

  lemma RunEnds(cfg: Config, key: string, rs: seq<Request>)
    ensures rs == [] ==> Run(cfg, Initial(key), rs).rejections == []
    ensures rs != [] ==> Run(cfg, Initial(key), rs) == Next(cfg, Run(cfg, Initial(key), rs[..|rs| - 1]), rs[|rs| - 1])
  {
    hide Next;
  }

  lemma LastCredit(cfg: Config, key: string, rs: seq<Request>, i: nat, n: Id)
    requires rs != []
    ensures var (s, r) := (Run(cfg, Initial(key), rs[..|rs| - 1]), rs[|rs| - 1]);
            && (CreditedTo(cfg, key, rs, |rs| - 1, i, n) <==>
                  i < |s.rejections| && Credits(r, s.rejections[i], Handle(cfg, s, r).1) && r.sub.payload.id == n)
            && (i < |s.rejections| && Credits(r, s.rejections[i], Handle(cfg, s, r).1) ==> s.rejections[i].completedBy.None?)
  {
    hide Run, Handle, Deserves;
  }

  lemma NotBeyond(cfg: Config, key: string, rs: seq<Request>, i: nat, n: Id)
    ensures !CreditedTo(cfg, key, rs, |rs|, i, n)
  {
    hide Run, Handle, Credits;
  }

  lemma CreditRow(cfg: Config, key: string, rs: seq<Request>, k: int, i: nat, n: Id)
    requires CreditedTo(cfg, key, rs, k, i, n)
    ensures 0 <= k < |rs| && i < |Run(cfg, Initial(key), rs[..k]).rejections|
  {
    hide Run, Handle, Credits;
  }
}
