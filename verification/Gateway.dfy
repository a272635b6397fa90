/** What each request does to the gateway's state, in enforce mode. */
module Gateway {
  import opened Ids
  import opened Reach
  import opened Records
  import opened BlastRadius
  import opened Admission
  import opened Replacement
  import opened CoversGap

  // ---- Repair dispositions assigned by a traversal ----

  predicate Terminal(repairs: map<Id, Repair>, n: Id) {
    n in repairs && !repairs[n].Pending?
  }

  function FrontierOf(covers: seq<Id>, c: set<Id>): seq<Id> {
    if covers == [] then [] else (if covers[0] in c then [] else [covers[0]]) + FrontierOf(covers[1..], c)
  }

  function FirstCheckpoint(checkpoints: seq<Checkpoint>, frontier: seq<Id>): Option<Checkpoint> {
    if checkpoints == [] then None
    else if checkpoints[0].target in frontier then Some(checkpoints[0])
    else FirstCheckpoint(checkpoints[1..], frontier)
  }

  function Disposition(s: State, p: Payload, c: set<Id>): Repair {
    if exists k :: k in s.effects && s.effects[k] in c then Irreducible(SemanticRollback)
    else
      var frontier := FrontierOf(p.covers, c);
      if frontier == [] then Irreducible(EmptyFrontier)
      else if p.summarizer != LLM_METHOD then Irreducible(NoBackend)
      else
        match FirstCheckpoint(s.checkpoints, frontier)
        case None => Irreducible(NoCheckpoint)
        case Some(cp) => Pending(frontier, cp)
  }

  /** Candidates without a terminal disposition are judged again; terminal ones are kept. */
  ghost function Judged(s: State, affected: set<Id>, c: set<Id>): map<Id, Repair> {
    map n | n in s.repairs.Keys + affected * s.store.dag.Keys ::
      if n in affected && n in s.store.dag && !Terminal(s.repairs, n)
      then Disposition(s, s.store.dag[n], c) else s.repairs[n]
  }

  ghost function BlastRepairs(s: State, root: Id): map<Id, Repair> {
    Judged(s, Elements(BlastSearch(s.store, root).carried), Blast(s.store.dag, root))
  }

  // ---- Recurrence and withdrawal ----

  function Withdrawn(w: map<Id, Withdrawal>, ids: seq<Id>, event: nat, now: int): map<Id, Withdrawal> {
    map x | x in w.Keys + Elements(ids) :: if x in w then w[x] else Withdrawal(now, event, x == ids[0])
  }

  /** An event whose closure exceeds the amplification limit is logged and withdraws nothing. */
  ghost function Recur(cfg: Config, s: State, n: Id, now: int): State {
    var c := Blast(s.store.dag, n);
    s.(repairs := BlastRepairs(s, n),
       recurrences := s.recurrences + [Recurrence(n, now, |c| > cfg.maxAmplification, c)],
       withdrawals := if |c| > cfg.maxAmplification then s.withdrawals
                      else Withdrawn(s.withdrawals, SortedIds(c), |s.recurrences|, now))
  }

  ghost function RecurAll(cfg: Config, s: State, ids: seq<Id>, active: set<Id>, now: int): State
    decreases |ids|
  {
    if ids == [] then s else
      var before := RecurAll(cfg, s, ids[..|ids| - 1], active, now);
      var n := ids[|ids| - 1];
      if n in active then Recur(cfg, before, n, now) else before
  }

  lemma {:induction false} RecurAllKeeps(cfg: Config, s: State, ids: seq<Id>, active: set<Id>, now: int)
    ensures var t := RecurAll(cfg, s, ids, active, now);
            t == s.(repairs := t.repairs, recurrences := t.recurrences, withdrawals := t.withdrawals)
    decreases |ids|
  {
    if ids != [] { RecurAllKeeps(cfg, s, ids[..|ids| - 1], active, now); }
  }

  function Active(s: State, now: int): set<Id> {
    set x | x in s.horizon && s.horizon[x] > now
  }

  /** What refusals and designations share: judge the compactions, then process the recurrences of active nodes. */
  ghost function Assess(cfg: Config, s: State, root: Id, now: int): State {
    var s1 := s.(repairs := BlastRepairs(s, root));
    RecurAll(cfg, s1, SortedIds(Blast(s.store.dag, root)), Active(s1, now), now)
  }

  lemma AssessKeeps(cfg: Config, s: State, root: Id, now: int)
    ensures var t := Assess(cfg, s, root, now);
            t == s.(repairs := t.repairs, recurrences := t.recurrences, withdrawals := t.withdrawals)
  {
    hide Closure, EdgesOf, BlastRepairs, Active;
    var s1 := s.(repairs := BlastRepairs(s, root));
    RecurAllKeeps(cfg, s1, SortedIds(Blast(s.store.dag, root)), Active(s1, now), now);
  }

  // ---- Submission ----

  datatype Submission = Submission(payload: Payload, signatureValid: bool, policyUp: bool, auth: Auth)

  datatype Response =
    | BadRequest
    | Unauthorized
    | Conflict
    | NotFound
    | Forbidden
    | Unavailable
    | TaintedCovers(covers: seq<Id>)
    | TaintedLineage(event: QuarantineEvent, replacement: Option<Found>)
    | HashMismatch(parent: Id)
    | VerificationRefused
    | Ok(idempotent: bool)

  function Tainted(ids: seq<Id>, ledger: set<Id>): seq<Id> {
    if ids == [] then [] else (if ids[0] in ledger then [ids[0]] else []) + Tainted(ids[1..], ledger)
  }

  /** The first parent whose declared hash differs from a non-empty stored digest. */
  function FirstMismatch(parents: seq<Commitment>, dag: Dag): Option<Id> {
    if parents == [] then None
    else if parents[0].parent in dag && dag[parents[0].parent].digest != "" && parents[0].hash != dag[parents[0].parent].digest
    then Some(parents[0].parent)
    else FirstMismatch(parents[1..], dag)
  }

  ghost function WithGap(p: Payload, dag: Dag): Payload {
    if p.compaction then p.(gap := SortedIds(Gap(dag, Elements(p.covers)))) else p
  }

  /** One row earns completion when the write has the offered node among its parents. */
  function Completes(r: Row, p: Payload): bool {
    && r.completedBy.None? && r.offer.Some?
    && r.offer.value.node != "" && r.offer.value.node in ParentSet(p)
    && !(p.retryOf != "" && p.retryOf == r.node && r.author != "" && p.author != r.author)
  }

  function Completed(rows: seq<Row>, p: Payload): seq<Row> {
    seq(|rows|, i requires 0 <= i < |rows| =>
      if Completes(rows[i], p) then rows[i].(completedBy := Some(p.id)) else rows[i])
  }

  /** The offer goes to the first row of the rejected node that has none. */
  function Offered(rows: seq<Row>, node: Id, offer: Offer): seq<Row> {
    if rows == [] then []
    else if rows[0].node == node && rows[0].offer.None?
    then [rows[0].(offer := Some(offer))] + rows[1..]
    else [rows[0]] + Offered(rows[1..], node, offer)
  }

  ghost function RejectionEvent(dag: Dag, ledger: set<Id>, node: Id, root: Id, now: int): QuarantineEvent {
    var c := Blast(dag, root);
    QuarantineEvent(root, now, SortedIds(c), SortedIds(ledger + c + {node}), Rejection)
  }

  /** The refusal as recorded: the payload is in the graph, its own id quarantined, its row appended. */
  ghost function Refused(cfg: Config, s: State, p: Payload, root: Id, now: int): State {
    var s1 := s.(store := Commit(s.store, p));
    var s2 := Assess(cfg, s1, root, now);
    s2.(store := Quarantine(s1.store, {p.id}),
        events := s2.events + [RejectionEvent(s1.store.dag, s1.store.ledger, p.id, root, now)],
        rejections := s2.rejections + [Row(p.id, root, now, p.author, None, None)])
  }

  /** A write with a tainted parent is refused and recorded, and a replacement is offered when there is one. */
  ghost function Reject(cfg: Config, s: State, p: Payload, root: Id, now: int): (State, Response) {
    var t := Refused(cfg, s, p, root, now);
    var event := RejectionEvent(Commit(s.store, p).dag, s.store.ledger, p.id, root, now);
    match FindReplacement(t, root)
    case None => (t, TaintedLineage(event, None))
    case Some(f) =>
      (t.(rejections := Offered(t.rejections, p.id, Offer(f.node, f.target == root))), TaintedLineage(event, Some(f)))
  }

  ghost function Accept(s: State, p: Payload): (State, Response) {
    match FirstMismatch(p.parents, s.store.dag)
    case Some(u) => (s, HashMismatch(u))
    case None =>
      if p.id in s.store.dag then (s, Ok(true))
      else (s.(store := Commit(s.store, p), rejections := Completed(s.rejections, p)), Ok(false))
  }

  ghost function Submit(cfg: Config, s: State, sub: Submission, now: int): (State, Response) {
    var p := WithGap(sub.payload, s.store.dag);
    if !sub.signatureValid then (s, Unauthorized)
    else if |p.parents| > 256 then (s, BadRequest)
    else if p.id in s.store.ledger then (s, Conflict)
    else if p.compaction && Tainted(p.covers, s.store.ledger) != [] then (s, TaintedCovers(Tainted(p.covers, s.store.ledger)))
    else if !sub.policyUp then (s, Unavailable)
    else
      match Evaluate(p, s.store, sub.auth, now)
      case TaintedParent(root) => Reject(cfg, s, p, root, now)
      case InvalidLineage => (s, BadRequest)
      case VerificationFailed => (s, VerificationRefused)
      case Admit => Accept(s, p)
  }

  // ---- Context compaction and seed roots ----

  datatype CompactionEvent = CompactionEvent(nodes: seq<Id>, node: Id, digest: string, summarizer: string, author: string)

  function CompactionPayload(dag: Dag, ev: CompactionEvent): Payload {
    var parents := seq(|ev.nodes|, i requires 0 <= i < |ev.nodes| =>
      Commitment(ev.nodes[i], if ev.nodes[i] in dag then DigestOr(dag[ev.nodes[i]], ZERO_HASH) else ZERO_HASH, Carried));
    Payload(ev.node, true, parents, ev.nodes, [], ev.digest, ev.summarizer, 0.0, ev.author, true, false, "", None)
  }

  function Compact(s: State, ev: CompactionEvent, signatureValid: bool): (State, Response) {
    if exists n :: n in ev.nodes && n !in s.store.dag then (s, BadRequest)
    else if !signatureValid then (s, Unauthorized)
    else if Tainted(ev.nodes, s.store.ledger) != [] then (s, TaintedCovers(Tainted(ev.nodes, s.store.ledger)))
    else (s.(store := Commit(s.store, CompactionPayload(s.store.dag, ev))), Ok(ev.node in s.store.dag))
  }

  function Seed(s: State, root: Id, key: string): (State, Response) {
    if root == "" then (s, BadRequest)
    else if root in s.store.dag then (s, Conflict)
    else (s.(store := Commit(s.store, Bare(root).(digest := "seed", author := key))), Ok(false))
  }

  // ---- Designation ----

  /** What designation does before continuity and reconstruction: the closure is quarantined and logged. */
  ghost function Contain(cfg: Config, s: State, root: Id, now: int): State {
    var c := Blast(s.store.dag, root);
    var t := Assess(cfg, s, root, now);
    t.(store := Quarantine(s.store, c),
       events := t.events + [QuarantineEvent(root, now, SortedIds(c), SortedIds(s.store.ledger + c), Designation)])
  }

  // ---- Safe continuity ----

  datatype Dependent = Dependent(node: Id, criticality: real, tainted: set<Id>)

  /** Critical nodes inside the closure or directly below it, in dictionary order. */
  function Critical(dag: Dag, order: seq<Id>, c: set<Id>): seq<Dependent> {
    if order == [] then [] else
      var rest := Critical(dag, order[1..], c);
      var n := order[0];
      if n !in dag || dag[n].criticality <= 0.0 then rest
      else
        var tainted := ParentSet(dag[n]) * c;
        if n in c || tainted != {}
        then [Dependent(n, dag[n].criticality, if tainted == {} then {n} else tainted)] + rest
        else rest
  }

  function Relevant(st: Store, d: Dependent): set<Id> {
    d.tainted
    + (if d.node in st.ledger then {d.node} else {})
    + (if d.node in st.dag then ParentSet(st.dag[d.node]) * st.ledger else {})
  }

  function Replayable(checkpoints: seq<Checkpoint>, relevant: set<Id>, ledger: set<Id>, at: int): Option<Checkpoint> {
    if checkpoints == [] then None
    else if && checkpoints[0].target in relevant && checkpoints[0].declaredAt < at
            && checkpoints[0].refs != {} && checkpoints[0].refs !! ledger
    then Some(checkpoints[0])
    else Replayable(checkpoints[1..], relevant, ledger, at)
  }

  predicate Substitutable(s: State, target: Id, at: int) {
    && target in s.substitutes && s.substitutes[target].declaredAt < at
    && s.substitutes[target].source != ""
    && s.substitutes[target].source in s.store.dag && s.substitutes[target].source !in s.store.ledger
  }

  function FirstSubstitutable(s: State, targets: seq<Id>, at: int): (r: Option<Id>)
    ensures r.Some? ==> r.value in targets && Substitutable(s, r.value, at)
    ensures r.None? ==> forall t :: t in targets ==> !Substitutable(s, t, at)
  {
    if targets == [] then None
    else if Substitutable(s, targets[0], at) then Some(targets[0])
    else FirstSubstitutable(s, targets[1..], at)
  }

  function ReplayId(token: string, n: Id): Id { "continuity-cp-" + token + n }
  function SubstituteId(token: string, n: Id): Id { "continuity-sub-" + token + n }
  function RebuiltId(token: string, n: Id): Id { "reconstructed-" + token + n }

  /** The parents of a replay: the unquarantined parents of the critical node, else the built-in root. */
  function ReplayParents(st: Store, n: Id): seq<Id> {
    var clean := FrontierOf(if n in st.dag then ParentList(st.dag[n]) else [], st.ledger);
    if clean == [] then [CLEAN_PARENT] else clean
  }

  function Commitments(ids: seq<Id>, hash: string, edgeClass: EdgeClass): seq<Commitment> {
    seq(|ids|, i requires 0 <= i < |ids| => Commitment(ids[i], hash, edgeClass))
  }

  datatype Emission = Emission(payload: Payload, mechanism: string)

  /** The replacement record for one critical dependent, judged against the state right after containment. */
  function Emit(s: State, d: Dependent, token: string, at: int): Option<Emission> {
    match Replayable(s.checkpoints, Relevant(s.store, d), s.store.ledger, at)
    case Some(cp) =>
      Some(Emission(Bare(ReplayId(token, d.node)).(
        parents := Commitments(ReplayParents(s.store, d.node), PLACEHOLDER_HASH, Material),
        digest := "sha256:" + cp.id, criticality := d.criticality, originalTarget := Some(cp.target)), "M4"))
    case None =>
      match FirstSubstitutable(s, SortedIds(Relevant(s.store, d)), at)
      case None => None
      case Some(target) =>
        var source := s.substitutes[target].source;
        Some(Emission(Bare(SubstituteId(token, d.node)).(
          parents := [Commitment(source, DigestOr(s.store.dag[source], PLACEHOLDER_HASH), Material)],
          digest := "sha256:" + source, criticality := d.criticality, originalTarget := Some(target)), "M3"))
  }

  /** Emissions are judged against one snapshot and committed one after the other. */
  function Continue(snapshot: State, s: State, deps: seq<Dependent>, token: string, at: int): State
    decreases |deps|
  {
    if deps == [] then s else
      var before := Continue(snapshot, s, deps[..|deps| - 1], token, at);
      match Emit(snapshot, deps[|deps| - 1], token, at)
      case None => before
      case Some(em) =>
        before.(store := Commit(before.store, em.payload),
                exposures := before.exposures + [Exposure(em.payload.id, em.mechanism)],
                adapterKey := "key:" + em.payload.id)
  }

  function Continuity(cfg: Config, s: State, c: set<Id>, token: string, at: int): State {
    if cfg.continuity then Continue(s, s, Critical(s.store.dag, s.store.order, c), token, at) else s
  }

  // ---- Reconstruction ----

  ghost function ParentClosure(dag: Dag, root: Id): set<Id> {
    Closure(ParentEdges(dag), {root})
  }

  /** The remote adapter derives its own frontier over parent edges only and answers when the two agree. */
  ghost predicate AdapterAgrees(dag: Dag, root: Id, covers: seq<Id>, requested: seq<Id>) {
    multiset(FrontierOf(covers, ParentClosure(dag, root))) == multiset(requested)
  }

  function RebuiltPayload(id: Id, r: Repair, summarizer: string, author: string): Payload
    requires r.Pending?
  {
    Payload(id, true, Commitments(r.frontier, PLACEHOLDER_HASH, Compaction), r.frontier, [],
            "sha256:" + r.checkpoint.id, summarizer, 0.0, author, true, false, "", None)
  }

  ghost function Rebuild(cfg: Config, snapshot: Store, s: State, root: Id, comp: Id, r: Repair, token: string, now: int): State
    requires r.Pending?
  {
    var id := RebuiltId(token, comp);
    match cfg.recovery
    case Inline =>
      s.(store := Commit(s.store, RebuiltPayload(id, r, "", "key:" + id)),
         horizon := s.horizon[id := now + cfg.horizonSeconds],
         repairs := s.repairs[comp := Reducible(r.frontier, id)],
         adapterKey := "key:" + id)
    case Remote(identity) =>
      var covers := if comp in snapshot.dag then snapshot.dag[comp].covers else [];
      if !AdapterAgrees(snapshot.dag, root, covers, r.frontier)
      then s.(repairs := s.repairs[comp := Irreducible(BackendUnavailable)])
      else if s.adapterKey == "" || s.adapterKey != identity
      then s.(repairs := s.repairs[comp := Irreducible(InvalidIdentity)])
      else
        s.(store := Commit(s.store, RebuiltPayload(id, r, "verified_checkpoint_reconstruction", identity)),
           horizon := s.horizon[id := now + cfg.horizonSeconds],
           repairs := s.repairs[comp := Reducible(r.frontier, id)])
  }

  function PendingIn(repairs: map<Id, Repair>): set<Id> {
    set n | n in repairs && repairs[n].Pending?
  }

  ghost function RebuildAll(cfg: Config, snapshot: State, s: State, root: Id, comps: seq<Id>, token: string, now: int): State
    requires Elements(comps) <= PendingIn(snapshot.repairs)
    decreases |comps|
  {
    if comps == [] then s else
      assert Elements(comps[..|comps| - 1]) <= Elements(comps);
      assert comps[|comps| - 1] in Elements(comps);
      Rebuild(cfg, snapshot.store, RebuildAll(cfg, snapshot, s, root, comps[..|comps| - 1], token, now),
              root, comps[|comps| - 1], snapshot.repairs[comps[|comps| - 1]], token, now)
  }

  ghost function Reconstruct(cfg: Config, s: State, root: Id, token: string, now: int): State {
    RebuildAll(cfg, s, s, root, SortedIds(PendingIn(s.repairs)), token, now)
  }

  ghost function Designate(cfg: Config, s: State, root: Id, token: string, now: int): (State, Response) {
    if root !in s.store.dag then (s, NotFound)
    else if root in s.store.ledger then (s, Ok(true))
    else
      var s1 := Contain(cfg, s, root, now);
      var s2 := Continuity(cfg, s1, Blast(s.store.dag, root), token, now);
      (Reconstruct(cfg, s2, root, token, now), Ok(false))
  }

  // ---- Declarations and observations ----

  function Upserted(checkpoints: seq<Checkpoint>, cp: Checkpoint): seq<Checkpoint> {
    if checkpoints == [] then [cp]
    else if checkpoints[0].id == cp.id then [cp] + checkpoints[1..]
    else [checkpoints[0]] + Upserted(checkpoints[1..], cp)
  }

  function DeclareSubstitute(s: State, target: Id, source: Id, at: int): (State, Response) {
    if target == "" || source == "" then (s, BadRequest)
    else if source !in s.store.dag then (s, NotFound)
    else if source in s.store.ledger then (s, Forbidden)
    else (s.(substitutes := s.substitutes[target := Declaration(source, at)]), Ok(false))
  }

  function Expose(s: State, n: Id): (State, Response) {
    if n == "" then (s, BadRequest)
    else if n in s.store.ledger then (s, Forbidden)
    else (s.(exposures := s.exposures + [Exposure(n, "unknown")]), Ok(false))
  }

  function Renew(cfg: Config, s: State, n: Id, now: int): (State, Response) {
    if n in s.store.ledger then (s, Forbidden)
    else if n in s.store.dag && ParentSet(s.store.dag[n]) * s.store.ledger != {} then (s, Forbidden)
    else if n in s.horizon then (s.(horizon := s.horizon[n := now + cfg.horizonSeconds]), Ok(false))
    else (s, Ok(true))
  }

  datatype Request =
    | SubmitCandidate(sub: Submission, now: int)
    | ContextCompacted(ev: CompactionEvent, signatureValid: bool)
    | SeedRoot(root: Id, key: string)
    | DesignatePoison(root: Id, token: string, now: int)
    | Observe(node: Id, now: int)
    | DeclareCheckpoint(cp: Checkpoint)
    | DeclareEffect(key: string, node: Id)
    | SubstituteDeclared(target: Id, source: Id, at: int)
    | ExposeNode(node: Id)
    | RenewTrust(node: Id, now: int)

  ghost function Handle(cfg: Config, s: State, r: Request): (State, Response) {
    match r
    case SubmitCandidate(sub, now) => Submit(cfg, s, sub, now)
    case ContextCompacted(ev, valid) => Compact(s, ev, valid)
    case SeedRoot(root, key) => Seed(s, root, key)
    case DesignatePoison(root, token, now) => Designate(cfg, s, root, token, now)
    case Observe(n, now) => (Recur(cfg, s, n, now), Ok(false))
    case DeclareCheckpoint(cp) => (s.(checkpoints := Upserted(s.checkpoints, cp)), Ok(false))
    case DeclareEffect(key, n) => (s.(effects := s.effects[key := n]), Ok(false))
    case SubstituteDeclared(target, source, at) => DeclareSubstitute(s, target, source, at)
    case ExposeNode(n) => Expose(s, n)
    case RenewTrust(n, now) => Renew(cfg, s, n, now)
  }

  ghost function Next(cfg: Config, s: State, r: Request): State {
    Handle(cfg, s, r).0
  }

  /** The state after the first |rs| requests of a run. */
  ghost function Run(cfg: Config, s: State, rs: seq<Request>): State
    decreases |rs|
  {
    if rs == [] then s else Next(cfg, Run(cfg, s, rs[..|rs| - 1]), rs[|rs| - 1])
  }
}
