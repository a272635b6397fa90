/** The records the gateway stores: payloads, the append-only graph and the derived ledgers. */
module Records {
  import opened Ids
  import opened Reach

  datatype Option<+T> = None | Some(value: T)

  datatype EdgeClass = Material | Incidental | Carried | Compaction | Covers

  datatype Commitment = Commitment(parent: Id, hash: string, edgeClass: EdgeClass)

  /** A state write. Content is opaque; a digest stands for its canonical pre-image. */
  datatype Payload = Payload(
    id: Id,
    compaction: bool,
    parents: seq<Commitment>,
    covers: seq<Id>,
    gap: seq<Id>,
    digest: string,
    summarizer: string,
    criticality: real,
    author: string,
    boundaryFixed: bool,
    justified: bool,
    retryOf: Id,
    originalTarget: Option<Id>)

  type Dag = map<Id, Payload>

  function ParentSet(p: Payload): set<Id> {
    set c | c in p.parents :: c.parent
  }

  /** Everything a payload derives from: declared parents and covered nodes. */
  function Sources(p: Payload): set<Id> {
    ParentSet(p) + Elements(p.covers)
  }

  predicate CarriedFrom(p: Payload, u: Id) {
    exists c :: c in p.parents && c.parent == u && c.edgeClass == Carried
  }

  function EdgesOf(dag: Dag): Edges {
    set n, u | n in dag && u in Sources(dag[n]) :: (u, n)
  }

  function ParentEdges(dag: Dag): Edges {
    set n, u | n in dag && u in ParentSet(dag[n]) :: (u, n)
  }

  lemma EdgeMeaning(dag: Dag, u: Id, n: Id)
    ensures (u, n) in EdgesOf(dag) <==> n in dag && u in Sources(dag[n])
    ensures (u, n) in ParentEdges(dag) <==> n in dag && u in ParentSet(dag[n])
  {
  }

  // ---- Ledgers derived from the graph ----

  datatype EventKind = Rejection | Designation

  /** `digest` is the pre-image of the recorded ledger digest: an ascending list of ids. */
  datatype QuarantineEvent = QuarantineEvent(root: Id, at: int, blast: seq<Id>, digest: seq<Id>, kind: EventKind)

  datatype Checkpoint = Checkpoint(id: string, target: Id, declaredAt: int, refs: set<Id>)

  datatype Reason =
    | SemanticRollback
    | EmptyFrontier
    | NoCheckpoint
    | NoBackend
    | BackendUnavailable
    | InvalidIdentity

  /** The disposition of a compaction that a traversal reached over a CARRIED edge. */
  datatype Repair =
    | Irreducible(reason: Reason)
    | Pending(frontier: seq<Id>, checkpoint: Checkpoint)
    | Reducible(frontier: seq<Id>, node: Id)

  datatype Recurrence = Recurrence(node: Id, at: int, escalated: bool, closure: set<Id>)

  /** `event` is the position of the triggering event in the recurrence log. */
  datatype Withdrawal = Withdrawal(at: int, event: nat, direct: bool)

  datatype Declaration = Declaration(source: Id, declaredAt: int)

  datatype Exposure = Exposure(node: Id, mechanism: string)

  datatype Offer = Offer(node: Id, direct: bool)

  datatype Row = Row(node: Id, taintedParent: Id, at: int, author: string, offer: Option<Offer>, completedBy: Option<Id>)

  /** `order` is the insertion order of the graph dictionary. */
  datatype Store = Store(dag: Dag, order: seq<Id>, ledger: set<Id>)

  datatype State = State(
    store: Store,
    events: seq<QuarantineEvent>,
    repairs: map<Id, Repair>,
    checkpoints: seq<Checkpoint>,
    effects: map<string, Id>,
    horizon: map<Id, int>,
    recurrences: seq<Recurrence>,
    withdrawals: map<Id, Withdrawal>,
    exposures: seq<Exposure>,
    substitutes: map<Id, Declaration>,
    rejections: seq<Row>,
    adapterKey: string)

  datatype Recovery = Inline | Remote(identity: string)

  datatype Config = Config(maxAmplification: nat, horizonSeconds: int, continuity: bool, recovery: Recovery)

  const CLEAN_PARENT: Id := "clean-parent-1"
  const SEED_QUARANTINED: Id := "quarantined-node-A"
  const LLM_METHOD: string := "llm-v1"
  const ZERO_HASH: string := "0000000000000000000000000000000000000000000000000000000000000000"
  const PLACEHOLDER_HASH: string := "eeeeeeeeeeeeeeeeeeeeeeeeeeeeeeeeeeeeeeeeeeeeeeeeeeeeeeeeeeeeeeee"

  function Bare(id: Id): Payload {
    Payload(id, false, [], [], [], "", "", 0.0, "", true, false, "", None)
  }

  /** A stored content digest, or what a reader falls back to when the payload has none. */
  function DigestOr(p: Payload, fallback: string): string {
    if p.digest == "" then fallback else p.digest
  }

  /** A fresh process: one built-in root, one quarantined id, and the configured public key of the recovery adapter. */
  function Initial(key: string): State {
    State(Store(map[CLEAN_PARENT := Bare(CLEAN_PARENT)], [CLEAN_PARENT], {SEED_QUARANTINED}),
          [], map[], [], map[], map[], [], map[], [], map[], [], key)
  }

  /** The graph dictionary: each entry is filed under its own id, and the order lists the keys once. */
  ghost predicate Filed(st: Store) {
    && (forall n :: n in st.dag ==> st.dag[n].id == n)
    && NoDuplicates(st.order)
    && (forall n :: n in st.order <==> n in st.dag)
  }

  function Commit(st: Store, p: Payload): Store {
    if p.id in st.dag then st
    else st.(dag := st.dag[p.id := p], order := st.order + [p.id])
  }

  function Quarantine(st: Store, ids: set<Id>): Store {
    st.(ledger := st.ledger + ids)
  }
}
