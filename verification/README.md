# Verified model of the GASC governor's taint containment

The governor admits state writes into an append-only graph and keeps an append-only quarantine ledger. Every
payload names the nodes it derives from, as parents (`parent_dependency_commitments`) and as `covers`. When a
node is designated poisonous, everything that derives from it must end up in the ledger; when a write has a
tainted parent it is refused, recorded, and only its own id is quarantined. This project models that machinery
in enforce mode and proves what it keeps over whole runs.

## What is modelled

| file | models |
|---|---|
| `Ids.dfy`, `Reach.dfy`, `Records.dfy` | ids in Python's string order and sorted listings, walks, closures and level sets, the stored records and the state |
| `BlastRadius.dfy`, `Discovery.dfy`, `Admission.dfy`, `Replacement.dfy`, `CoversGap.dfy`, `Gateway.dfy`, `Selection.dfy` | the traversal, the policy and `evaluate_admission`, the replacement search, the interval gap, what each request does to the state, and what its searches select |
| `Submissions.dfy`, `Declarations.dfy`, `Recurrences.dfy`, `Emissions.dfy`, `Rebuilding.dfy`, `Provenance.dfy` | what each request answers, stores, logs, emits and rebuilds, stated from the request and the state it meets, and where every stored payload comes from |
| `MemoryBackend.dfy`, `Service.dfy` | the in-memory backend as a class updated in place, and the request handlers over it; each method is proved to equal the state functions |
| `Judgement.dfy`, `Containment.dfy`, `Lineage.dfy`, `Repairs.dfy`, `Dispositions.dfy` | what a designation's traversals leave pending, exact containment, clean lineage, and settled and final repairs over whole runs, with the exact conditions |
| `ConcreteRuns.dfy`, `Counterexamples.dfy` | concrete runs from the initial state on which a promise fails |
| `Audit.dfy`, `Confluence.dfy` | the breach report, the truth of recorded digests, append-only growth, order independence |
| `SqliteBackend.dfy`, `PostgresBackend.dfy`, `Traversals.dfy` | the materialised edge table, the two SQLite traversals, the Postgres recursive query, and their agreement with the in-memory traversal |
| `Adapter.dfy` | the recovery adapter's second derivation of the frontier |
| `AdmissionLock.dfy`, `Interleaving.dfy`, `TaskClosure.dfy` | the reader-writer lock under every schedule, concurrent submit, detect, commit and seed tasks over SQLite transactions, and which tasks keep the ledger closed in every order |
| `Nearest.dfy`, `Completion.dfy`, `Credits.dfy`, `Withdrawals.dfy` | the replacement search, refusal rows, when they are completed, withdrawals |
| `NonInterference.dfy`, `RemoteRuns.dfy` | runs with continuity on against off, with inline and remote reconstruction |

A request is a value of `Gateway.Request`, a state a value of `Records.State`, `Gateway.Handle` is one step and
`Gateway.Run` a run. `Service.Serve` takes the same step on the in-place backend object.

Where a promise does not hold of the code for every input, the theorem is an equivalence with a condition on the
state before the request (`Containment.Harmless`, `Lineage.AnchoredRequest`, `RemoteRuns.Disturbs`), and
`Counterexamples` gives runs from the initial state that fail it. `Repairs.Disciplined` is a sufficient discipline:
covers only on compactions and committed, carried nodes exactly the covered ones, a payload id that determines its
parents, no active horizon node in a designated closure, emissions on committed clean nodes, fresh minted ids.

A compaction is called carrying when it has a CARRIED commitment. The initial state is a function of the adapter
key the gateway is configured with (src/config.py:21). The `closure` of a logged recurrence is a field of the
model's record; `Withdrawals.LoggedClosures` says which set it is.

Assumptions the model makes explicit: ids minted from a uuid are given by a token and the node they are minted
for, and are assumed new where a theorem needs it; a digest stands for its canonical pre-image (the sorted list
it is taken over); signature validity, policy availability and verification status are inputs; times are integers.

## Where code and documentation disagree

The model follows the code.

- The covers check in `submit_candidate` (src/governor_service.py:1327) is guarded by the node type, so a
  STANDARD payload may cover quarantined nodes.
- The lock's comments promise no nesting and no further readers behind a waiting writer (src/governor_service.py:753,
  757-758). `/designate` asks for the shared lock inside its exclusive section as soon as continuity or
  reconstruction commits something (1910, 1682, 1796, 1857): such a request never returns and admits nobody else.
  With two writers the request flag of the second is cleared by the first.
- A rebuilt compaction is committed with class COMPACTION (1638-1640), and the traversal judges only nodes discovered over
  a CARRIED commitment (275-279). When its cover is designated later it is quarantined and never gets a disposition,
  so "every compaction is settled" holds of carrying compactions only.
- The `quarantine_ancestry_check` gate (1679) is recorded as passed without being evaluated.
- `/context-compacted` reads the quarantine state at 1556 and takes the lock at 1569; the sequential model treats
  both as one step, `Interleaving.CheckThenCommit` says what the gap between them costs.
- The continuity report calls the containment footprint bit-identical across continuity (1989). Its ledger size and
  digest also count continuity records that later become tainted; what is identical is the ledger on all other ids,
  and with a remote adapter only until continuity has replaced the adapter's key (1795, 1856) and a rebuild needs it.
- The label `DIRECTLY_IMPLICATED` goes to the first id in sorted order (419), not to the node observed.
- `MemoryStateBackend` does not override the abstract `transaction` (104-108). It serves as the specification here;
  the interleavings use the SQLite transaction.

## Model

| member | source | states |
|---|---|---|
| Reach.ClosureIsLeast | src/governor_service.py:252-284 | forward reachability over source-to-child edges is the least edge-closed set above the roots: any closed set above them contains it |
| Reach.ClosureUnion | src/governor_service.py:1912-1940 | the closure of two sets of roots is the union of their closures, which is why the ledger can grow one designation at a time |
| Reach.WithinAreShortWalks | src/sqlite_backend.py:339-404 | what a traversal bounded to k levels sees is exactly the set of ends of walks of at most k edges from the root |
| Reach.BoundIsExact | src/sqlite_backend.py:357-370 | the bounded result equals the unbounded closure if and only if no edge leaves it |
| Reach.BoundSuffices | src/sqlite_backend.py:357-404 | walks shorten to simple paths: with at most bound + 1 nodes the bound cuts nothing off, cycles included |
| Ids.AscendingIsCanonical | src/governor_service.py:505-508 | an ascending id listing is determined by its members, so the digest of a sorted ledger identifies the ledger |
| BlastRadius.SearchIsClosure | src/governor_service.py:252-284 | the breadth-first search over the graph dictionary visits each member of the forward closure (parent and covers edges) exactly once, on any graph |
| BlastRadius.SearchClassifies | src/governor_service.py:266-284 | every node listed as affected has a CARRIED commitment to a visited node, and every other discovered node derives from a visited node without one |
| Discovery.TraversalOrder | src/governor_service.py:252-284 | the traversal visits its root first and every other node by the first visited node it derives from, then by dictionary order, and lists a node as affected if and only if it has a CARRIED commitment to that source |
| MemoryBackend.MemoryStateBackend.Derives | src/governor_service.py:267-284 | the per-payload scan answers whether the payload derives from the current node, as parent or else as cover, and whether any commitment to it is CARRIED |
| MemoryBackend.MemoryStateBackend.ScanFor | src/governor_service.py:264-284 | one pass over the dictionary adds exactly the unseen children to the visited set and the queue, in dictionary order |
| MemoryBackend.MemoryStateBackend.Search | src/governor_service.py:255-284 | the worklist loop terminates, returns the pops in order, and its pops are the forward closure without repetition |
| MemoryBackend.MemoryStateBackend.HasExternalEffects | src/governor_service.py:287-291 | true exactly when some recorded effect belongs to a visited node |
| MemoryBackend.MemoryStateBackend.SelectCheckpoint | src/governor_service.py:322-329 | the first checkpoint in declaration order whose target lies in the frontier |
| MemoryBackend.MemoryStateBackend.Judge | src/governor_service.py:299-349 | the disposition of one affected compaction: rollback hazard, then empty frontier, then missing checkpoint or backend, else pending with frontier and checkpoint |
| MemoryBackend.MemoryStateBackend.JudgeAffected | src/governor_service.py:293-349 | affected compactions are judged one by one; terminal dispositions stay, everything else is judged afresh |
| MemoryBackend.MemoryStateBackend.ComputeBlastRadius | src/governor_service.py:252-351 | returns the sorted forward closure and leaves exactly the judged repair table behind |
| MemoryBackend.MemoryStateBackend.constructor | src/governor_service.py:190-207 | a new backend represents the initial state under the configured adapter key: the built-in root committed, one id quarantined, all else empty |
| MemoryBackend.MemoryStateBackend.CommitNode | src/governor_service.py:221-226 | first writer wins: a known id leaves graph and order alone and reports false |
| MemoryBackend.MemoryStateBackend.ApplyQuarantineTransaction | src/governor_service.py:236-241 | one event is appended, the ledger list gains exactly the given ids and stays free of duplicates |
| MemoryBackend.MemoryStateBackend.ApplyWithdrawalTransaction | src/governor_service.py:410-425 | the event is logged; only ids not yet withdrawn get an entry, the first id labelled direct |
| MemoryBackend.MemoryStateBackend.RecordTaintedOffer | src/governor_service.py:602-610 | the offer goes to the first row of the id that has none, and to no other row |
| MemoryBackend.MemoryStateBackend.CheckRetryCompletion | src/governor_service.py:621-660 | the loop completes each open row by the row function; Credits.StepCredits says exactly which rows that completes |
| MemoryBackend.MemoryStateBackend.FindContinuityReplacement | src/governor_service.py:681-737 | the loop over candidates returns the search function's result; Nearest.NearestReplacement says which replacement that is |
| MemoryBackend.MemoryStateBackend.QuarantinedAncestors | src/governor_service.py:696-709 | the upward worklist terminates on any graph, cycles included, and lists the candidates in dequeue order |
| MemoryBackend.MemoryStateBackend.GetCriticalDependents | src/governor_service.py:562-584 | the critical nodes in the closure or directly below it, in dictionary order, with their tainted parents |
| Service.ProcessRecurrence | src/r6_utils.py:5-29 | the in-place handler takes exactly the recurrence step: event logged, withdrawals only within the amplification limit |
| Service.RecordRefusal | src/governor_service.py:1360-1414 | commit, traverse, process active nodes, digest, quarantine one id, record the row, offer: the object ends in the state the refusal function gives |
| Service.AcceptWrite | src/governor_service.py:1416-1430 | hashes compared first, then an idempotent commit, then completion credit only for a new node |
| Service.SubmitCandidate | src/governor_service.py:1287-1489 | the whole enforce-mode submission, check by check in source order, equals the submission function on state and response |
| Service.DeclareContextCompacted | src/governor_service.py:1503-1571 | missing nodes, bad signature and tainted covers are refused in that order; otherwise the compaction is committed with all its nodes as CARRIED parents and covers |
| Service.SeedNewRoot | src/governor_service.py:2336-2382 | an empty or taken id is refused; otherwise one sourceless node is committed |
| Service.FindCheckpoint | src/governor_service.py:1743-1760 | the first checkpoint that targets a relevant tainted node, predates containment, has a snapshot and references no quarantined id |
| Service.EmitFor | src/governor_service.py:1726-1868 | one critical dependent yields a checkpoint replay if possible, else a substitution, else nothing |
| Service.AttemptSafeContinuity | src/governor_service.py:1699-1873 | all emissions are judged against copies taken at the start and committed in order |
| Service.AttemptReconstruction | src/governor_service.py:1573-1689 | every pending compaction is handled against one snapshot, inline or by the remote adapter |
| Service.DesignatePoison | src/governor_service.py:1910-1949 | unknown node, known taint, else contain, continue and reconstruct: the object takes exactly the designation step |
| Service.RenewTrust | src/governor_service.py:2231-2253 | renewal is refused for a quarantined node or parent and otherwise extends an existing horizon entry only |
| Declarations.RenewalMeaning | src/governor_service.py:2231-2253 | renewal is forbidden exactly to a quarantined node or parent; otherwise a node with a horizon is active until exactly horizonSeconds from now, and nothing else changes |
| Service.AddCheckpoint | src/governor_service.py:246-247 | assignment under a checkpoint id: a known id keeps its place, a new one goes last |
| Declarations.SubstituteMeaning | src/governor_service.py:2040-2075 | each answer by an equivalence; a declaration is accepted exactly for a committed clean source and replaces the one for its target alone |
| Declarations.ExposureMeaning | src/governor_service.py:1952-1981 | an exposure of an unquarantined node is appended and nothing else changes |
| Declarations.SeedMeaning | src/governor_service.py:2322-2382 | each answer by an equivalence, and the stored root field by field |
| Declarations.CompactMeaning | src/governor_service.py:1503-1571 | each refusal by an equivalence in source order; otherwise one node is added that covers the compacted nodes and carries each under its stored digest |
| Declarations.DesignationAnswers | src/governor_service.py:1910-1919 | 404 for an unknown node, a no-op for a quarantined one, success otherwise |
| Declarations.EffectMeaning | src/governor_service.py:353-359 | a declared effect blocks exactly the closures that hold its node, besides those blocked under other keys |
| Service.Serve | src/governor_service.py:1252-2253 | every request handler of the in-place backend equals one step of the state machine, response included |
| Admission.DecisionMeaning | policies/gasc_admission_combined.rego:19-68 | a tainted parent decides the outcome whatever else holds, and the first one declared is the root reported; a write is admitted if and only if all parents are committed and clean and every policy rule passes |
| Admission.InvalidLineageMeaning | src/governor_service.py:1215-1222 | without a tainted parent a write is refused as invalid lineage if and only if a parent is missing or the evidence boundary is not fixed |
| Admission.FirstTaintedFinds | src/governor_service.py:1215-1219 | the reported root is the first quarantined parent in the order they are declared, and there is none exactly when all parents are clean |
| Containment.GapIsAnnotation | src/governor_service.py:1322-1323 | computing the covers gap changes neither the decision nor the edges; Submissions.SubmitStores says what is stored |
| Containment.SubmitBranches | src/governor_service.py:1302-1430 | a submission either changes nothing, is refused and recorded, or is accepted; which one is decided by the early checks and the policy |
| Submissions.SubmitResponds | src/governor_service.py:1287-1489 | the answer to every submission, check by check in source order: signature, parent count, reused quarantined id, tainted covers (exactly those), policy outage, tainted parent, lineage, verification, first mismatched hash, idempotent or new |
| Submissions.SubmitStores | src/governor_service.py:1322-1430 | an accepted or refused write adds exactly its payload under a new id: a compaction with its interval gap, ascending and holding x if and only if x is committed, uncovered, reached from a cover and reaching one over parent edges; any other payload as submitted; every other answer leaves the whole state alone |
| Submissions.RefusalRecorded | src/governor_service.py:1360-1413 | a refusal names the first quarantined parent, logs that parent's closure and the digest of the ledger with both, and answer and row carry the best replacement there is in the resulting state, marked direct exactly when it stands in for that parent |
| Containment.ContainIsExact | src/governor_service.py:1919-1940 | designating any node takes an exact ledger to an exact ledger with one more root |
| Containment.RejectContainment | src/governor_service.py:1360-1387 | quarantining only the refused id keeps the ledger exact if and only if the id is new and no clean node already names it as a source |
| Containment.CommitClosed | src/governor_service.py:221-226 | a commit keeps the ledger closed if and only if it was closed and the node is known, quarantined, or built on clean sources |
| Containment.EmissionSources | src/governor_service.py:1777-1795 | an emitted record has clean sources if and only if it is not a replay hung on a quarantined built-in root |
| Emissions.DesignationEmits | src/governor_service.py:1699-1873 | a designation with continuity commits one record for every critical node that an eligible checkpoint or substitute can serve, and for no other: an M4 replay standing in for the first eligible checkpoint's target on all unquarantined parents or else the built-in root, or an M3 record standing in for the least substitutable tainted id on the declared source; each is exposed once, in dictionary order; without continuity nothing is |
| Emissions.ExposedIsOffered | src/governor_service.py:711-735 | once a record standing in for a quarantined x is exposed, in every later state of every run a refusal on account of x is offered that record, or an earlier exposure's for x, as direct |
| Emissions.RecordIsOffered | src/governor_service.py:1768-1795 | end to end: the record a designation emits for a served node stands in for one of its tainted ids, and after any further requests a refusal on account of that id is offered it, or an earlier exposure's, as direct |
| Containment.ContinueClosed | src/governor_service.py:1699-1873 | a whole continuity pass keeps the ledger closed if and only if every emission does |
| Containment.ReconstructClosed | src/governor_service.py:1573-1689 | reconstruction keeps the ledger closed if and only if every frontier it really rebuilds from is clean |
| Containment.SubmitContainment | src/governor_service.py:1287-1430 | one submission keeps containment exact if and only if it is harmless: a condition on its covers and on the newness of its id |
| Containment.DesignateContainment | src/governor_service.py:1912-1949 | one designation with continuity and reconstruction keeps containment exact if and only if, judged on the state before it, no replay would hang on a quarantined built-in root and every compaction it would rebuild keeps a frontier outside the ledger and the new closure |
| Containment.HarmlessMeaning | src/governor_service.py:1912-1949 | that check on the state before the designation says the same as inspecting the emissions and frontiers the designation itself goes on to use |
| Judgement.ContainSettles | src/governor_service.py:293-349 | after containment every repair entry is determined by the state before: terminal or unjudged entries stay, a judged one is pending exactly when every traversal that reaches it finds it pending, with the last one's frontier, and otherwise has the first terminal verdict |
| Judgement.RefusalSettles | src/governor_service.py:1368-1375 | a refusal judges by the same rule, over the graph that already holds the refused write |
| Judgement.ContainPending | src/governor_service.py:1926-1949 | the repairs pending after containment, frontier and checkpoint included, are the ones predicted from the state before the request |
| Judgement.FrontierAfter | src/governor_service.py:309-349 | a predicted frontier is what the last judging traversal's closure leaves of the covers |
| Containment.CompactContainment | src/governor_service.py:1556-1570 | a context compaction always keeps containment exact |
| Containment.StepContainment | src/governor_service.py:1252-2382 | one request of any kind keeps the ledger an exact closure if and only if it is harmless |
| Containment.RunContainment | src/governor_service.py:1252-2382 | along any run the ledger equals the forward closure of the seed and the designated nodes in every state if and only if every request is harmless on the state it meets |
| Containment.RunFiled | src/governor_service.py:221-226 | along every run, harmless or not, each payload is filed under its own id and listed once in commit order |
| Containment.InitialStateIsContained | src/governor_service.py:190-192 | the initial state is exactly contained |
| Counterexamples.StandardCoversEscape | src/governor_service.py:1322-1344 | one write from the initial state: the covers check is guarded by the node type, so a STANDARD write covering the quarantined seed is admitted and containment is lost |
| Counterexamples.DanglingCoverEscapes | src/governor_service.py:1368-1387 | a run of two writes: a compaction covers an uncommitted id, that id is refused later, and the compaction stays outside the ledger |
| Counterexamples.ReusedIdIsOverContained | src/governor_service.py:1360-1387 | one write from the initial state: a refused payload that reuses a committed clean id quarantines a node that derives from nothing tainted |
| Counterexamples.ReplayOnQuarantinedRootEscapes | src/governor_service.py:1777-1779 | a run with one critical node: designating its only parent, the built-in root, hangs the replay on that very root |
| Counterexamples.HorizonEscapes | src/governor_service.py:1673-1689 | a run in which a rebuilt node is still on the horizon when a second compaction carries it: the next designation judges that compaction twice, the second verdict leaves the designated node in its frontier, and reconstruction builds on it |
| Counterexamples.RebuiltIsNeverDisposed | src/governor_service.py:1638-1640 | a run after which a rebuilt compaction is quarantined with its cover and has no disposition at all |
| Counterexamples.LostKeyDiverges | src/governor_service.py:1795-1796 | a run in remote mode on which continuity changes the outcome: the replay's key replaces the adapter's, and the compaction rebuilt without continuity is given up |
| Selection.FirstCheckpointFinds | src/governor_service.py:322-329 | a repair's checkpoint is the earliest declared one that targets its frontier, and there is none exactly when no checkpoint does |
| Selection.DispositionMeaning | src/governor_service.py:299-349 | each reason by an equivalence, in source order: effects in the closure, fully tainted covers, missing backend, missing checkpoint; otherwise pending with the first checkpoint targeting a clean cover and the clean covers in their order, as often as listed |
| Selection.ReplayableFinds | src/governor_service.py:1743-1760 | the replayed checkpoint is the first that targets relevant taint, predates containment, has a snapshot and references nothing quarantined |
| Selection.CriticalFinds | src/governor_service.py:562-584 | a node is a critical dependent if and only if it has positive weight and lies in the closure or has a parent there, with exactly those parents as its taint |
| Selection.FirstMismatchFinds | src/governor_service.py:1416-1427 | a write passes the hash comparison if and only if every parent with a stored digest was declared with it, and the parent reported is the first mismatched one |
| Selection.UpsertedFinds | src/governor_service.py:246-247 | declaring a checkpoint replaces the one under its id, keeps all others and keeps one per id |
| Selection.UpsertedInPlace | src/governor_service.py:246-247 | a checkpoint under a known id takes the place of the old one, a new one goes last, and every other keeps its place |
| Audit.MeasureBreaches | src/governor_service.py:2494-2509 | the for/else loops list exactly the unquarantined nodes with a quarantined parent or cover |
| Audit.NoBreachIsContainment | src/governor_service.py:2494-2509 | the list is empty if and only if every committed node reachable from the ledger over any number of hops is in the ledger |
| Audit.ReportStaysEmpty | src/governor_service.py:2494-2509 | in every state a harmless run reaches, no node is a breach |
| Audit.RejectionRecordTruth | src/governor_service.py:1376-1387 | from an exactly contained state, the digest recorded with a refusal is the digest of the resulting ledger if and only if the id was known or no clean node names it, although one id is added and a whole closure digested |
| Audit.DesignationRecordTruth | src/governor_service.py:1928-1940 | the digest recorded with a designation is that of the ledger after the whole request, whatever continuity and reconstruction commit |
| Audit.RunExtends | src/governor_service.py:221-241 | along every run payloads never change or vanish and the ledger never shrinks |
| Provenance.EveryPayloadHasItsRequest | src/governor_service.py:221-226 | in every run with fresh tokens each stored payload but the built-in root was added by one request, and is what that request prescribes: a submission with its computed gap, a compaction, a seed, or a record emitted or rebuilt by a designation |
| Lineage.AncestryIsClean | src/governor_service.py:1308-1430 | with clean lineage, everything a clean node derives from over any number of hops is clean and strictly older |
| Lineage.CleanPartIsAcyclic | src/governor_service.py:1366-1368 | no walk returns to a clean node, even when the quarantined part has cycles and self-loops |
| Lineage.LineageIsClosed | src/governor_service.py:2494-2509 | clean lineage implies that the ledger is closed |
| Lineage.RejectLineage | src/governor_service.py:1366-1387 | a refusal keeps clean lineage if and only if the id is new or only quarantined nodes build on it |
| Lineage.StepLineage | src/governor_service.py:1252-2382 | one request keeps clean lineage if and only if, judged on the state before it, what it would commit derives from committed nodes that stay clean |
| Lineage.AnchoredMeaning | src/governor_service.py:1912-1949 | for a designation with a fresh token that check says the same as inspecting the emissions and frontiers the designation goes on to use |
| Lineage.RunLineage | src/governor_service.py:1252-2382 | along any run every clean node's parents and covers are clean and were committed strictly earlier, in every state, if and only if every request is anchored |
| Lineage.CompactionSources | src/governor_service.py:1509-1541 | a context compaction carries exactly what it covers |
| Repairs.AffectedMeaning | src/governor_service.py:275-279 | with compactions that carry exactly what they cover, the affected set does not depend on scan order: every carrying node of the closure but the root |
| Repairs.PendingFrontiersAreClean | src/governor_service.py:309-349 | from a state with clean lineage, paired compactions and settled repairs, and with no active horizon node in the closure, every frontier pending after containment avoids the whole ledger, not just the closure it was computed against |
| Repairs.TaintedCompactionsAreJudged | src/governor_service.py:293-349 | from such a state, after containment every carrying compaction with a quarantined cover has a disposition |
| Repairs.ReconstructSettles | src/governor_service.py:1573-1689 | reconstruction turns every pending disposition into a terminal one and alters no terminal one |
| Rebuilding.DesignationRebuilds | src/governor_service.py:1573-1689 | after a designation each compaction predicted pending is rebuilt on exactly its frontier, committed and on the horizon until now + horizonSeconds, or given up for a missing answer or a key not in place; every other disposition is the traversals' and the horizon changes for rebuilt nodes only |
| Repairs.StepGood | src/governor_service.py:286-349 | one disciplined request keeps containment, clean lineage, pairing and settled repairs together |
| Repairs.DisciplinedRunsAreGood | src/governor_service.py:1573-1689 | in every state of every disciplined run from the initial state containment is exact, lineage clean, and every compaction with a CARRIED commitment and a quarantined cover terminally disposed, so rebuilt nodes break no closure |
| Dispositions.DisposedWhenJudged | src/governor_service.py:275-349 | a designation gives a node an entry if and only if it had one or some traversal of the request, from the root or an active node of the closure, discovers it over a CARRIED commitment |
| Dispositions.DisposedMeaning | src/governor_service.py:275-349 | with clean lineage and paired compactions the nodes that get a disposition are exactly the carrying ones of the closure other than the designated node |
| Dispositions.RunsDisposeCarrying | src/governor_service.py:275-279 | in every run, whatever the requests, only committed nodes with a CARRIED commitment have a disposition |
| Dispositions.DispositionsAreFinal | src/governor_service.py:293-298 | in every run a terminal disposition stays as it is, rebuilt node id and reason included |
| Confluence.MarkAddsClosure | src/governor_service.py:1914-1940 | a designation adds the node's closure also when it returns early because the node is already quarantined |
| Confluence.DesignationsCommute | src/governor_service.py:1912-1940 | from a closed ledger, any two designations end in the same graph and ledger in either order, early returns included |
| Confluence.SubmitAndDesignateCommute | src/governor_service.py:1360-1430 | for an admissible or taint-refused fresh cover-free write with committed parents and matching hashes, given clean lineage, submit-then-designate and designate-then-submit end in the same graph and ledger if and only if the designated node is not the written one or the write is refused |
| CoversGap.ComputeCoversIntervalGap | src/governor_service.py:1140-1168 | both worklists terminate on any graph and the result is the sorted set of uncovered nodes on a parent-edge path between covered nodes |
| CoversGap.Descend | src/governor_service.py:1145-1154 | the first worklist computes the nodes reachable from the covers over parent edges |
| CoversGap.Climb | src/governor_service.py:1157-1165 | the second worklist computes the closure of the covers under committed parent links |
| CoversGap.ClimbMeaning | src/governor_service.py:1157-1165 | a committed node is found by climbing if and only if it reaches a cover |
| CoversGap.ConvexHasNoGap | src/governor_service.py:1167-1168 | the gap is empty if and only if the set is convex: it holds every committed node between two of its members |
| CoversGap.GapCloses | src/governor_service.py:1167-1168 | covers extended by their gap have an empty gap |
| CoversGap.GapIsLeast | src/governor_service.py:1167-1168 | covers with their gap are contained in every convex set above the covers |
| Traversals.GapQueryMeaning | src/sqlite_backend.py:766-795 | on any graph the SQL gap is the set of uncovered nodes on a path, over parent or covers edges, between two committed covers |
| Traversals.GapQueriesAgree | src/sqlite_backend.py:766-795 | for committed covers the SQL gap contains the in-memory one, and equals it when every edge is a parent edge |
| Traversals.CoversRowWidensGap | src/sqlite_backend.py:766-795 | a node that covers one covered node without having it as a parent, and is a parent of another, is in the SQL gap and not in the in-memory one |
| SqliteBackend.SqliteStateBackend.CommitNode | src/sqlite_backend.py:234-276 | the row-by-row inserts keep the edge table equal to the table the stored payloads determine, class column included; a duplicate id changes nothing |
| SqliteBackend.CommittedTable | src/sqlite_backend.py:262-273 | the rows one commit adds are exactly the rows the grown graph calls for |
| SqliteBackend.TableEdges | src/sqlite_backend.py:262-273 | the table's rows are exactly the parent and covers pairs the in-memory search follows, and every row's child is a stored node |
| SqliteBackend.CarriedIsRecorded | src/sqlite_backend.py:262-273 | a CARRIED row always stands for a CARRIED commitment; one can be lost only to an earlier commitment of another class to the same parent |
| SqliteBackend.SparseTraversal | src/sqlite_backend.py:341-364 | the adjacency breadth-first search with a depth per entry returns exactly the nodes within the depth bound |
| SqliteBackend.DenseTraversal | src/sqlite_backend.py:366-404 | the level walk with its cardinality early exit returns exactly the nodes within the depth bound |
| SqliteBackend.EarlyExit | src/sqlite_backend.py:375-404 | once as many nodes are seen as exist, no later level can add one, because every row's child is a stored node |
| SqliteBackend.SqliteStateBackend.ComputeBlastRadius | src/sqlite_backend.py:332-425 | whichever strategy the edge count selects, the result is the sorted bounded level set; the affected compactions are those with a CARRIED row into it |
| PostgresBackend.RecursiveQuery | src/postgres_backend.py:410-425 | the depth-carrying recursive query ends by its bound even on cycles and returns exactly the nodes within the bound |
| PostgresBackend.ComputeBlastRadius | src/postgres_backend.py:410-425 | over the table of a graph the query yields the same sorted list as both SQLite strategies |
| Traversals.BoundedIsBlast | src/sqlite_backend.py:339-404 | the SQL result equals the in-memory result if and only if no edge leaves the last level searched |
| Traversals.SmallGraphsAreExact | src/sqlite_backend.py:339-404 | with nodes plus root at most bound + 1, the SQL result is the in-memory result |
| Traversals.BoundIsTight | src/sqlite_backend.py:339-404 | on every chain of bound + 2 nodes the results differ, so that limit cannot be raised |
| Traversals.AffectedAgree | src/sqlite_backend.py:408-425 | with compactions that carry exactly what they cover, SQL and the in-memory search judge the same compactions, except that SQL also judges a root on a cycle |
| Adapter.ComputeBlastRadius | src/recovery_adapter.py:42-59 | the adapter's queue loop returns the sorted closure over parent edges alone |
| Adapter.Reconstruct | src/recovery_adapter.py:62-70 | the adapter answers if and only if its own frontier and the requested one agree up to order, repetitions counted |
| Adapter.ParentClosureIsInside | src/recovery_adapter.py:42-59 | the adapter's closure is always a subset of the gateway's |
| Adapter.AdapterAnswersGateway | src/recovery_adapter.py:64-70 | for a frontier the gateway derives, the adapter answers if and only if no cover is reached only through covers edges |
| Adapter.DerivationsCoincide | src/recovery_adapter.py:42-70 | on graphs whose covers are all among the parents both derivations coincide and the adapter always answers the gateway |
| Adapter.OrderedIsCanonical | src/recovery_adapter.py:66-69 | two sorted lists are equal if and only if they hold the same ids equally often |
| AdmissionLock.AdmissionLock.TryShared | src/governor_service.py:775-783 | entering is possible exactly when no writer is active or requested, and then counts one reader |
| AdmissionLock.AdmissionLock.TryExclusive | src/governor_service.py:799-804 | entering is possible exactly when there is no reader and no writer, whatever the request flag says |
| AdmissionLock.AdmissionLock.ReleaseExclusive | src/governor_service.py:806-809 | leaving clears the writer mark and the request flag of every writer |
| AdmissionLock.MutualExclusion | src/governor_service.py:754-809 | in every run of any number of tasks the reader count is the number of shared sections, the writer mark is set exactly while one task is inside an exclusive section, that task is alone, and never both |
| AdmissionLock.WaitersEnterExactlyWhen | src/governor_service.py:775-809 | in every run a waiting writer gets in exactly when nobody is inside any section, a waiting reader exactly when no writer is inside and none has asked since the last one left |
| AdmissionLock.FlagMeaning | src/governor_service.py:793-809 | in every run the request flag is set if and only if some request is younger than the last exit of a writer |
| AdmissionLock.RequestDrains | src/governor_service.py:793-798 | from a write request until some writer leaves, the reader count never rises and the request stays |
| AdmissionLock.SecondWriterIsOvertaken | src/governor_service.py:806-809 | the comment that a writer excludes further readers fails with two writers: the first to leave clears the flag and a reader overtakes the second |
| AdmissionLock.NestedSharedNeverProceeds | src/governor_service.py:1910-1947 | a task that asks for a shared section inside its exclusive one is stuck in every continuation, and nobody else can enter either |
| AdmissionLock.NestedExclusiveNeverProceeds | src/governor_service.py:752-753 | a task that asks for an exclusive section inside its shared one is stuck in every continuation, and nobody else can enter either |
| Interleaving.MapsDecide | src/governor_service.py:1302-1347 | deciding from the maps a submission has read is deciding from the store they were read from |
| Interleaving.ReadsHoldUntilCommit | src/governor_service.py:1308-1325 | in every reachable state of every schedule, the maps a submission has read and the closure a detector has computed are what they would read again |
| Interleaving.SchedulesSerialize | src/sqlite_backend.py:20-45 | whenever no refusal is half done, the store is the one that the writes so far produce as atomic requests, one after the other |
| Interleaving.SubmissionIsAtomic | src/governor_service.py:1307-1430 | the atomic submission of the schedules is the store effect of the gateway's submission |
| Interleaving.DesignationIsAtomic | src/governor_service.py:2130-2160 | the atomic designation is the store effect of containment |
| Interleaving.SeedAndCompactionAreAtomic | src/governor_service.py:1569-1570 | seeding and a successful context compaction are the atomic seed and commit of the schedules |
| Interleaving.ClosedIffKept | src/governor_service.py:1307-1430 | over a log of atomic actions the ledger is closed throughout if and only if each action is harmless where it takes effect |
| TaskClosure.LineageIffAnchored | src/governor_service.py:1307-1430 | when ids determine parents, any schedule of any tasks keeps clean lineage throughout its log if and only if every unrefused write derives from committed clean nodes where it takes effect |
| TaskClosure.SoberSchedulesStayClosed | src/governor_service.py:1307-1430 | submissions that cover only as compactions and only stored nodes, designations, seeds, and commits of stored sources: in every order the ledger is closed throughout if and only if each prechecked commit still avoids the ledger when it is made, and then lineage stays clean too |
| TaskClosure.ClosedAtRest | src/governor_service.py:2130-2160 | such submissions, designations and seeds alone, in any number and any order: the ledger is closed and lineage clean whenever no refusal is half done |
| Interleaving.CheckThenCommit | src/governor_service.py:1553-1570 | the covers check of a context compaction precedes the lock: with a designation in between, the commit is safe if and only if the designation reached none of its sources |
| Nearest.CandidatesAreNearestFirst | src/governor_service.py:696-709 | the search visits exactly the quarantined ids at the end of a climb through quarantined nodes, each once, in non-decreasing distance |
| Nearest.NearestReplacement | src/governor_service.py:681-737 | nothing is found if and only if no quarantined ancestor has an exposed stand-in or a declared clean substitute; otherwise the record of the first exposure standing in for its target or, without one, the clean substitute, of a nearest such ancestor |
| Nearest.DirectWheneverPossible | src/governor_service.py:1404-1406 | a nearest ancestor with an offer is the tainted parent itself if and only if that is quarantined and has an exposed stand-in or a clean substitute |
| Completion.RunAccounts | src/governor_service.py:586-660 | in every run each refused id has one row and is quarantined; a completed row was offered and is completed by a committed node with the offered replacement among its parents |
| Completion.CompletionHistory | src/governor_service.py:1477-1488 | every completion happened at one request of the run, by a node new then, whose parents were all committed and clean then |
| Credits.StepCredits | src/governor_service.py:621-660 | one request completes a row if and only if it is a submission accepted as new that has the row's offered node among its parents and does not claim to retry another author's action; every other row and every other request leaves it alone |
| Credits.CreditHistory | src/governor_service.py:621-660 | in every run a row is completed by n if and only if some request submitted n, was accepted as new, and earned the row while it was open |
| Completion.RefusalOffersNearest | src/governor_service.py:1389-1413 | every refusal answers with the best replacement of the resulting state, as the search theorem characterises it, and appends one row carrying its node, direct if and only if its target is the tainted parent |
| Completion.UpdatesAgree | src/sqlite_backend.py:860-902 | with one row per id, first-match updates and SQL WHERE updates are the same, for offers and completions |
| Completion.StepAccounts | src/governor_service.py:586-660 | one request keeps the accounting and only adds offers and completions to existing rows |
| Completion.GetTaintedActionStats | src/governor_service.py:662-679 | each figure counts its rows, direct and ancestor offers and completions included, and the kinds add up |
| Withdrawals.RecurTruth | src/r6_utils.py:5-29 | one recurrence keeps the withdrawal ledger true to the event log |
| Withdrawals.WithdrawnIsUnion | src/r6_utils.py:20-29 | after any run the withdrawn ids are the union of the closures logged by the events within the amplification limit |
| Withdrawals.LoggedClosures | src/r6_utils.py:15-29 | after any run each logged event stems from one request, and its closure is the forward closure of its node in the graph that request traversed: before a designation or observation, after a refusal's commit |
| Withdrawals.WithdrawnByEarliest | src/governor_service.py:410-425 | after any run each entry names the earliest event that withdraws its id, with that event's time, labelled direct exactly when the id is the least of that closure |
| Withdrawals.RunTruth | src/r6_utils.py:5-29 | keys, entries and escalation marks of every reachable state agree with the event log |
| Withdrawals.ObservedEvent | src/r6_utils.py:20-29 | an over-limit event changes no entry, an event within the limit withdraws its whole closure, and the observed node is labelled direct if and only if it sorts first |
| Recurrences.DesignationRecurs | src/governor_service.py:1912-1927 | a designation logs exactly one event per node of its closure with horizon beyond now, in id order, each with its own closure and escalation mark, and withdraws exactly the closures within the limit besides what was withdrawn |
| Recurrences.RefusalRecurs | src/governor_service.py:1368-1375 | a refusal does the same below the tainted parent it names, over the graph that already holds the write |
| Recurrences.ObservationRecurs | src/r6_utils.py:5-29 | an observation logs one event for its own node, judges what its traversal reaches, and changes nothing else |
| Recurrences.OthersDoNotRecur | src/governor_service.py:1252-2382 | no other request changes the recurrence log or the withdrawal ledger |
| NonInterference.SearchPlain | src/governor_service.py:252-284 | the search restricted to ordinary ids is the search of the restricted graph, pops and CARRIED discoveries in order |
| NonInterference.GapPlain | src/governor_service.py:1140-1168 | continuity records never lie between ordinary covers, so the gap is the same in both graphs |
| NonInterference.ContinueMatch | src/governor_service.py:1699-1873 | a continuity pass is invisible through ordinary ids |
| RemoteRuns.UndisturbedDesignation | src/governor_service.py:1912-1949 | a designation that does not disturb the remote path comes out the same with and without continuity: the key is not the adapter's, or still in place with nothing emitted, or the adapter would rebuild nothing |
| RemoteRuns.DisturbedDesignation | src/governor_service.py:1795-1796 | a designation that does disturb it leaves some compaction with different terminal dispositions: rebuilt without continuity, given up with it |
| RemoteRuns.ContinuityDoesNotInterfere | src/governor_service.py:1699-1873 | the same request list with continuity on and off, naming no minted id, ends in the same graph, insertion order, ledger, repairs and horizon on ordinary ids if and only if no request disturbs the remote adapter, judged on the state it meets; with inline recovery none does |

## Left out

- HTTP routing, JSON schemas, tokens, signatures, hashing, the policy engine processes and the language model call.
- Shadow mode, which admits everything by design; rate limits, the readiness and in-flight counters, signal attempts.
- Report endpoints other than the breach list and the tainted-action counts; reset, debug, calibration and migration code.
- Detector mapping tables: a detector event enters the model as the designation it is mapped to.
- The sequential two-call policy fallback of `evaluate_admission`; the combined policy is modelled.
- The exception branches of `_attempt_reconstruction` (timeouts, malformed answers, bad signatures, a candidate whose covers differ from the requested frontier) and task cancellation.
- The class, source and evidence of a recurrence event, and the snapshot content of a checkpoint beyond the ids it references.
- The order in which Python dictionaries and sets list pending compactions, relevant tainted parents and horizon nodes: the model takes sorted order where the source iterates a set, and sorted order for pending compactions.
- The remote adapter's candidate lists its parents in sorted order and without content hashes; the model keeps the order of the frontier and the inline placeholder hash. The edges are the same.
- The repair loop of the SQL backends, which judges like the in-memory one; modelled are the closure and the set of compactions it runs over. With several commitments of different classes to one parent these sets can differ, see SqliteBackend.CarriedIsRecorded.
- SQL variants of the replacement search, which climb covers rows as well as parent rows.
- In the interleavings a commit is one step even where a backend writes several rows, and events, repairs and withdrawals are not part of the shared state.
- Interleaving.DesignationIsAtomic: stated for the part of a detector request inside the exclusive section; the continuity and reconstruction commits that follow are separate commit tasks.
- TaskClosure.ClosedAtRest: sufficient conditions on the tasks; TaskClosure.SoberSchedulesStayClosed and TaskClosure.LineageIffAnchored are the equivalences, over the log of atomic actions.
- Traversals.GapQueriesAgree: equality is stated one way, for graphs in which every edge is a parent edge; Traversals.GapQueryMeaning says what SQL finds on every graph.
- Service.AttemptReconstruction: the signature, frontier and exception branches of the remote answer are not modelled, and pending compactions are taken in sorted order where the source takes dictionary order.
- RemoteRuns.ContinuityDoesNotInterfere: assumes that a key minted in process is never the remote adapter's, and that requests name no id continuity mints.
- Per-root equality of recorded and current closures, which the code does not keep because refusals are logged under the immediate tainted parent.
