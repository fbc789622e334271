# DecisionGraph: the event log, its projections and its queries, in Dafny

DecisionGraph keeps decisions as an append-only log of events. Every trace starts with a `TraceStarted`, numbers
its events 0, 1, 2, ..., and ends with a `TraceFinished`. From the log a projector derives a context graph (nodes
and edges), trace summaries, a precedent index and a policy index; queries read those tables, and digests identify
them. What the library is for is that all of this can be replayed: the same log gives the same tables, whatever
was interrupted, retried or rebuilt on the way.

This project models the Python core that makes that promise, `src/decisiongraph`, and proves it of the model:

- **Payloads** (`Json`, `JsonParse`, `CanonicalText`, `FloatPaths`, `Events`). `json.dumps` with its separators,
  escaping and key order, `json.loads` as a parser, the canonical text a payload is hashed from, and the row an event is
  stored in and read back from.
- **The log** (`Log`, `Admission`, `Writers`, `FinishLock`, `Sqlite`, `MemoryStore`, `EventBatches`). `append_event` of
  the SQLite store is a step system: its SELECTs and its INSERT are atomic steps, any number of writers interleave, and
  only the unique indexes and the trigger guard the INSERT. `SQLiteEventStore` is the class whose methods follow that
  system, `InMemoryEventStore` the list with three indexes, and `EventBatches` its generator. `Admission` holds the terms
  in which both stores' answers are stated: byte lengths, required fields, who holds a key, how many events a trace has.
- **Projection** (`ContextGraph`, `Emissions`, `Projection`, `Folding`, `Projector`, `Replay`, `Totality`, `Unindexable`,
  `GraphShape`, `PolicyIndex`, `CatchUp`). What an event emits, field by field, what projecting it does to the tables,
  `SQLiteProjector` with its transactions, and runs of appends, batches, failures, restarts and rebuilds in any order.
- **Queries** (`Queries`, `Subgraph`, `EdgePages`, `GraphQueries`, `Precedents`, `Digests`). The breadth-first subgraph
  search, keyset pagination, precedent search and the digests, each tied first to the tables and then to the log.
- **The facade** (`DefaultKeys`, `Api`). `DecisionGraph`, which makes up keys, appends, catches up, synchronises and replays, while other connections
  commit before its statements. What those commit is any function of the log they find that keeps to what the store
  admits.
- `Order` and `Wrappers` hold the sorted listings, results and error codes the others share.

`dafny verify dfyconfig.toml` checks everything.

## Model

| member | source | states |
|---|---|---|
| JsonParse.CanonicalIdentity | src/decisiongraph/serialization/canonical_json.py:50-101 | Two payloads without floats have the same canonical text if and only if they are equal up to key order and list or tuple, at every depth: no two different payloads share a text. |
| CanonicalText.CanonicalIsShortest | src/decisiongraph/serialization/canonical_json.py:71-101 | No text that `json.loads` reads as the payload, up to key order and list or tuple, is shorter than the canonical one: it holds no space outside its strings and escapes nothing that need not be. |
| CanonicalText.HashedText | src/decisiongraph/serialization/canonical_json.py:104-118 | The payload hash is taken of such a shortest text, and every object in it, at every depth, has its keys in code-point order: where two keys first differ, the earlier one ends or has the lesser character. |
| CanonicalText.ControlText | src/decisiongraph/serialization/canonical_json.py:96-101 | The control characters without a short escape stand in the canonical text as `\u00` and two lower-case hexadecimal digits. |
| JsonParse.LoadsDumps | src/decisiongraph/storage/_shared.py:78-203 | Parsing what `json.dumps` printed, in any of the separator styles in use, with or without `ensure_ascii`, succeeds and gives the payload with keys sorted and tuples as lists. |
| JsonParse.CanonicalSurvivesStorage | src/decisiongraph/storage/_shared.py:78-80 | Storing a payload and loading it again keeps its canonical text, hence its hash. |
| Json.CanonicalizeAccepts | src/decisiongraph/serialization/canonical_json.py:29-47 | Canonicalization succeeds exactly when there is no float anywhere in the payload. |
| FloatPaths.RefusalNamesFirstFloat | src/decisiongraph/serialization/canonical_json.py:29-47 | A refused payload is reported with the path, keys behind dots and positions in brackets, of a float in it, and of the first one in the order of iteration. |
| Events.RowReadsBack | src/decisiongraph/storage/_shared.py:184-241 | Every row written for an accepted envelope reads back without error as the event that was stored, same metadata, hash and tags, its payload in canonical form. |
| Events.NormSchema | src/decisiongraph/domain/validation.py:216-293 | A payload that meets its event type's schema still meets it after storage. |
| Events.ValidateIdempotentReuse | src/decisiongraph/storage/_shared.py:91-146 | The stored event is returned exactly when the hash, trace, type, source, actor, correlation id, causation id, schema version and tags all agree, otherwise the idempotency conflict; the names of the disagreeing fields are collected on the way. |
| Admission.KeyOkFits | src/decisiongraph/domain/validation.py:134-165 | An idempotency key is admitted exactly when it is not empty, holds no NUL and is at most 200 bytes long in UTF-8 (RFC 3629). |
| Admission.SchemaIsNeeds | src/decisiongraph/domain/validation.py:216-293 | The schema check of each of the ten event types asks for exactly a table of paths that must end at a text that is not empty, or at a list. |
| Admission.PrepareDecides | src/decisiongraph/storage/_shared.py:48-88 | Preparation succeeds exactly for an admitted key and a payload that has what its type needs and no float; it fails with the invalid argument for the key before it fails with the schema violation for the payload. |
| Log.NextSeqCounts | src/decisiongraph/storage/sqlite/backend.py:403-419 | In a sequenced log MAX(trace_seq) + 1 is the number of events of the trace. |
| Log.TraceNumbered | src/decisiongraph/storage/_shared.py:149-181 | A trace's events carry 0, 1, 2, ... in log order, and TraceStarted is at 0 and nowhere else. |
| Writers.EveryRunKeepsShape | src/decisiongraph/storage/sqlite/backend.py:120-174 | Any interleaving of any number of writers, with failures at any step, leaves a log with contiguous log_seq, gap-free trace sequences, distinct idempotency keys and event ids, nothing but finishes behind a finish when the trigger is installed, and only readable rows. |
| Writers.RunExtends | src/decisiongraph/storage/sqlite/backend.py:142-174 | The log is append-only: after any run it extends the log before. |
| Writers.OneEventPerKey | src/decisiongraph/storage/sqlite/backend.py:123-218 | In any run, all successful appends for one (producer, idempotency key), racing or retried, report the same stored event. |
| Writers.RepeatChangesNothing | src/decisiongraph/storage/sqlite/backend.py:123-126 | Repeating an accepted envelope at any later point, with other writers active during the call and even after the trace has finished, answers with the stored event and changes neither the final state nor any other reply. |
| FinishLock.DisciplinedRunsFinishLast | src/decisiongraph/storage/sqlite/backend.py:128-138 | If no envelope is numbered ahead of its trace when it is handed in, every TraceFinished is the last event of its trace, under every interleaving. |
| FinishLock.SafeExactlyWhenDisciplined | src/decisiongraph/storage/sqlite/backend.py:128-138 | After a disciplined run, a new envelope for an open trace meets that condition if and only if no disciplined continuation can leave an event behind a finish. |
| FinishLock.FinishLastFails | src/decisiongraph/storage/sqlite/migrations/0004_trace_finished_lock.sql:5-14 | A run, trigger installed, whose log has two TraceFinished in one trace. |
| FinishLock.ApiCallsAreDisciplined | src/decisiongraph/api.py:167-189 | An envelope numbered from get_next_trace_seq meets the condition, however the log has grown since. |
| Sqlite.SQLiteEventStore.AppendEvent | src/decisiongraph/storage/sqlite/backend.py:108-233 | Whatever others commit in between: an Ok reply has the envelope's trace, type, source, actor, correlation and causation ids, schema version, tags and hash; a row under the key that differs in any of them makes the reply the idempotency conflict and nothing is added. When nobody commits, the reply and the log for every envelope: key, payload, holder of the key, finished trace, wrong number and taken event id each with their error, and otherwise the log grown by exactly that row. |
| Sqlite.QuietDecides | src/decisiongraph/storage/sqlite/backend.py:108-174 | The same decision as a theorem about the course of statements: which of the answers an envelope gets is decided by fields of the envelope and the rows alone. |
| Sqlite.ClashAnswers | src/decisiongraph/storage/sqlite/backend.py:120-126 | An admitted envelope whose key is held by a row that differs in hash or in any compared field is refused with the idempotency conflict at the first look, whatever others commit, and the log holds only what others committed. |
| Sqlite.SQLiteEventStore.InsertOrRecover | src/decisiongraph/storage/sqlite/backend.py:139-233 | The INSERT and its recovery: a refused unique index leads to the second look for the key, to the conflict, sequence or storage error, and leaves the log alone. |
| Sqlite.SQLiteEventStore.CheckIdempotency | src/decisiongraph/storage/sqlite/backend.py:235-262 | Answers nothing exactly when no row has the envelope's producer and key; otherwise with that row's event if hash and all compared fields agree, and with the conflict if not. |
| Sqlite.SQLiteEventStore.ListEvents | src/decisiongraph/storage/sqlite/backend.py:296-339 | On a readable log, the first `limit` of the events with log_seq in the range, in order. |
| Sqlite.CourseIsARun | src/decisiongraph/storage/sqlite/backend.py:108-233 | Whatever other writers do before each statement, a call of append_event is a run of the step system with the same log and the same reply, so every theorem about runs is one about calls. |
| Sqlite.AppendSettles | src/decisiongraph/storage/sqlite/backend.py:108-233 | Whatever others commit before each statement, a call leaves a log in shape that extends the one before, and a successful reply is a row of it and the same submission; with nobody else around the log grows by at most one row. |
| MemoryStore.InMemoryEventStore.AppendEvent | src/decisiongraph/testing/fakes.py:59-125 | The three redundant indexes give the reply and the list that plain scans would, and stay in agreement with the list; and for every envelope which reply that is, from its fields and the events alone, acceptance and each of the errors included. |
| MemoryStore.AppendDecides | src/decisiongraph/testing/fakes.py:59-125 | Which reply an envelope gets: the key, the payload, the holder of its key, a finished trace and a wrong number decide in this order, and whatever passes them all becomes the next event. |
| MemoryStore.InMemoryEventStore.GetNextTraceSeq | src/decisiongraph/testing/fakes.py:248-260 | The per-trace index answers what the log says: the number of events the trace has. |
| MemoryStore.InMemoryEventStore.IsTraceFinished | src/decisiongraph/testing/fakes.py:237-246 | The set of finished traces answers whether the log holds a TraceFinished of the trace. |
| MemoryStore.ListEvents | src/decisiongraph/testing/fakes.py:156-192 | Filtering one criterion after another gives the first `limit` events that meet all that were given, in log order. |
| MemoryStore.SelectedExactly | src/decisiongraph/testing/fakes.py:156-192 | What is selected before the limit is exactly the events above the lower and up to the upper log_seq, of the type and of the trace that were given, by increasing log_seq. |
| MemoryStore.AppendKeepsShape | src/decisiongraph/testing/fakes.py:59-125 | Every append keeps log_seq contiguous, traces sequenced, keys distinct and finishes last. |
| MemoryStore.AcceptedIsStored | src/decisiongraph/testing/fakes.py:71-125 | A successful reply is an event of the log with the same key and the same submission. |
| MemoryStore.RepeatKeepsLog | src/decisiongraph/testing/fakes.py:71-80 | A repeat of an accepted envelope at any later time gets the same reply and leaves the log as it is. |
| EventBatches.EventBatches.Next | src/decisiongraph/testing/fakes.py:194-225 | Each batch is non-empty, at most batch_size long and moves the cursor on; when the generator returns it has yielded exactly the matching events, in order. |
| EventBatches.EventBatches.Resume | src/decisiongraph/testing/fakes.py:194-225 | The same for the generator as it is used, with the error for a batch size that is not positive raised at its first next(). |
| EventBatches.DrainWhileGrowing | src/decisiongraph/testing/fakes.py:194-225 | With until_log_seq the generator ends however the log grows between its yields, having yielded exactly the matching events of the log as it stands. |
| EventBatches.Drain | src/decisiongraph/testing/fakes.py:194-225 | Without it, it ends on a log that has stopped growing, with the same result. |
| ContextGraph.SplitNodeId | src/decisiongraph/projections/context_graph.py:44-54 | Splitting a node id at its first colon recovers type and identifier, whatever the identifier holds. |
| Emissions.EmitsDrawn | src/decisiongraph/projections/context_graph.py:94-568 | For each of the ten event types, with a schema-checked payload: the exact nodes and the exact edges, with type, both ends and ids written out from the payload's fields. |
| Emissions.EveryReachableDrawing | src/decisiongraph/projections/projector.py:223-308 | In every reachable state the node table holds exactly the ids that the projected events name, each with the row of the first to name it, and the edge table exactly the ids of the edges they draw; with colon-free event ids each of those edges unchanged. |
| ContextGraph.EdgesAreDue | src/decisiongraph/projections/context_graph.py:94-568 | How many edges a schema-checked event owes: two for a proposed action, none for a finish or an approval of anything but an exception, one for every other event; which ones they are is `Emissions.EmitsDrawn`. |
| ContextGraph.EmittedNodesAreRows | src/decisiongraph/projections/projector.py:281-308 | Every emitted node is the very row a placeholder for its id would be, so it does not matter which of them comes first. |
| ContextGraph.EmittedEdges | src/decisiongraph/projections/context_graph.py:57-72 | Every emitted edge carries its event's place and the id made of its parts; two edges of one event differ in type. |
| Projection.FirstFailure | src/decisiongraph/projections/projector.py:519-556 | If event i is the first to fail, batches of size b leave exactly the state after the first (i / b) * b events, and the error. |
| Projector.SQLiteProjector.constructor | src/decisiongraph/projections/projector.py:50-116 | A new projector holds the cursor and tracker the database determines. |
| Projector.SQLiteProjector.InsertEmission | src/decisiongraph/projections/projector.py:223-308 | Inserting nodes, placeholders and edges one statement at a time gives the tables of the specification that `Emissions.EveryReachableDrawing` describes field by field. |
| Projector.CollectEntries | src/decisiongraph/projections/projector.py:414-470 | The loop over a trace's rows finds the entries of the recursive definition, or its error. |
| Projector.SQLiteProjector.BuildPrecedentIndex | src/decisiongraph/projections/projector.py:400-496 | Deleting a trace's rows and inserting them anew gives the specified precedent table, or the error. |
| Projector.SQLiteProjector.ProjectEventInTx | src/decisiongraph/projections/projector.py:167-199 | One event: sequence check, tables, tracker and cursor as specified, and no other trace's tracker entry touched even on failure. |
| Projector.SQLiteProjector.ProjectEvent | src/decisiongraph/projections/projector.py:143-199 | All or nothing for one event: on an error tables, cursor and tracker are what they were. A payload that hashes differently from the stored hash and an event that is not the next of its trace are refused, each with its error; on success cursor, tracker entry and saved cursor are those of the event. |
| Projector.SQLiteProjector.ProjectEventsInTx | src/decisiongraph/projections/projector.py:544-556 | All or nothing for a list of events. |
| Projector.SQLiteProjector.ProjectEvents | src/decisiongraph/projections/projector.py:519-542 | One transaction without a batch size, batch by batch with one; the batches before the failing one are kept. |
| Projector.SQLiteProjector.Rebuild | src/decisiongraph/projections/projector.py:498-517 | Empties tables, cursor and tracker. |
| Replay.PrecedentsStable | src/decisiongraph/projections/projector.py:400-496 | The precedent rows of a finished trace do not depend on how far the log has grown when they are built, although building reads the whole log. |
| Replay.EveryScheduleAgreesWithRebuild | src/decisiongraph/projections/projector.py:143-199 | After any schedule of appends, transactions, batches, failures, restarts and rebuilds, once the cursor is at the end of the log, tables and memory are those of a rebuild and one pass. |
| Replay.EveryRestartIsExact | src/decisiongraph/projections/projector.py:83-116 | In every reachable state a new projector on the same database holds the same cursor and tracker. |
| Totality.ProjectsExactlyWhenIndexable | src/decisiongraph/projections/projector.py:167-221 | Projecting the first n events succeeds if and only if every trace finished among them that has a PolicyEvaluated or ExceptionRequested event gives its primary entity a system SQLite has a type for (no list, no dict, no integer beyond 64 bits); then summaries and precedents are what the log alone says they are. |
| Unindexable.ProjectionCanRaise | src/decisiongraph/projections/projector.py:400-496 | A run of append_event calls whose log the projector raises on. |
| Unindexable.NeverRecovers | src/decisiongraph/projections/projector.py:544-556 | A pass from scratch that fails goes on failing with the same error, whatever is appended. |
| Unindexable.NeverPasses | src/decisiongraph/projections/projector.py:498-556 | Over every schedule of appends, transactions, batches, restarts and rebuilds, the cursor never gets past the end of a trace that cannot be indexed. |
| GraphShape.EveryReachableGraph | src/decisiongraph/projections/projector.py:223-308 | In every reachable state a node has a row if and only if a projected event mentions it, namely that of the first to do so; every edge is one the events emit, every emitted id has an edge, and every edge's ends have rows. |
| GraphShape.EveryReachableConserves | src/decisiongraph/projections/projector.py:248-279 | With colon-free event ids no INSERT OR IGNORE drops an edge: the table holds each emitted edge unchanged and as many as were emitted. |
| GraphShape.EveryReachableCount | src/decisiongraph/projections/projector.py:248-279 | With colon-free event ids the edge table has, in every reachable state, exactly as many edges as the projected events owe by that count. |
| GraphShape.TraceNodesCarryTheirTrace | src/decisiongraph/projections/projector.py:281-308 | A trace's node carries that trace's id even if another trace's citation created it first. |
| GraphShape.EdgesGrow | src/decisiongraph/projections/projector.py:248-279 | Projecting further keeps every edge and adds only edges with a greater log_seq. |
| PolicyIndex.EveryReachableIndex | src/decisiongraph/projections/projector.py:345-373 | With colon-free event ids the policy index has, in every reachable state, exactly one row per projected PolicyEvaluated event, with its policy: no insert is ever ignored. |
| Queries.StaleIsBehind | src/decisiongraph/query/graph.py:78-95 | On a numbered log a projection is stale exactly when its cursor is less than the number of events. |
| Subgraph.GetContextSubgraph | src/decisiongraph/query/graph.py:98-252 | On a numbered log the reply is the out-of-date error if and only if the cursor is behind the number of events; then the bounds 0 to 10 of the depth, then the rows of what the bounded search finds. |
| Subgraph.VisitLevel | src/decisiongraph/query/graph.py:160-201 | One depth takes the touching edges in edge_id order until a limit stops it, and says whether one did. |
| Subgraph.Search | src/decisiongraph/query/graph.py:142-203 | The search finds all within max_depth or is truncated, and what survives a truncation is the first by level and edge id. |
| Subgraph.ReachIsHops | src/decisiongraph/query/graph.py:142-203 | The nodes found by depth d are those with a walk of at most d hops from the center. |
| Subgraph.SubgraphIsExact | src/decisiongraph/query/graph.py:142-252 | An answer that is not truncated is exactly the neighbourhood; it is truncated if and only if the neighbourhood exceeds max_nodes or max_edges; it never holds anything else. |
| Subgraph.SubgraphIsJoined | src/decisiongraph/query/graph.py:142-252 | Even a truncated answer is connected: its own edges lead from the center to each of its nodes within max_depth. |
| EdgePages.ListNodeEdges | src/decisiongraph/query/graph.py:255-383 | On a numbered log the reply is the out-of-date error if and only if the cursor is behind the number of events; then limit and cursor errors in the order the code checks them, then the page after the cursor. |
| EdgePages.FollowingCollectsAll | src/decisiongraph/query/graph.py:299-383 | Following next_cursor while the graph grows between calls collects, at the end, every matching edge present at the last call exactly once and in order. |
| EdgePages.PageCount | src/decisiongraph/query/graph.py:349-383 | It takes exactly max(1, ceil(n / limit)) calls. |
| EdgePages.ProgressGrows | src/decisiongraph/query/graph.py:255-383 | Between two states of a projector in step, the later further on, the edge table grows in the sense those two theorems assume. |
| GraphQueries.SubgraphFromTheLog | src/decisiongraph/query/graph.py:98-252 | End to end: on an up-to-date projection the answer lies within max_depth hops along edges the log's events draw, is all of that unless truncated, and is truncated if and only if that exceeds a limit. |
| GraphQueries.PagesFromTheLog | src/decisiongraph/query/graph.py:255-383 | End to end: a full reading ending on an up-to-date projection returns exactly the edges that the log's events draw and that start, end or do either at the node, as the direction asks, each once, by log_seq and edge id. |
| Precedents.FindPrecedents | src/decisiongraph/query/precedents.py:90-237 | On a numbered log the reply is the out-of-date error if and only if the cursor is behind the number of events; then the limit of 10000, then the first `limit` matching traces with the row ranked first for each. |
| Precedents.HitsComeFromTheLog | src/decisiongraph/query/precedents.py:132-237 | On caught-up tables the hits are, from the log alone, the first `limit` wanted traces by last event, latest first, each once, with the policy version of the latest matching exception or else evaluation. |
| Precedents.ReachableIsCaughtUp | src/decisiongraph/query/precedents.py:119-130 | Every reachable state with its cursor at the end of the log passes the staleness check and has caught-up tables. |
| Digests.Collect | src/decisiongraph/projections/digests.py:50-72 | Collecting rows in whatever order the query returns them and sorting by key gives a value that depends on the table alone. |
| Digests.ComputeContextGraphDigest | src/decisiongraph/projections/digests.py:36-112 | The digest is the hash of the graph's text, whatever the row order. |
| Digests.GraphDigested | src/decisiongraph/projections/digests.py:36-112 | What the graph digest hashes: the canonical text, its characters beyond ASCII escaped, of a dict with nodes and edges, each a list with one dict per row, in code-point order of the ids, every column under its own name. |
| Digests.SummariesDigested | src/decisiongraph/projections/digests.py:115-156 | The same for trace summaries, absent columns as null. |
| Digests.PrecedentsDigested | src/decisiongraph/projections/digests.py:159-198 | The same for the precedent index. |
| Digests.ComputeFullProjectionDigest | src/decisiongraph/projections/digests.py:201-219 | The full digest is the hash of the three digests joined by colons, whatever the row orders. |
| Digests.GraphTextTells | src/decisiongraph/projections/digests.py:36-112 | Two graphs are hashed from the same text if and only if their node and edge tables are equal. |
| Digests.SummaryTextTells | src/decisiongraph/projections/digests.py:115-156 | The same for trace summaries. |
| Digests.PrecedentTextTells | src/decisiongraph/projections/digests.py:159-198 | The same for the precedent index. |
| Api.DecisionGraph.ProjectEventBatches | src/decisiongraph/api.py:123-151 | While others commit before each page is read and before it is projected: on success the cursor has come to the end of what was to be read and the count is what was projected; a failure stands at the start of the failed page and keeps nothing of it; if nobody commits, state and error are those of project_events with that batch size over the pending events. |
| Api.DecisionGraph.ProjectThroughLogSeq | src/decisiongraph/api.py:111-121 | While others commit: the cursor never moves back, on success it has reached the target, and a target already passed changes nothing. |
| Api.DecisionGraph.SyncProjections | src/decisiongraph/api.py:623-629 | While others commit: on success the cursor is at the end of the log as it was read last and the count is the number of new events; on failure the projector is still in step. |
| Api.DecisionGraph.ReplayProjections | src/decisiongraph/api.py:631-637 | While others commit: a replay that succeeds ends at the end of the log, and leaves an up-to-date projection exactly as it was if the log has not grown. |
| DefaultKeys.DefaultKeysDiffer | src/decisiongraph/api.py:167-171 | Two keys the library makes up are equal only if event type, trace and number all are, whatever the trace ids hold. |
| DefaultKeys.DefaultKeyFits | src/decisiongraph/api.py:167-171 | Such a key is admitted exactly when the trace id holds no NUL and type name, trace id in UTF-8 and digits take up at most 198 bytes. |
| DefaultKeys.NewDefaultKeyIsFree | src/decisiongraph/api.py:167-171 | Where a producer has left all its keys to the library, the key of the next event is held by no event of the log. |
| Api.KeylessIsAdmitted | src/decisiongraph/api.py:167-189 | So an envelope without a key of its own, from a producer that never gives one, for an open trace, of a type fit for the number, with a checked payload and a new event id, meets all that acceptance asks for. |
| Api.DecisionGraph.AppendEvent | src/decisiongraph/api.py:153-191 | The envelope is numbered with the count of the trace's events and keyed with the given key or with type, trace and number joined by colons. While others commit throughout, that number never runs ahead of the trace, the log keeps its shape, a returned event is stored and projected, and the projector stays in step even when projecting fails. When nobody commits, an envelope with an admitted free key, a checked payload, an open trace, a type fit for the number and a new event id leaves the log grown by exactly its row, on success and on a projection error alike, and every other call has the store's reply, unless projecting what it returned raises. |

## Findings

Two properties the repository promises do not hold of the code without a condition. For each there is a concrete run
and the exact condition.

1. **An event can land behind a TraceFinished.** `append_event` asks whether the trace is finished and what the next
   trace_seq is in two separate SELECTs (src/decisiongraph/storage/sqlite/backend.py:128-138), and the trigger of
   migration 0004 lets a TraceFinished through. An envelope numbered ahead of its trace can find the trace open, be
   overtaken by another finish, and then find its own number next in line. `FinishLock.FinishLastFails` is such a run.
   A call is safe exactly when its number is at most 1 or at most the next trace_seq as it is handed in, or when the
   trigger is installed and it is not a TraceFinished (`FinishLock.SafeExactlyWhenDisciplined`); runs of such calls
   always finish last (`FinishLock.DisciplinedRunsFinishLast`). The calls `DecisionGraph` makes are all safe
   (`FinishLock.ApiCallsAreDisciplined`); the condition concerns direct users of the store.
2. **Projection can raise on a log of accepted events.** `validate_payload_schema` does not look at
   `primary_entity.system` (src/decisiongraph/domain/validation.py:241-243), and `_build_precedent_index` binds it as a
   column. A list, a dict or an integer beyond 64 bits is accepted into the log and cannot be bound.
   `Unindexable.ProjectionCanRaise` is such a log. Projection succeeds exactly when every finished trace that has a
   PolicyEvaluated or ExceptionRequested event has a bindable system (`Totality.ProjectsExactlyWhenIndexable`);
   otherwise the projector is stuck before that finish for good: under no schedule does its cursor get past it
   (`Unindexable.NeverPasses`), and the error stays the same (`Unindexable.NeverRecovers`).

Two smaller observations that the model follows: `replay_projections` notices a batch size that is not positive only
after it has emptied the projection (`Api.DecisionGraph.ReplayProjections`), and a summary's `event_count` counts
TraceStarted and TraceFinished only, not the events of the trace.

## Left out

- Api.DecisionGraph.SyncProjections: assumes that others stop committing at some time, since the loop need not end otherwise; ReplayProjections and, without until_log_seq, ProjectEventBatches likewise.
- Within one projection transaction nobody else commits: its first write takes the database's write lock.
- Sqlite.SQLiteEventStore.ListEvents: takes no trace_id or event_type filter; projection never passes one.
- Precedents.FindPrecedents: assumes a positive limit, which the constructor of `PrecedentQuery` enforces with its other argument checks; that constructor is not part of this model.
- GraphShape.EveryReachableConserves: assumes event ids without a colon, as the library's UUIDs are; the graph itself (`EveryReachableGraph`) needs no such assumption.
- PolicyIndex.EveryReachableIndex: the same assumption.
- Replay.EveryScheduleAgreesWithRebuild: the appended rows form a log the store can produce, and one projector works on the database; two projectors on one database are not modelled.
- Digests.Collect: Python's stable sort is modelled as an insertion sort; the keys are primary keys, so stability does not show.
- SHA-256 is an arbitrary function of the text, so results are about hashed texts and not about collisions.
- Clock readings, generated event ids and trace ids are parameters; the wall-clock columns updated_at and recorded_at of projection rows are omitted.
- Outside database failures during projection (disk full, lock) are a parameter naming the events at which they strike.
- The PII guard and its patterns, dataclass payload values, and the JSON-safety check, which always holds of the model's values.
- Python's `str()` of floats and containers where a payload field should be text: schema-checked payloads hold texts there, except for optional fields, where the model's text is only a stand-in.
- Lone surrogates, Python's limit on integer digits, and Unicode beyond Dafny's characters.
- log_seq is the rowid of an append-only table and counts 1, 2, 3, ...; `clear()` and gaps after a rolled-back insert are not modelled.
- The attrs of nodes and edges are always `{}` in the code: not a field of the tables, and written as `{}` in the digests.
- get_trace_events, projection health, read-only connections, the migrations themselves, the command line, the service client and observability.
- The PostgreSQL store and projector, which repeat the SQLite logic with another driver, and the BEAM platform.
