// What projecting one event does to the projection tables, the cursor and the sequence tracker.
module Projection {
  import opened ContextGraph
  import opened Events
  import opened Folding
  import opened Json
  import opened JsonParse
  import opened Log
  import opened Wrappers

  // ----- tables -----

  datatype Summary = Summary(
    workflow: string,
    title: string,
    primaryEntityType: Option<string>,
    primaryEntityId: Option<string>,
    outcome: Option<string>,
    startedAt: string,
    finishedAt: Option<string>,
    eventCount: int,
    lastLogSeq: int)

  datatype PolicyEval = PolicyEval(
    traceId: string, policyId: string, policyVersion: string, logSeq: int, createdAt: string)

  datatype Precedent = Precedent(
    logSeq: int,
    traceId: string,
    policyId: string,
    policyVersion: string,
    exceptionId: Option<string>,
    primaryEntityType: Option<string>,
    primaryEntitySystem: Option<string>,
    primaryEntityId: Option<string>)

  // Each table is a map from its primary key; cursor is the row of dg_projection_meta.
  datatype Tables = Tables(
    nodes: map<string, Node>,
    edges: map<string, Edge>,
    summaries: map<string, Summary>,
    policyEvals: map<string, PolicyEval>,
    precedents: map<string, Precedent>,
    cursor: Option<int>)

  const EMPTY_TABLES := Tables(map[], map[], map[], map[], map[], None)

  // The tables together with the two fields the projector keeps in memory.
  datatype Proj = Proj(tables: Tables, cursor: int, tracker: map<string, int>)

  const EMPTY := Proj(EMPTY_TABLES, 0, map[])

  // ----- SQLite columns -----

  const INT64_MAX := 0x7FFF_FFFF_FFFF_FFFF

  // Binding a value to a TEXT column: containers and integers beyond 64 bits have no SQLite type.
  function Bind(v: Option<Value>): Result<Option<string>, Code> {
    match v
    case None => Ok(None)
    case Some(Null) => Ok(None)
    case Some(Str(s)) => Ok(Some(s))
    case Some(Int(n)) => if -INT64_MAX - 1 <= n <= INT64_MAX then Ok(Some(Decimal(n))) else Err(Storage)
    case Some(Bool(b)) => Ok(Some(if b then "1" else "0"))
    case Some(Float(repr)) => Ok(Some(repr))
    case _ => Err(Storage)
  }

  // The same for a NOT NULL column.
  function BindText(v: Value): Result<string, Code> {
    var s :- Bind(Some(v));
    if s.None? then Err(Storage) else Ok(s.value)
  }

  // d.get(k), where a JSON null is a missing value
  function Present(d: Value, k: string): Option<Value> {
    match Get(d, k)
    case Some(Null) => None
    case v => v
  }

  predicate Given(v: Option<Value>) {
    v.Some? && Truthy(v.value)
  }

  // ----- nodes and edges -----

  // INSERT OR IGNORE
  function AddNode(nodes: map<string, Node>, n: Node): map<string, Node> {
    if n.nodeId in nodes then nodes else nodes[n.nodeId := n]
  }

  function AddNodes(nodes: map<string, Node>, ns: seq<Node>): map<string, Node>
    decreases |ns|
  {
    if ns == [] then nodes else AddNodes(AddNode(nodes, ns[0]), ns[1..])
  }

  // _ensure_node_exists
  function EnsureNode(nodes: map<string, Node>, id: string, ev: StoredEvent): map<string, Node> {
    AddNode(nodes, RowFor(id, ev))
  }

  function AddEdge(tb: Tables, e: Edge, ev: StoredEvent): Tables {
    var nodes := EnsureNode(EnsureNode(tb.nodes, e.fromNodeId, ev), e.toNodeId, ev);
    tb.(nodes := nodes, edges := if e.edgeId in tb.edges then tb.edges else tb.edges[e.edgeId := e])
  }

  function AddEdges(tb: Tables, es: seq<Edge>, ev: StoredEvent): Tables
    decreases |es|
  {
    if es == [] then tb else AddEdges(AddEdge(tb, es[0], ev), es[1..], ev)
  }

  function AddEmission(tb: Tables, ev: StoredEvent): Tables {
    AddEdges(tb.(nodes := AddNodes(tb.nodes, Emit(ev).nodes)), Emit(ev).edges, ev)
  }

  // ----- trace summary and policy index -----

  function TextOr(d: Value, k: string, default: string): Value {
    match Get(d, k)
    case None => Str(default)
    case Some(v) => v
  }

  // The summary TraceStarted inserts.
  function NewSummary(ev: StoredEvent): Result<Summary, Code> {
    var p := ev.payload;
    var entity := Sub(p, "primary_entity");
    var workflow :- BindText(TextOr(p, "workflow", ""));
    var title :- BindText(TextOr(p, "title", ""));
    var kind :- Bind(if Truthy(entity) then Get(entity, "entity_type") else None);
    var id :- Bind(if Truthy(entity) then Get(entity, "entity_id") else None);
    Ok(Summary(workflow, title, kind, id, None, ev.meta.occurredAt, None, 1, ev.logSeq))
  }

  function OnTraceStarted(tb: Tables, ev: StoredEvent): Result<Tables, Code> {
    var t := ev.meta.traceId;
    var created :- NewSummary(ev);
    var row := if t in tb.summaries
      then tb.summaries[t].(eventCount := tb.summaries[t].eventCount + 1, lastLogSeq := ev.logSeq)
      else created;
    Ok(tb.(summaries := tb.summaries[t := row]))
  }

  // The foreign key on trace_id is checked only for a row that goes in.
  function OnPolicyEvaluated(tb: Tables, ev: StoredEvent): Result<Tables, Code> {
    var t := ev.meta.traceId;
    var policy := Sub(ev.payload, "policy");
    var id, version := Present(policy, "policy_id"), Present(policy, "policy_version");
    if !Given(id) || !Given(version) then Err(SchemaViolation) else
      var idText :- BindText(id.value);
      var versionText :- BindText(version.value);
      var index := t + ":" + Shown(id.value) + ":" + Shown(version.value) + ":" + ev.meta.eventId;
      if index in tb.policyEvals then Ok(tb)
      else if t !in tb.summaries then Err(Storage)
      else
        var row := PolicyEval(t, idText, versionText, ev.logSeq, ev.meta.occurredAt);
        Ok(tb.(policyEvals := tb.policyEvals[index := row]))
  }

  // ----- precedent index -----

  datatype Entity = Entity(kind: Option<Value>, system: Option<Value>, id: Option<Value>)

  const NO_ENTITY := Entity(None, None, None)

  // A row before its values are bound.
  datatype Entry = Entry(sourceEventId: string, logSeq: int, policyId: Value, policyVersion: Value,
                         exceptionId: Option<Value>, entity: Entity)

  function EntityOf(p: Value): Entity {
    var e := Sub(p, "primary_entity");
    Entity(Present(e, "entity_type"), Present(e, "system"), Present(e, "entity_id"))
  }

  predicate IndexesEntity(kind: EventType, entity: Entity) {
    kind.TraceStarted? && entity.kind.None?
  }

  predicate Indexed(kind: EventType) {
    kind.PolicyEvaluated? || kind.ExceptionRequested?
  }

  // The entry of a policy or exception event.
  function EntryOf(row: Row, p: Value, entity: Entity): Result<Entry, Code> {
    var policy := Sub(p, "policy");
    var id, version := Present(policy, "policy_id"), Present(policy, "policy_version");
    var exceptionId := if row.meta.eventType.ExceptionRequested? then Present(p, "exception_id") else None;
    if !Given(id) || !Given(version) || (row.meta.eventType.ExceptionRequested? && !Given(exceptionId))
    then Err(SchemaViolation)
    else Ok(Entry(row.meta.eventId, row.logSeq, id.value, version.value, exceptionId, entity))
  }

  // The loop over the trace's rows.
  function Entries(rows: seq<Row>, entity: Entity): Result<seq<Entry>, Code> {
    if rows == [] then Ok([]) else
      var row := rows[0];
      match Loads(row.payload)
      case None => Err(Storage)
      case Some(p) =>
        if IndexesEntity(row.meta.eventType, entity) then Entries(rows[1..], EntityOf(p))
        else if Indexed(row.meta.eventType) then
          var entry :- EntryOf(row, p, entity);
          var rest :- Entries(rows[1..], entity);
          Ok([entry] + rest)
        else Entries(rows[1..], entity)
  }

  function BindEntry(e: Entry, t: string): Result<Precedent, Code> {
    var policyId :- BindText(e.policyId);
    var policyVersion :- BindText(e.policyVersion);
    var exceptionId :- Bind(e.exceptionId);
    var kind :- Bind(e.entity.kind);
    var system :- Bind(e.entity.system);
    var id :- Bind(e.entity.id);
    Ok(Precedent(e.logSeq, t, policyId, policyVersion, exceptionId, kind, system, id))
  }

  // executemany INSERT: a taken primary key or a missing trace summary is refused.
  function InsertEntries(tb: Tables, es: seq<Entry>, t: string): Result<Tables, Code>
    decreases |es|
  {
    if es == [] then Ok(tb) else
      var row :- BindEntry(es[0], t);
      if es[0].sourceEventId in tb.precedents || t !in tb.summaries then Err(Storage)
      else InsertEntries(tb.(precedents := tb.precedents[es[0].sourceEventId := row]), es[1..], t)
  }

  function DeletePrecedents(tb: Tables, t: string): Tables {
    tb.(precedents := map k | k in tb.precedents && tb.precedents[k].traceId != t :: tb.precedents[k])
  }

  // SELECT ... WHERE trace_id = ? ORDER BY trace_seq, over the whole event log as it stands
  function BuildPrecedents(tb: Tables, log: seq<Row>, t: string): Result<Tables, Code> {
    var es :- Entries(TraceEvents(log, t), NO_ENTITY);
    InsertEntries(DeletePrecedents(tb, t), es, t)
  }

  function OnTraceFinished(tb: Tables, log: seq<Row>, ev: StoredEvent): Result<Tables, Code> {
    var t := ev.meta.traceId;
    var outcome :- Bind(Some(TextOr(ev.payload, "outcome", "success")));
    var tb' := if t in tb.summaries then
        var s := tb.summaries[t];
        tb.(summaries := tb.summaries[t := s.(outcome := outcome, finishedAt := Some(ev.meta.occurredAt),
                                              eventCount := s.eventCount + 1, lastLogSeq := ev.logSeq)])
      else tb;
    BuildPrecedents(tb', log, t)
  }

  // ----- one event -----

  // What an event does besides its emission.
  function Handle(tb: Tables, log: seq<Row>, ev: StoredEvent): Result<Tables, Code> {
    match ev.meta.eventType
    case TraceStarted => OnTraceStarted(tb, ev)
    case TraceFinished => OnTraceFinished(tb, log, ev)
    case PolicyEvaluated => OnPolicyEvaluated(tb, ev)
    case _ => Ok(tb)
  }

  // The table changes of one event.
  function Apply(tb: Tables, log: seq<Row>, ev: StoredEvent): Result<Tables, Code> {
    Handle(AddEmission(tb, ev), log, ev)
  }

  function Expected(tracker: map<string, int>, t: string): int {
    if t in tracker then tracker[t] else 0
  }

  // _project_event_in_tx. faults holds the log_seqs at whose projection the database itself gives up.
  function ProjectInTx(sha: string -> string, p: Proj, log: seq<Row>, ev: StoredEvent, faults: set<int>)
    : Result<Proj, Code>
  {
    var t := ev.meta.traceId;
    var hash :- PayloadHash(sha, ev.payload);
    if ev.payloadHash != hash then Err(Conflict)
    else if ev.meta.traceSeq != Expected(p.tracker, t) then Err(EventSequenceInvalid)
    else
      var tb :- Apply(p.tables, log, ev);
      if ev.logSeq in faults then Err(Storage)
      else Ok(Proj(tb.(cursor := Some(ev.logSeq)), ev.logSeq, p.tracker[t := Expected(p.tracker, t) + 1]))
  }

  // The step of project_events on the log as it stands.
  function Stepper(sha: string -> string, log: seq<Row>, faults: set<int>): (Proj, StoredEvent) -> Result<Proj, Code> {
    (p, ev) => ProjectInTx(sha, p, log, ev, faults)
  }

  // _project_events_in_tx, seen from outside: all of the events or an error.
  function ProjectAll(sha: string -> string, p: Proj, log: seq<Row>, evs: seq<StoredEvent>, faults: set<int>)
    : Result<Proj, Code>
  {
    Fold(Stepper(sha, log, faults), p, evs)
  }

  // project_events with a batch size: batches are committed one by one until one fails.
  function Batches(sha: string -> string, p: Proj, log: seq<Row>, evs: seq<StoredEvent>, b: nat, faults: set<int>)
    : (Proj, Option<Code>)
    requires b > 0
  {
    Batched(Stepper(sha, log, faults), p, evs, b)
  }

  lemma StepsAppend(sha: string -> string, p: Proj, log: seq<Row>, a: seq<StoredEvent>, b: seq<StoredEvent>,
                    faults: set<int>)
    ensures var r := ProjectAll(sha, p, log, a, faults);
      ProjectAll(sha, p, log, a + b, faults) ==
        if r.Err? then Err(r.error) else ProjectAll(sha, r.value, log, b, faults)
  {
    FoldAppend(Stepper(sha, log, faults), p, a, b);
  }

  lemma StepsSnoc(sha: string -> string, p: Proj, log: seq<Row>, evs: seq<StoredEvent>, ev: StoredEvent,
                  faults: set<int>)
    ensures var r := ProjectAll(sha, p, log, evs, faults);
      ProjectAll(sha, p, log, evs + [ev], faults) == if r.Err? then r else ProjectInTx(sha, r.value, log, ev, faults)
  {
    FoldSnoc(Stepper(sha, log, faults), p, evs, ev);
  }

  lemma StepsFailPrefix(sha: string -> string, p: Proj, log: seq<Row>, evs: seq<StoredEvent>, n: nat, k: nat,
                        faults: set<int>)
    requires n <= k <= |evs|
    ensures var r := ProjectAll(sha, p, log, evs[..n], faults);
      r.Err? ==> ProjectAll(sha, p, log, evs[..k], faults) == r
  {
    FoldSplit(Stepper(sha, log, faults), p, evs, n, k);
  }

  lemma BatchesUnfold(sha: string -> string, p: Proj, log: seq<Row>, evs: seq<StoredEvent>, size: nat, n: nat,
                      faults: set<int>)
    requires size > 0 && evs != [] && n == if size < |evs| then size else |evs|
    ensures var r := ProjectAll(sha, p, log, evs[..n], faults);
      Batches(sha, p, log, evs, size, faults) ==
        if r.Err? then (p, Some(r.error)) else Batches(sha, r.value, log, evs[n..], size, faults)
  {
    BatchedCons(Stepper(sha, log, faults), p, evs, size, n);
  }

  // Batches come to one transaction over a prefix of the events: all of them unless an error stops them.
  lemma BatchesKeepPrefix(sha: string -> string, p: Proj, log: seq<Row>, evs: seq<StoredEvent>, size: nat,
                          faults: set<int>) returns (r: (Proj, Option<Code>), some: seq<StoredEvent>)
    requires size > 0
    ensures r == Batches(sha, p, log, evs, size, faults)
    ensures some <= evs && ProjectAll(sha, p, log, some, faults) == Ok(r.0) && (r.1.None? ==> some == evs)
  {
    r := Batches(sha, p, log, evs, size, faults);
    var k := BatchedKeepsPrefix(Stepper(sha, log, faults), p, evs, size);
    some := evs[..k];
  }

  // If the event at index i is the first to fail, everything before its batch is kept and nothing of its
  // batch is: the state is that after the first (i / b) * b events.
  lemma FirstFailure(sha: string -> string, p: Proj, log: seq<Row>, evs: seq<StoredEvent>, b: nat,
                     faults: set<int>, i: nat, code: Code) returns (kept: Proj)
    requires b > 0 && i < |evs|
    requires ProjectAll(sha, p, log, evs[..i], faults).Ok? && ProjectAll(sha, p, log, evs[..i + 1], faults) == Err(code)
    ensures 0 <= (i / b) * b <= i
    ensures ProjectAll(sha, p, log, evs[..(i / b) * b], faults) == Ok(kept)
    ensures Batches(sha, p, log, evs, b, faults) == (kept, Some(code))
  {
    kept := FirstFailureKeeps(Stepper(sha, log, faults), p, evs, b, i, code);
  }
}
