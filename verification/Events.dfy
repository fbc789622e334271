// Envelopes, stored events and database rows; what is checked and computed before an event is stored.
module Events {
  import opened Json
  import opened JsonParse
  import opened Wrappers

  datatype EventType =
    | TraceStarted
    | InputObserved
    | EntityObserved
    | PolicyEvaluated
    | ExceptionRequested
    | ApprovalRecorded
    | PrecedentCited
    | ActionProposed
    | ActionCommitted
    | TraceFinished
    | Unknown(name: string)

  datatype SourceRef = SourceRef(producerId: string, system: string, subsystem: Option<string>)

  datatype ActorRef = ActorRef(actorType: string, actorId: string)

  // What an envelope and a stored event share.
  datatype Meta = Meta(
    eventId: string,
    traceId: string,
    traceSeq: int,
    eventType: EventType,
    occurredAt: string,
    source: SourceRef,
    actor: ActorRef,
    idempotencyKey: string,
    correlationId: Option<string>,
    causationEventId: Option<string>,
    schemaVersion: int)

  datatype Envelope = Envelope(meta: Meta, payload: Value, tags: seq<string>)

  // An event with what the store adds. A database row holds payload and tags as JSON text.
  datatype Stored<+P, +T> = Stored(
    logSeq: int,
    recordedAt: string,
    meta: Meta,
    payload: P,
    payloadHash: string,
    tags: T)

  type StoredEvent = Stored<Value, seq<string>>

  type Row = Stored<string, string>

  // PreparedEvent
  datatype Prepared = Prepared(payloadHash: string, payloadJson: string, tagsJson: string, recordedAt: string)

  // ----- validation -----

  const MAX_IDEMPOTENCY_KEY_BYTES := 200

  function Utf8Length(s: string): nat {
    if s == [] then 0 else
      var c := s[0] as int;
      (if c < 0x80 then 1 else if c < 0x800 then 2 else if c < 0x1_0000 then 3 else 4) + Utf8Length(s[1..])
  }

  predicate KeyOk(key: string) {
    key != "" && (0 as char) !in key && Utf8Length(key) <= MAX_IDEMPOTENCY_KEY_BYTES
  }

  // _require_str, _require_dict and _require_list
  predicate HasText(v: Value, k: string) {
    Get(v, k).Some? && Get(v, k).value.Str? && Get(v, k).value.text != ""
  }

  predicate HasDict(v: Value, k: string) {
    Get(v, k).Some? && Get(v, k).value.Dict?
  }

  predicate HasList(v: Value, k: string) {
    Get(v, k).Some? && Get(v, k).value.List?
  }

  // A required dict with required texts.
  predicate HasRecord(v: Value, k: string, texts: seq<string>) {
    HasDict(v, k) && forall i :: 0 <= i < |texts| ==> HasText(Get(v, k).value, texts[i])
  }

  // validate_payload_schema
  predicate SchemaOk(t: EventType, p: Value) {
    p.Dict? &&
    match t
    case TraceStarted =>
      HasText(p, "workflow") && HasText(p, "title") && HasRecord(p, "primary_entity", ["entity_type", "entity_id"])
    case InputObserved =>
      HasText(p, "input_id") && HasRecord(p, "source", ["system", "object_type", "object_id"]) && HasList(p, "facts")
    case EntityObserved =>
      HasRecord(p, "entity", ["entity_type", "entity_id"]) && HasText(p, "role") && HasList(p, "facts")
    case PolicyEvaluated =>
      HasRecord(p, "policy", ["policy_id", "policy_version"]) && HasList(p, "inputs") && HasText(p, "decision")
    case ExceptionRequested =>
      HasText(p, "exception_id") && HasRecord(p, "policy", ["policy_id", "policy_version"]) && HasText(p, "reason")
    case ApprovalRecorded =>
      HasText(p, "approval_id") && HasRecord(p, "subject", ["subject_type", "subject_id"]) &&
      HasRecord(p, "approver", ["actor_type", "actor_id"]) && HasText(p, "decision")
    case PrecedentCited =>
      HasText(p, "cited_trace_id") && HasText(p, "reason")
    case ActionProposed =>
      HasText(p, "action_id") && HasText(p, "action_type") &&
      HasRecord(p, "target_entity", ["entity_type", "entity_id"]) &&
      HasText(p, "target_system") && HasList(p, "changes")
    case ActionCommitted =>
      HasText(p, "action_id") && HasText(p, "status")
    case TraceFinished =>
      HasText(p, "outcome")
    case Unknown(_) => false
  }

  // compute_payload_hash; sha stands for sha256_prefixed over the UTF-8 bytes of a text.
  function PayloadHash(sha: string -> string, p: Value): Result<string, Code> {
    match Canonicalize(p)
    case Ok(text) => Ok(sha(text))
    case Err(_) => Err(SchemaViolation)
  }

  function TagsValue(tags: seq<string>): Value {
    List(seq(|tags|, i requires 0 <= i < |tags| => Str(tags[i])))
  }

  // prepare_event_for_insert
  function Prepare(sha: string -> string, env: Envelope, now: string): Result<Prepared, Code> {
    if !KeyOk(env.meta.idempotencyKey) then Err(InvalidArgument)
    else if !SchemaOk(env.meta.eventType, env.payload) then Err(SchemaViolation)
    else
      match PayloadHash(sha, env.payload)
      case Err(code) => Err(code)
      case Ok(hash) => Ok(Prepared(hash, Dumps(env.payload, SPACED), Dumps(TagsValue(env.tags), SPACED), now))
  }

  // ----- rows -----

  function ToRow(env: Envelope, prepared: Prepared, logSeq: int): Row {
    Stored(logSeq, prepared.recordedAt, env.meta, prepared.payloadJson, prepared.payloadHash, prepared.tagsJson)
  }

  function ToEvent(env: Envelope, prepared: Prepared, logSeq: int): StoredEvent {
    Stored(logSeq, prepared.recordedAt, env.meta, env.payload, prepared.payloadHash, env.tags)
  }

  predicate AllTexts(v: Value) {
    v.List? && forall i :: 0 <= i < |v.items| ==> v.items[i].Str?
  }

  // row_to_stored_event
  function FromRow(row: Row): Result<StoredEvent, Code> {
    match (Loads(row.payload), Loads(row.tags))
    case (Some(p), Some(t)) =>
      if AllTexts(t) then
        var tags := seq(|t.items|, i requires 0 <= i < |t.items| => t.items[i].text);
        Ok(Stored(row.logSeq, row.recordedAt, row.meta, p, row.payloadHash, tags))
      else Err(Storage)
    case _ => Err(Storage)
  }

  // What every reader of a row relies on: it reads back, to a payload with the recorded hash and schema.
  ghost predicate RowOk(sha: string -> string, row: Row) {
    && FromRow(row).Ok?
    && var p := FromRow(row).value.payload;
       && PayloadHash(sha, p) == Ok(row.payloadHash)
       && SchemaOk(row.meta.eventType, p)
       && Plain(p)
  }

  lemma NormGet(v: Value, k: string)
    ensures Get(Norm(v), k) == (if Get(v, k).Some? then Some(Norm(Get(v, k).value)) else None)
  {
    if v.Dict? { NormKeys(v.fields); }
  }

  lemma NormText(p: Value, k: string)
    ensures HasText(p, k) ==> HasText(Norm(p), k)
    ensures HasList(p, k) ==> HasList(Norm(p), k)
  {
    NormGet(p, k);
  }

  lemma NormRecord(p: Value, k: string, texts: seq<string>)
    ensures HasRecord(p, k, texts) ==> HasRecord(Norm(p), k, texts)
  {
    NormGet(p, k);
    if HasRecord(p, k, texts) {
      forall i | 0 <= i < |texts| ensures HasText(Norm(Get(p, k).value), texts[i]) {
        NormText(Get(p, k).value, texts[i]);
      }
    }
  }

  // Sorting keys and turning tuples into lists does not disturb what the schema asks for.
  lemma NormSchema(t: EventType, p: Value)
    requires SchemaOk(t, p)
    ensures SchemaOk(t, Norm(p))
  {
    match t
    case TraceStarted =>
      NormText(p, "workflow"); NormText(p, "title"); NormRecord(p, "primary_entity", ["entity_type", "entity_id"]);
    case InputObserved =>
      NormText(p, "input_id"); NormRecord(p, "source", ["system", "object_type", "object_id"]); NormText(p, "facts");
    case EntityObserved =>
      NormRecord(p, "entity", ["entity_type", "entity_id"]); NormText(p, "role"); NormText(p, "facts");
    case PolicyEvaluated =>
      NormRecord(p, "policy", ["policy_id", "policy_version"]); NormText(p, "inputs"); NormText(p, "decision");
    case ExceptionRequested =>
      NormText(p, "exception_id"); NormRecord(p, "policy", ["policy_id", "policy_version"]); NormText(p, "reason");
    case ApprovalRecorded =>
      NormText(p, "approval_id"); NormRecord(p, "subject", ["subject_type", "subject_id"]);
      NormRecord(p, "approver", ["actor_type", "actor_id"]); NormText(p, "decision");
    case PrecedentCited =>
      NormText(p, "cited_trace_id"); NormText(p, "reason");
    case ActionProposed =>
      NormText(p, "action_id"); NormText(p, "action_type");
      NormRecord(p, "target_entity", ["entity_type", "entity_id"]);
      NormText(p, "target_system"); NormText(p, "changes");
    case ActionCommitted =>
      NormText(p, "action_id"); NormText(p, "status");
    case TraceFinished =>
      NormText(p, "outcome");
  }

  lemma TagsReadBack(tags: seq<string>)
    ensures Loads(Dumps(TagsValue(tags), SPACED)) == Some(TagsValue(tags))
  {
    var v := TagsValue(tags);
    assert Norm(v).items == v.items;
    LoadsDumps(v, SPACED);
  }

  lemma RowFromTexts(row: Row, p: Value, tags: seq<string>)
    requires Loads(row.payload) == Some(p) && Loads(row.tags) == Some(TagsValue(tags))
    ensures FromRow(row) == Ok(Stored(row.logSeq, row.recordedAt, row.meta, p, row.payloadHash, tags))
  {
    var t := TagsValue(tags);
    assert seq(|t.items|, i requires 0 <= i < |t.items| => t.items[i].text) == tags;
  }

  // A stored row reads back as the envelope that was stored, in canonical form, with the same hash.
  lemma RowReadsBack(sha: string -> string, env: Envelope, now: string, logSeq: int)
    requires Prepare(sha, env, now).Ok?
    ensures var row := ToRow(env, Prepare(sha, env, now).value, logSeq);
      && RowOk(sha, row)
      && FromRow(row) == Ok(Stored(logSeq, now, env.meta, Norm(env.payload), row.payloadHash, env.tags))
  {
    var row := ToRow(env, Prepare(sha, env, now).value, logSeq);
    CanonicalizeAccepts(env.payload);
    LoadsDumps(env.payload, SPACED);
    CanonicalSurvivesStorage(env.payload);
    TagsReadBack(env.tags);
    RowFromTexts(row, Norm(env.payload), env.tags);
    NormSchema(env.meta.eventType, env.payload);
    NormPlain(env.payload);
  }

  // ----- idempotent reuse and sequence rules -----

  // What must agree for a repeated key to be a retry; the trace_seq, event id and times may differ.
  predicate SameSubmission(stored: StoredEvent, env: Envelope, hash: string) {
    && stored.payloadHash == hash
    && stored.meta.traceId == env.meta.traceId
    && stored.meta.eventType == env.meta.eventType
    && stored.meta.source == env.meta.source
    && stored.meta.actor == env.meta.actor
    && stored.meta.correlationId == env.meta.correlationId
    && stored.meta.causationEventId == env.meta.causationEventId
    && stored.meta.schemaVersion == env.meta.schemaVersion
    && stored.tags == env.tags
  }

  function Reuse(stored: StoredEvent, env: Envelope, hash: string): Result<StoredEvent, Code> {
    if SameSubmission(stored, env, hash) then Ok(stored) else Err(IdempotencyConflict)
  }

  // validate_idempotent_reuse, which collects the names of all fields that disagree
  method ValidateIdempotentReuse(env: Envelope, stored: StoredEvent, hash: string)
    returns (r: Result<StoredEvent, Code>, mismatches: seq<string>)
    ensures r == Reuse(stored, env, hash)
    ensures
      var same :=
        && stored.payloadHash == hash && stored.meta.traceId == env.meta.traceId
        && stored.meta.eventType == env.meta.eventType && stored.meta.source == env.meta.source
        && stored.meta.actor == env.meta.actor && stored.meta.correlationId == env.meta.correlationId
        && stored.meta.causationEventId == env.meta.causationEventId
        && stored.meta.schemaVersion == env.meta.schemaVersion && stored.tags == env.tags;
      r == if same then Ok(stored) else Err(IdempotencyConflict)
    ensures r.Ok? <==> stored.payloadHash == hash && mismatches == []
  {
    mismatches := [];
    if stored.payloadHash != hash {
      return Err(IdempotencyConflict), mismatches;
    }
    if stored.meta.traceId != env.meta.traceId { mismatches := mismatches + ["trace_id"]; }
    if stored.meta.eventType != env.meta.eventType { mismatches := mismatches + ["event_type"]; }
    if stored.meta.source != env.meta.source { mismatches := mismatches + ["source"]; }
    if stored.meta.actor != env.meta.actor { mismatches := mismatches + ["actor"]; }
    if stored.meta.correlationId != env.meta.correlationId { mismatches := mismatches + ["correlation_id"]; }
    if stored.meta.causationEventId != env.meta.causationEventId {
      mismatches := mismatches + ["causation_event_id"];
    }
    if stored.meta.schemaVersion != env.meta.schemaVersion { mismatches := mismatches + ["schema_version"]; }
    if stored.tags != env.tags { mismatches := mismatches + ["tags"]; }
    if mismatches != [] {
      return Err(IdempotencyConflict), mismatches;
    }
    return Ok(stored), mismatches;
  }

  // validate_trace_seq
  predicate SequenceOk(m: Meta, expected: int) {
    m.traceSeq == expected && (m.eventType.TraceStarted? <==> m.traceSeq == 0)
  }
}
