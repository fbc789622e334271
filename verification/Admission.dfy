// Which envelopes are admitted at all, what a retry must agree in, and how many events a trace has: the terms in
// which the answers of both stores are stated.
module Admission {
  import opened Events
  import opened Json
  import opened Log
  import opened Wrappers

  // ----- the idempotency key -----

  // The bytes of a character in UTF-8 (RFC 3629, section 3).
  function Utf8Char(c: char): seq<int> {
    var n := c as int;
    if n < 0x80 then [n]
    else if n < 0x800 then [0xC0 + n / 64, 0x80 + n % 64]
    else if n < 0x1_0000 then [0xE0 + n / 4096, 0x80 + n / 64 % 64, 0x80 + n % 64]
    else [0xF0 + n / 262144, 0x80 + n / 4096 % 64, 0x80 + n / 64 % 64, 0x80 + n % 64]
  }

  function Utf8(s: string): seq<int> {
    if s == [] then [] else Utf8Char(s[0]) + Utf8(s[1..])
  }

  lemma {:induction false} Utf8LengthCounts(s: string)
    ensures Utf8Length(s) == |Utf8(s)|
  {
    if s != [] { Utf8LengthCounts(s[1..]); }
  }

  // Not empty, without NUL, and at most 200 bytes long.
  ghost predicate KeyFits(key: string) {
    key != "" && (forall i :: 0 <= i < |key| ==> key[i] as int != 0) && |Utf8(key)| <= 200
  }

  lemma KeyOkFits(key: string)
    ensures KeyOk(key) <==> KeyFits(key)
  {
    Utf8LengthCounts(key);
    if (0 as char) in key { assert exists i :: 0 <= i < |key| && key[i] as int == 0; }
  }

  // ----- the payload's schema -----

  // A text that is not empty, or a list, at the end of a path of keys.
  datatype Need = NeedText(path: seq<string>) | NeedList(path: seq<string>)

  function Follow(v: Value, path: seq<string>): Option<Value> {
    if path == [] then Some(v)
    else
      match Get(v, path[0])
      case None => None
      case Some(w) => Follow(w, path[1..])
  }

  predicate Met(p: Value, need: Need) {
    match Follow(p, need.path)
    case None => false
    case Some(v) => if need.NeedText? then v.Str? && v.text != "" else v.List?
  }

  // What each event type requires of its payload.
  function Needs(t: EventType): seq<Need> {
    match t
    case TraceStarted =>
      [NeedText(["workflow"]), NeedText(["title"]),
       NeedText(["primary_entity", "entity_type"]), NeedText(["primary_entity", "entity_id"])]
    case InputObserved =>
      [NeedText(["input_id"]), NeedText(["source", "system"]), NeedText(["source", "object_type"]),
       NeedText(["source", "object_id"]), NeedList(["facts"])]
    case EntityObserved =>
      [NeedText(["entity", "entity_type"]), NeedText(["entity", "entity_id"]), NeedText(["role"]), NeedList(["facts"])]
    case PolicyEvaluated =>
      [NeedText(["policy", "policy_id"]), NeedText(["policy", "policy_version"]), NeedList(["inputs"]),
       NeedText(["decision"])]
    case ExceptionRequested =>
      [NeedText(["exception_id"]), NeedText(["policy", "policy_id"]), NeedText(["policy", "policy_version"]),
       NeedText(["reason"])]
    case ApprovalRecorded =>
      [NeedText(["approval_id"]), NeedText(["subject", "subject_type"]), NeedText(["subject", "subject_id"]),
       NeedText(["approver", "actor_type"]), NeedText(["approver", "actor_id"]), NeedText(["decision"])]
    case PrecedentCited => [NeedText(["cited_trace_id"]), NeedText(["reason"])]
    case ActionProposed =>
      [NeedText(["action_id"]), NeedText(["action_type"]), NeedText(["target_entity", "entity_type"]),
       NeedText(["target_entity", "entity_id"]), NeedText(["target_system"]), NeedList(["changes"])]
    case ActionCommitted => [NeedText(["action_id"]), NeedText(["status"])]
    case TraceFinished => [NeedText(["outcome"])]
    case Unknown(_) => []
  }

  ghost predicate AllMet(p: Value, needs: seq<Need>) {
    forall i :: 0 <= i < |needs| ==> Met(p, needs[i])
  }

  ghost predicate PayloadFits(t: EventType, p: Value) {
    p.Dict? && !t.Unknown? && AllMet(p, Needs(t)) && FloatFree(p)
  }

  lemma FieldMet(p: Value, k: string)
    ensures Met(p, NeedText([k])) <==> HasText(p, k)
    ensures Met(p, NeedList([k])) <==> HasList(p, k)
  {
    assert [k][1..] == [] && Follow(p, [k]) == Get(p, k);
  }

  lemma PartMet(p: Value, k: string, a: string)
    ensures Met(p, NeedText([k, a])) <==> Get(p, k).Some? && HasText(Get(p, k).value, a)
  {
    assert [k, a][1..] == [a] && [a][1..] == [];
    assert Get(p, k).Some? ==> Follow(Get(p, k).value, [a]) == Get(Get(p, k).value, a);
  }

  lemma PairMet(p: Value, k: string, a: string, b: string)
    ensures HasRecord(p, k, [a, b]) <==> Met(p, NeedText([k, a])) && Met(p, NeedText([k, b]))
  {
    PartMet(p, k, a);
    PartMet(p, k, b);
    assert [a, b][0] == a && [a, b][1] == b;
  }

  lemma TripleMet(p: Value, k: string, a: string, b: string, c: string)
    ensures HasRecord(p, k, [a, b, c]) <==>
      Met(p, NeedText([k, a])) && Met(p, NeedText([k, b])) && Met(p, NeedText([k, c]))
  {
    PartMet(p, k, a);
    PartMet(p, k, b);
    PartMet(p, k, c);
    assert [a, b, c][0] == a && [a, b, c][1] == b && [a, b, c][2] == c;
  }

  lemma Each(p: Value, n: seq<Need>)
    ensures |n| == 1 ==> (AllMet(p, n) <==> Met(p, n[0]))
    ensures |n| == 2 ==> (AllMet(p, n) <==> Met(p, n[0]) && Met(p, n[1]))
    ensures |n| == 4 ==> (AllMet(p, n) <==> Met(p, n[0]) && Met(p, n[1]) && Met(p, n[2]) && Met(p, n[3]))
    ensures |n| == 5 ==>
      (AllMet(p, n) <==> Met(p, n[0]) && Met(p, n[1]) && Met(p, n[2]) && Met(p, n[3]) && Met(p, n[4]))
    ensures |n| == 6 ==>
      (AllMet(p, n) <==>
        Met(p, n[0]) && Met(p, n[1]) && Met(p, n[2]) && Met(p, n[3]) && Met(p, n[4]) && Met(p, n[5]))
  {
  }

  lemma ObservedNeeds(t: EventType, p: Value)
    requires t.TraceStarted? || t.InputObserved? || t.EntityObserved? || t.PolicyEvaluated?
    ensures SchemaOk(t, p) <==> p.Dict? && AllMet(p, Needs(t))
  {
    Each(p, Needs(t));
    match t
    case TraceStarted =>
      FieldMet(p, "workflow"); FieldMet(p, "title"); PairMet(p, "primary_entity", "entity_type", "entity_id");
    case InputObserved =>
      FieldMet(p, "input_id"); TripleMet(p, "source", "system", "object_type", "object_id"); FieldMet(p, "facts");
    case EntityObserved =>
      PairMet(p, "entity", "entity_type", "entity_id"); FieldMet(p, "role"); FieldMet(p, "facts");
    case PolicyEvaluated =>
      PairMet(p, "policy", "policy_id", "policy_version"); FieldMet(p, "inputs"); FieldMet(p, "decision");
  }

  lemma DecidedNeeds(t: EventType, p: Value)
    requires t.ExceptionRequested? || t.ApprovalRecorded? || t.ActionProposed?
    ensures SchemaOk(t, p) <==> p.Dict? && AllMet(p, Needs(t))
  {
    Each(p, Needs(t));
    match t
    case ExceptionRequested =>
      FieldMet(p, "exception_id"); PairMet(p, "policy", "policy_id", "policy_version"); FieldMet(p, "reason");
    case ApprovalRecorded =>
      FieldMet(p, "approval_id"); PairMet(p, "subject", "subject_type", "subject_id");
      PairMet(p, "approver", "actor_type", "actor_id"); FieldMet(p, "decision");
    case ActionProposed =>
      FieldMet(p, "action_id"); FieldMet(p, "action_type");
      PairMet(p, "target_entity", "entity_type", "entity_id");
      FieldMet(p, "target_system"); FieldMet(p, "changes");
  }

  // The schema check asks for exactly these.
  lemma SchemaIsNeeds(t: EventType, p: Value)
    ensures SchemaOk(t, p) <==> p.Dict? && !t.Unknown? && AllMet(p, Needs(t))
  {
    match t
    case TraceStarted => ObservedNeeds(t, p);
    case InputObserved => ObservedNeeds(t, p);
    case EntityObserved => ObservedNeeds(t, p);
    case PolicyEvaluated => ObservedNeeds(t, p);
    case ExceptionRequested => DecidedNeeds(t, p);
    case ApprovalRecorded => DecidedNeeds(t, p);
    case ActionProposed => DecidedNeeds(t, p);
    case PrecedentCited => Each(p, Needs(t)); FieldMet(p, "cited_trace_id"); FieldMet(p, "reason");
    case ActionCommitted => Each(p, Needs(t)); FieldMet(p, "action_id"); FieldMet(p, "status");
    case TraceFinished => Each(p, Needs(t)); FieldMet(p, "outcome");
    case Unknown(_) =>
  }

  // prepare_event_for_insert: what it admits, and what it raises otherwise.
  lemma PrepareDecides(sha: string -> string, e: Envelope, now: string)
    ensures Prepare(sha, e, now).Ok? <==> KeyFits(e.meta.idempotencyKey) && PayloadFits(e.meta.eventType, e.payload)
    ensures !KeyFits(e.meta.idempotencyKey) ==> Prepare(sha, e, now) == Err(InvalidArgument)
    ensures KeyFits(e.meta.idempotencyKey) && !PayloadFits(e.meta.eventType, e.payload) ==>
      Prepare(sha, e, now) == Err(SchemaViolation)
    ensures Prepare(sha, e, now).Ok? ==> PayloadHash(sha, e.payload) == Ok(Prepare(sha, e, now).value.payloadHash)
  {
    KeyOkFits(e.meta.idempotencyKey);
    SchemaIsNeeds(e.meta.eventType, e.payload);
    CanonicalizeAccepts(e.payload);
  }

  // ----- retries -----

  // The event holds the envelope's key.
  ghost predicate Holds(m: Meta, e: Envelope) {
    m.source.producerId == e.meta.source.producerId && m.idempotencyKey == e.meta.idempotencyKey
  }

  // The fields a retry may not change.
  ghost predicate SameFields(m: Meta, tags: seq<string>, e: Envelope) {
    && m.traceId == e.meta.traceId && m.eventType == e.meta.eventType
    && m.source == e.meta.source && m.actor == e.meta.actor
    && m.correlationId == e.meta.correlationId && m.causationEventId == e.meta.causationEventId
    && m.schemaVersion == e.meta.schemaVersion && tags == e.tags
  }

  // What the holder of a key answers to an envelope with the same key.
  ghost predicate HolderAnswers(stored: StoredEvent, e: Envelope, hash: string, r: Result<StoredEvent, Code>) {
    r == if stored.payloadHash == hash && SameFields(stored.meta, stored.tags, e) then Ok(stored)
      else Err(IdempotencyConflict)
  }

  lemma ReuseAnswers(stored: StoredEvent, e: Envelope, hash: string)
    ensures HolderAnswers(stored, e, hash, Reuse(stored, e, hash))
  {
  }

  lemma HolderFound<P, T>(log: seq<Stored<P, T>>, e: Envelope, i: nat)
    requires DistinctKeys(log) && i < |log| && Holds(log[i].meta, e)
    ensures FindKey(log, e.meta) == Some(i)
  {
    FindKeyUnique(log, e.meta, i);
  }

  ghost predicate NoHolder<P, T>(log: seq<Stored<P, T>>, e: Envelope) {
    forall i :: 0 <= i < |log| ==> !Holds(log[i].meta, e)
  }

  lemma NoneFound<P, T>(log: seq<Stored<P, T>>, e: Envelope)
    ensures NoHolder(log, e) <==> FindKey(log, e.meta).None?
  {
    if FindKey(log, e.meta).Some? { assert Holds(log[FindKey(log, e.meta).value].meta, e); }
  }

  // ----- finished traces and the next number -----

  ghost predicate Closed<P, T>(log: seq<Stored<P, T>>, t: string) {
    exists i :: 0 <= i < |log| && log[i].meta.traceId == t && log[i].meta.eventType == TraceFinished
  }

  lemma ClosedIsFinished<P, T>(log: seq<Stored<P, T>>, t: string)
    ensures Closed(log, t) <==> Finished(log, t)
  {
  }

  // Where the trace's events stand.
  ghost function Positions<P, T>(log: seq<Stored<P, T>>, t: string): set<int> {
    set i | 0 <= i < |log| && log[i].meta.traceId == t
  }

  lemma {:induction false} PositionsCount<P, T>(log: seq<Stored<P, T>>, t: string)
    ensures |Positions(log, t)| == |TraceEvents(log, t)|
  {
    if log != [] {
      var n := |log| - 1;
      PositionsCount(log[..n], t);
      var before := Positions(log[..n], t);
      assert Positions(log, t) == if log[n].meta.traceId == t then before + {n} else before;
    } else {
      assert Positions(log, t) == {};
    }
  }

  // An event is numbered by the events its trace has; TraceStarted is number 0, and nothing else is.
  ghost predicate WellNumbered<P, T>(log: seq<Stored<P, T>>, m: Meta) {
    m.traceSeq == |Positions(log, m.traceId)| && (m.eventType == TraceStarted <==> m.traceSeq == 0)
  }

  lemma WellNumberedIsOk<P, T>(log: seq<Stored<P, T>>, m: Meta)
    requires Sequenced(log)
    ensures WellNumbered(log, m) <==> SequenceOk(m, NextSeq(log, m.traceId))
  {
    NextSeqCounts(log, m.traceId);
    PositionsCount(log, m.traceId);
  }
}
