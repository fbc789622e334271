// InMemoryEventStore: a list of events with three redundant indexes, and its batch iterator.
module MemoryStore {
  import opened Admission
  import opened Events
  import opened Log
  import opened Wrappers

  // What append_event does, in terms of plain scans of the log.
  function Append(sha: string -> string, log: seq<StoredEvent>, env: Envelope, now: string)
    : (Result<StoredEvent, Code>, seq<StoredEvent>)
  {
    var m := env.meta;
    match Prepare(sha, env, now)
    case Err(code) => (Err(code), log)
    case Ok(p) =>
      (match FindKey(log, m)
       case Some(i) => (Reuse(log[i], env, p.payloadHash), log)
       case None =>
         if Finished(log, m.traceId) then (Err(Conflict), log)
         else if !SequenceOk(m, NextSeq(log, m.traceId)) then (Err(EventSequenceInvalid), log)
         else var stored := ToEvent(env, p, |log| + 1); (Ok(stored), log + [stored]))
  }

  ghost predicate Shape(log: seq<StoredEvent>) {
    Numbered(log) && Sequenced(log) && DistinctKeys(log) && FinishLast(log)
  }

  lemma AppendKeepsShape(sha: string -> string, log: seq<StoredEvent>, env: Envelope, now: string)
    requires Shape(log)
    ensures Shape(Append(sha, log, env, now).1)
  {
    var log' := Append(sha, log, env, now).1;
    if log' != log {
      SnocKeepsShape(log, log'[|log|]);
    }
  }

  lemma SnocKeepsShape(log: seq<StoredEvent>, e: StoredEvent)
    requires Shape(log) && e.logSeq == |log| + 1
    requires FindKey(log, e.meta).None? && !Finished(log, e.meta.traceId)
    requires SequenceOk(e.meta, NextSeq(log, e.meta.traceId))
    ensures Shape(log + [e])
  {
    SequencedSnoc(log, e);
  }

  // At most one event more, and that with the next log_seq.
  ghost predicate Grown(log: seq<StoredEvent>, log': seq<StoredEvent>) {
    log' == log || (|log'| == |log| + 1 && log' == log + [log'[|log|]] && log'[|log|].logSeq == |log| + 1)
  }

  lemma AppendGrows(sha: string -> string, log: seq<StoredEvent>, env: Envelope, now: string)
    ensures Grown(log, Append(sha, log, env, now).1)
  {
  }

  // What an accepted append leaves: its reply is an event of the log, and the same submission.
  lemma AcceptedIsStored(sha: string -> string, log: seq<StoredEvent>, env: Envelope, now: string) returns (i: nat)
    requires Shape(log) && Append(sha, log, env, now).0.Ok?
    ensures var r := Append(sha, log, env, now);
      && i < |r.1| && r.1[i] == r.0.value && SameKey(r.1[i].meta, env.meta)
      && PayloadHash(sha, env.payload).Ok?
      && SameSubmission(r.1[i], env, PayloadHash(sha, env.payload).value)
  {
    i := if FindKey(log, env.meta).Some? then FindKey(log, env.meta).value else |log|;
  }

  // A repeat of an accepted envelope, handed in at any later time, is answered with the event already stored
  // and leaves the log as it is, even after the trace has finished.
  lemma RepeatKeepsLog(sha: string -> string, log: seq<StoredEvent>, first: Envelope, now: string,
                       later: seq<StoredEvent>, e: Envelope, at: string)
    requires Shape(log) && Append(sha, log, first, now).0.Ok?
    requires Shape(later) && Append(sha, log, first, now).1 <= later
    requires Repeats(e, first) && Prepare(sha, e, at).Ok?
    ensures Append(sha, later, e, at) == (Append(sha, log, first, now).0, later)
  {
    var i := AcceptedIsStored(sha, log, first, now);
    RepeatHash(sha, e.payload, first.payload);
    FindKeyUnique(later, e.meta, i);
  }

  // append_event's answer, from the envelope and the events alone.
  ghost predicate Decided(sha: string -> string, log: seq<StoredEvent>, e: Envelope, now: string,
                          r: Result<StoredEvent, Code>, end: seq<StoredEvent>) {
    if !KeyFits(e.meta.idempotencyKey) then r == Err(InvalidArgument) && end == log
    else if !PayloadFits(e.meta.eventType, e.payload) || PayloadHash(sha, e.payload).Err? then
      r == Err(SchemaViolation) && end == log
    else
      var hash := PayloadHash(sha, e.payload).value;
      && (forall i :: 0 <= i < |log| && Holds(log[i].meta, e) ==> end == log && HolderAnswers(log[i], e, hash, r))
      && (NoHolder(log, e) ==>
            if Closed(log, e.meta.traceId) then r == Err(Conflict) && end == log
            else if !WellNumbered(log, e.meta) then r == Err(EventSequenceInvalid) && end == log
            else r == Ok(Stored(|log| + 1, now, e.meta, e.payload, hash, e.tags)) && end == log + [r.value])
  }

  lemma AppendDecides(sha: string -> string, log: seq<StoredEvent>, e: Envelope, now: string)
    returns (r: (Result<StoredEvent, Code>, seq<StoredEvent>))
    requires Shape(log)
    ensures r == Append(sha, log, e, now) && Decided(sha, log, e, now, r.0, r.1)
  {
    r := Append(sha, log, e, now);
    PrepareDecides(sha, e, now);
    NoneFound(log, e);
    WellNumberedIsOk(log, e.meta);
    ClosedIsFinished(log, e.meta.traceId);
    if Prepare(sha, e, now).Ok? {
      forall i | 0 <= i < |log| && Holds(log[i].meta, e)
        ensures r.1 == log && HolderAnswers(log[i], e, Prepare(sha, e, now).value.payloadHash, r.0)
      {
        HolderFound(log, e, i);
      }
    }
  }

  // ----- selecting events -----

  datatype Filter = Filter(
    since: Option<int>, until: Option<int>, eventType: Option<EventType>, traceId: Option<string>)

  predicate Matches(f: Filter, e: StoredEvent) {
    && (f.since.Some? ==> e.logSeq > f.since.value)
    && (f.until.Some? ==> e.logSeq <= f.until.value)
    && (f.eventType.Some? ==> e.meta.eventType == f.eventType.value)
    && (f.traceId.Some? ==> e.meta.traceId == f.traceId.value)
  }

  // [e for e in log if it matches]
  function Select(log: seq<StoredEvent>, f: Filter): seq<StoredEvent> {
    if log == [] then [] else
      var n := |log| - 1;
      Select(log[..n], f) + if Matches(f, log[n]) then [log[n]] else []
  }

  const ALL := Filter(None, None, None, None)

  lemma {:induction false} SelectTwice(log: seq<StoredEvent>, f: Filter, g: Filter, both: Filter)
    requires forall e :: Matches(both, e) <==> Matches(f, e) && Matches(g, e)
    ensures Select(Select(log, f), g) == Select(log, both)
  {
    if log != [] {
      var n := |log| - 1;
      SelectTwice(log[..n], f, g, both);
      var kept := Select(log[..n], f);
      if Matches(f, log[n]) {
        assert (kept + [log[n]])[..|kept|] == kept;
        assert Select(kept + [log[n]], g) == Select(kept, g) + if Matches(g, log[n]) then [log[n]] else [];
      } else {
        assert kept + [] == kept;
        assert !Matches(both, log[n]);
      }
    }
  }

  lemma {:induction false} SelectAll(log: seq<StoredEvent>)
    ensures Select(log, ALL) == log
  {
    if log != [] {
      var n := |log| - 1;
      SelectAll(log[..n]);
      assert log == log[..n] + [log[n]];
    }
  }

  lemma SelectSnoc(log: seq<StoredEvent>, e: StoredEvent, f: Filter)
    ensures Select(log + [e], f) == Select(log, f) + if Matches(f, e) then [e] else []
  {
    assert (log + [e])[..|log|] == log;
  }

  lemma {:induction false} SelectElements(log: seq<StoredEvent>, f: Filter)
    ensures forall i :: 0 <= i < |Select(log, f)| ==> Select(log, f)[i] in log && Matches(f, Select(log, f)[i])
  {
    if log != [] { SelectElements(log[..|log| - 1], f); }
  }

  ghost predicate OrderedUpTo(es: seq<StoredEvent>, n: int) {
    && (forall i, j :: 0 <= i < j < |es| ==> es[i].logSeq < es[j].logSeq)
    && (forall i :: 0 <= i < |es| ==> 1 <= es[i].logSeq <= n)
  }

  // A selection of a numbered log is ordered by log_seq.
  lemma {:induction false} SelectOrdered(log: seq<StoredEvent>, f: Filter)
    requires Numbered(log)
    ensures OrderedUpTo(Select(log, f), |log|)
  {
    if log != [] {
      var n := |log| - 1;
      SelectOrdered(log[..n], f);
    }
  }

  // What is selected, field by field, and in what order.
  lemma SelectedExactly(log: seq<StoredEvent>, f: Filter) returns (es: seq<StoredEvent>)
    requires Numbered(log)
    ensures es == Select(log, f) && OrderedUpTo(es, |log|)
    ensures forall e :: e in es <==>
      && e in log
      && (f.since.Some? ==> e.logSeq > f.since.value) && (f.until.Some? ==> e.logSeq <= f.until.value)
      && (f.eventType.Some? ==> e.meta.eventType == f.eventType.value)
      && (f.traceId.Some? ==> e.meta.traceId == f.traceId.value)
  {
    es := Select(log, f);
    SelectOrdered(log, f);
    SelectElements(log, f);
    forall i | 0 <= i < |log| && Matches(f, log[i]) ensures log[i] in es { SelectHas(log, f, i); }
  }

  lemma {:induction false} SelectHas(log: seq<StoredEvent>, f: Filter, i: nat)
    requires i < |log| && Matches(f, log[i])
    ensures log[i] in Select(log, f)
  {
    if i < |log| - 1 { SelectHas(log[..|log| - 1], f, i); }
  }

  // list_events: one comprehension after another, each only if its argument was given.
  method ListEvents(log: seq<StoredEvent>, f: Filter, limit: Option<nat>) returns (events: seq<StoredEvent>)
    ensures var all := Select(log, f);
      events == if limit.Some? && limit.value < |all| then all[..limit.value] else all
  {
    SelectAll(log);
    events := log;
    ghost var done := ALL;
    if f.since.Some? {
      SelectTwice(log, done, ALL.(since := f.since), done.(since := f.since));
      events := Select(events, ALL.(since := f.since));
    }
    done := done.(since := f.since);
    if f.until.Some? {
      SelectTwice(log, done, ALL.(until := f.until), done.(until := f.until));
      events := Select(events, ALL.(until := f.until));
    }
    done := done.(until := f.until);
    if f.eventType.Some? {
      SelectTwice(log, done, ALL.(eventType := f.eventType), done.(eventType := f.eventType));
      events := Select(events, ALL.(eventType := f.eventType));
    }
    done := done.(eventType := f.eventType);
    if f.traceId.Some? {
      SelectTwice(log, done, ALL.(traceId := f.traceId), f);
      events := Select(events, ALL.(traceId := f.traceId));
    }
    if limit.Some? && limit.value < |events| {
      events := events[..limit.value];
    }
  }

  // ----- the store -----

  function KeyOf(m: Meta): (string, string) {
    (m.source.producerId, m.idempotencyKey)
  }

  // Each index says what a scan of the log would say.

  ghost predicate TraceIndexOk(log: seq<StoredEvent>, index: map<string, seq<StoredEvent>>) {
    && (forall t :: t in index <==> TraceEvents(log, t) != [])
    && (forall t :: t in index ==> index[t] == TraceEvents(log, t))
  }

  function KeyTable(log: seq<StoredEvent>): map<(string, string), StoredEvent> {
    if log == [] then map[] else
      var e := log[|log| - 1];
      KeyTable(log[..|log| - 1])[KeyOf(e.meta) := e]
  }

  ghost predicate KeyIndexOk(log: seq<StoredEvent>, index: map<(string, string), StoredEvent>) {
    index == KeyTable(log)
  }

  ghost predicate FinishIndexOk(log: seq<StoredEvent>, index: set<string>) {
    forall t :: t in index <==> Finished(log, t)
  }

  lemma TraceIndexGrows(log: seq<StoredEvent>, index: map<string, seq<StoredEvent>>, e: StoredEvent)
    requires TraceIndexOk(log, index)
    ensures var t := e.meta.traceId;
      var before := if t in index then index[t] else [];
      TraceIndexOk(log + [e], index[t := before + [e]])
  {
    var index' := index[e.meta.traceId := (if e.meta.traceId in index then index[e.meta.traceId] else []) + [e]];
    forall t
      ensures t in index' <==> TraceEvents(log + [e], t) != []
      ensures t in index' ==> index'[t] == TraceEvents(log + [e], t)
    {
      TraceEventsSnoc(log, e, t);
      assert t != e.meta.traceId ==> TraceEvents(log, t) + [] == TraceEvents(log, t);
    }
  }

  lemma KeyIndexGrows(log: seq<StoredEvent>, index: map<(string, string), StoredEvent>, e: StoredEvent)
    requires KeyIndexOk(log, index)
    ensures KeyIndexOk(log + [e], index[KeyOf(e.meta) := e])
  {
    assert (log + [e])[..|log|] == log;
  }

  lemma FinishIndexGrows(log: seq<StoredEvent>, index: set<string>, e: StoredEvent)
    requires FinishIndexOk(log, index)
    ensures FinishIndexOk(log + [e], if e.meta.eventType.TraceFinished? then index + {e.meta.traceId} else index)
  {
    forall t { FinishedSnoc(log, e, t); }
  }

  lemma {:induction false} KeyTableFinds(log: seq<StoredEvent>, m: Meta)
    requires DistinctKeys(log)
    ensures KeyOf(m) in KeyTable(log) <==> FindKey(log, m).Some?
    ensures KeyOf(m) in KeyTable(log) ==> KeyTable(log)[KeyOf(m)] == log[FindKey(log, m).value]
  {
    if log != [] {
      var n := |log| - 1;
      KeyTableFinds(log[..n], m);
      if SameKey(log[n].meta, m) {
        FindKeyUnique(log, m, n);
      } else if FindKey(log[..n], m).Some? {
        FindKeyUnique(log, m, FindKey(log[..n], m).value);
      } else {
        assert forall i :: 0 <= i < n ==> log[..n][i] == log[i];
      }
    }
  }

  lemma StoreKeeps(log: seq<StoredEvent>, byTrace: map<string, seq<StoredEvent>>,
                   byKey: map<(string, string), StoredEvent>, finished: set<string>,
                   ofTrace: seq<StoredEvent>, e: StoredEvent)
    requires ofTrace == if e.meta.traceId in byTrace then byTrace[e.meta.traceId] else []
    requires Shape(log) && TraceIndexOk(log, byTrace) && KeyIndexOk(log, byKey) && FinishIndexOk(log, finished)
    requires e.logSeq == |log| + 1 && FindKey(log, e.meta).None? && !Finished(log, e.meta.traceId)
    requires SequenceOk(e.meta, NextSeq(log, e.meta.traceId))
    ensures Shape(log + [e]) && KeyIndexOk(log + [e], byKey[KeyOf(e.meta) := e])
    ensures TraceIndexOk(log + [e], byTrace[e.meta.traceId := ofTrace + [e]])
    ensures FinishIndexOk(log + [e], if e.meta.eventType.TraceFinished? then finished + {e.meta.traceId} else finished)
  {
    SnocKeepsShape(log, e);
    TraceIndexGrows(log, byTrace, e);
    KeyIndexGrows(log, byKey, e);
    FinishIndexGrows(log, finished, e);
  }

  class InMemoryEventStore {
    const sha: string -> string
    var events: seq<StoredEvent>
    var eventsByTrace: map<string, seq<StoredEvent>>
    var idempotencyIndex: map<(string, string), StoredEvent>
    var finishedTraces: set<string>
    var nextLogSeq: int

    ghost predicate Valid()
      reads this
    {
      && Shape(events)
      && nextLogSeq == |events| + 1
      && TraceIndexOk(events, eventsByTrace)
      && KeyIndexOk(events, idempotencyIndex)
      && FinishIndexOk(events, finishedTraces)
    }

    constructor (sha: string -> string)
      ensures Valid() && events == [] && this.sha == sha
    {
      this.sha := sha;
      events := [];
      eventsByTrace := map[];
      idempotencyIndex := map[];
      finishedTraces := {};
      nextLogSeq := 1;
    }

    method GetNextTraceSeq(t: string) returns (n: int)
      requires Valid()
      ensures n == NextSeq(events, t) == |Positions(events, t)|
    {
      PositionsCount(events, t);
      NextSeqCounts(events, t);
      TraceNumbered(events, t);
      if t !in eventsByTrace { return 0; }
      var es := eventsByTrace[t];
      return es[|es| - 1].meta.traceSeq + 1;
    }

    method IsTraceFinished(t: string) returns (b: bool)
      requires Valid()
      ensures b <==> Closed(events, t)
    {
      ClosedIsFinished(events, t);
      return t in finishedTraces;
    }

    method GetLastLogSeq() returns (n: int)
      requires Valid()
      ensures n == |events|
    {
      if events == [] { return 0; }
      return events[|events| - 1].logSeq;
    }

    method AppendEvent(env: Envelope, now: string) returns (r: Result<StoredEvent, Code>)
      requires Valid()
      modifies this
      ensures Valid()
      ensures (r, events) == Append(sha, old(events), env, now)
      ensures Decided(sha, old(events), env, now, r, events)
    {
      ghost var decided := AppendDecides(sha, events, env, now);
      var prepared;
      match Prepare(sha, env, now) {
        case Err(code) => return Err(code);
        case Ok(p) => prepared := p;
      }
      var key := KeyOf(env.meta);
      KeyTableFinds(events, env.meta);
      if key in idempotencyIndex {
        var mismatches;
        r, mismatches := ValidateIdempotentReuse(env, idempotencyIndex[key], prepared.payloadHash);
        return;
      }
      if env.meta.traceId in finishedTraces {
        return Err(Conflict);
      }
      var expected := GetNextTraceSeq(env.meta.traceId);
      if !SequenceOk(env.meta, expected) {
        return Err(EventSequenceInvalid);
      }
      var stored := ToEvent(env, prepared, nextLogSeq);
      Store(stored);
      return Ok(stored);
    }

    method Store(stored: StoredEvent)
      requires Valid() && stored.logSeq == nextLogSeq
      requires FindKey(events, stored.meta).None? && !Finished(events, stored.meta.traceId)
      requires SequenceOk(stored.meta, NextSeq(events, stored.meta.traceId))
      modifies this
      ensures Valid() && events == old(events) + [stored]
    {
      var t := stored.meta.traceId;
      var ofTrace := if t in eventsByTrace then eventsByTrace[t] else [];
      StoreKeeps(events, eventsByTrace, idempotencyIndex, finishedTraces, ofTrace, stored);
      events := events + [stored];
      eventsByTrace := eventsByTrace[t := ofTrace + [stored]];
      idempotencyIndex := idempotencyIndex[KeyOf(stored.meta) := stored];
      nextLogSeq := nextLogSeq + 1;
      finishedTraces := if stored.meta.eventType.TraceFinished? then finishedTraces + {t} else finishedTraces;
    }
  }
}
