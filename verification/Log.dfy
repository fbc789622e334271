// The event log: the questions the stores ask of it, and the shape every reachable log has.
module Log {
  import opened Events
  import opened Json
  import opened Wrappers

  // ----- questions -----

  // The events of one trace, in log order.
  function TraceEvents<P, T>(log: seq<Stored<P, T>>, t: string): (es: seq<Stored<P, T>>)
    ensures forall i :: 0 <= i < |es| ==> es[i] in log && es[i].meta.traceId == t
  {
    if log == [] then [] else
      var last := log[|log| - 1];
      TraceEvents(log[..|log| - 1], t) + if last.meta.traceId == t then [last] else []
  }

  // MAX(trace_seq) + 1 over the trace, or 0
  function NextSeq<P, T>(log: seq<Stored<P, T>>, t: string): int {
    if log == [] then 0 else
      var rest := NextSeq(log[..|log| - 1], t);
      var m := log[|log| - 1].meta;
      if m.traceId == t && m.traceSeq + 1 > rest then m.traceSeq + 1 else rest
  }

  predicate Finished<P, T>(log: seq<Stored<P, T>>, t: string) {
    exists i :: 0 <= i < |log| && log[i].meta.traceId == t && log[i].meta.eventType.TraceFinished?
  }

  predicate SameKey(a: Meta, b: Meta) {
    a.source.producerId == b.source.producerId && a.idempotencyKey == b.idempotencyKey
  }

  // The first position holding m's (producer_id, idempotency_key).
  function FindKey<P, T>(log: seq<Stored<P, T>>, m: Meta): (r: Option<nat>)
    ensures r.Some? ==> r.value < |log| && SameKey(log[r.value].meta, m)
    ensures r.None? ==> forall i :: 0 <= i < |log| ==> !SameKey(log[i].meta, m)
  {
    if log == [] then None
    else if SameKey(log[0].meta, m) then Some(0)
    else
      match FindKey(log[1..], m)
      case None => None
      case Some(i) => Some(i + 1)
  }

  predicate HasEventId<P, T>(log: seq<Stored<P, T>>, id: string) {
    exists i :: 0 <= i < |log| && log[i].meta.eventId == id
  }

  predicate HasTraceSeq<P, T>(log: seq<Stored<P, T>>, m: Meta) {
    exists i :: 0 <= i < |log| && log[i].meta.traceId == m.traceId && log[i].meta.traceSeq == m.traceSeq
  }

  // ----- shape -----

  // log_seq counts 1, 2, 3, ...
  ghost predicate Numbered<P, T>(log: seq<Stored<P, T>>) {
    forall i :: 0 <= i < |log| ==> log[i].logSeq == i + 1
  }

  // Each event's trace_seq is the number of earlier events of its trace, and TraceStarted is exactly number 0.
  ghost predicate Sequenced<P, T>(log: seq<Stored<P, T>>) {
    forall i :: 0 <= i < |log| ==>
      var m := log[i].meta;
      && m.traceSeq == |TraceEvents(log[..i], m.traceId)|
      && (m.eventType.TraceStarted? <==> m.traceSeq == 0)
  }

  ghost predicate DistinctKeys<P, T>(log: seq<Stored<P, T>>) {
    forall i, j :: 0 <= i < j < |log| ==> !SameKey(log[i].meta, log[j].meta)
  }

  ghost predicate DistinctIds<P, T>(log: seq<Stored<P, T>>) {
    forall i, j :: 0 <= i < j < |log| ==> log[i].meta.eventId != log[j].meta.eventId
  }

  // After a TraceFinished its trace holds nothing but further TraceFinished events.
  ghost predicate Locked<P, T>(log: seq<Stored<P, T>>) {
    forall i, j :: 0 <= i < j < |log| && log[i].meta.traceId == log[j].meta.traceId ==>
      (log[i].meta.eventType.TraceFinished? ==> log[j].meta.eventType.TraceFinished?)
  }

  // A TraceFinished is the last event of its trace.
  ghost predicate FinishLast<P, T>(log: seq<Stored<P, T>>) {
    forall i, j :: 0 <= i < j < |log| && log[i].meta.traceId == log[j].meta.traceId ==>
      !log[i].meta.eventType.TraceFinished?
  }

  // ----- lemmas -----

  lemma TraceEventsSnoc<P, T>(log: seq<Stored<P, T>>, r: Stored<P, T>, t: string)
    ensures TraceEvents(log + [r], t) == TraceEvents(log, t) + if r.meta.traceId == t then [r] else []
    ensures NextSeq(log + [r], t) ==
      if r.meta.traceId == t && r.meta.traceSeq + 1 > NextSeq(log, t) then r.meta.traceSeq + 1 else NextSeq(log, t)
  {
    assert (log + [r])[..|log|] == log;
  }

  lemma SequencedPrefix<P, T>(log: seq<Stored<P, T>>, n: nat)
    requires Sequenced(log) && n <= |log|
    ensures Sequenced(log[..n])
  {
    forall i | 0 <= i < n ensures log[..n][..i] == log[..i] {}
  }

  // In a sequenced log, MAX(trace_seq) + 1 is the number of events of the trace.
  lemma {:induction false} NextSeqCounts<P, T>(log: seq<Stored<P, T>>, t: string)
    requires Sequenced(log)
    ensures NextSeq(log, t) == |TraceEvents(log, t)|
  {
    if log != [] {
      var n := |log| - 1;
      SequencedPrefix(log, n);
      NextSeqCounts(log[..n], t);
    }
  }

  // The trace sequences of a trace are 0, 1, 2, ... in log order; TraceStarted stands at 0 and nowhere else.
  lemma {:induction false} TraceNumbered<P, T>(log: seq<Stored<P, T>>, t: string)
    requires Sequenced(log)
    ensures forall k :: 0 <= k < |TraceEvents(log, t)| ==>
      && TraceEvents(log, t)[k].meta.traceSeq == k
      && (TraceEvents(log, t)[k].meta.eventType.TraceStarted? <==> k == 0)
  {
    if log != [] {
      var n := |log| - 1;
      SequencedPrefix(log, n);
      TraceNumbered(log[..n], t);
    }
  }

  lemma HasTraceSeqSnoc<P, T>(log: seq<Stored<P, T>>, r: Stored<P, T>, m: Meta)
    ensures HasTraceSeq(log + [r], m) <==>
      HasTraceSeq(log, m) || (r.meta.traceId == m.traceId && r.meta.traceSeq == m.traceSeq)
  {
    var log' := log + [r];
    assert log'[|log|] == r;
    if HasTraceSeq(log, m) {
      var i :| 0 <= i < |log| && log[i].meta.traceId == m.traceId && log[i].meta.traceSeq == m.traceSeq;
      assert log'[i] == log[i];
    }
  }

  // No two events share trace and trace_seq, and every sequence below the next one is taken.
  lemma {:induction false} TraceSeqTaken<P, T>(log: seq<Stored<P, T>>, m: Meta)
    requires Sequenced(log)
    ensures HasTraceSeq(log, m) <==> 0 <= m.traceSeq < NextSeq(log, m.traceId)
  {
    if log != [] {
      var n := |log| - 1;
      SequencedPrefix(log, n);
      TraceSeqTaken(log[..n], m);
      NextSeqCounts(log[..n], m.traceId);
      HasTraceSeqSnoc(log[..n], log[n], m);
      assert log == log[..n] + [log[n]];
    }
  }

  lemma NextSeqGrows<P, T>(log: seq<Stored<P, T>>, n: nat, t: string)
    requires n <= |log|
    ensures NextSeq(log[..n], t) <= NextSeq(log, t)
  {
    if n < |log| {
      assert log[..|log| - 1][..n] == log[..n];
      NextSeqGrows(log[..|log| - 1], n, t);
    } else {
      assert log[..n] == log;
    }
  }

  lemma SequencedSnoc<P, T>(log: seq<Stored<P, T>>, r: Stored<P, T>)
    requires Sequenced(log)
    requires SequenceOk(r.meta, NextSeq(log, r.meta.traceId))
    ensures Sequenced(log + [r])
  {
    NextSeqCounts(log, r.meta.traceId);
    var log' := log + [r];
    forall i | 0 <= i < |log'|
      ensures var m := log'[i].meta;
        m.traceSeq == |TraceEvents(log'[..i], m.traceId)| && (m.eventType.TraceStarted? <==> m.traceSeq == 0)
    {
      assert i < |log| ==> log'[..i] == log[..i] && log'[i] == log[i];
      assert log'[..|log|] == log;
    }
  }

  lemma FindKeyUnique<P, T>(log: seq<Stored<P, T>>, m: Meta, i: nat)
    requires DistinctKeys(log) && i < |log| && SameKey(log[i].meta, m)
    ensures FindKey(log, m) == Some(i)
  {
    var k := FindKey(log, m).value;
    assert SameKey(log[k].meta, log[i].meta);
  }

  // A finish elsewhere in the log, or appended, is what makes a trace finished.
  lemma FinishedSnoc<P, T>(log: seq<Stored<P, T>>, r: Stored<P, T>, t: string)
    ensures Finished(log + [r], t) <==> Finished(log, t) || (r.meta.traceId == t && r.meta.eventType.TraceFinished?)
  {
    var log' := log + [r];
    assert log'[|log|] == r;
    if Finished(log, t) {
      var i :| 0 <= i < |log| && log[i].meta.traceId == t && log[i].meta.eventType.TraceFinished?;
      assert log'[i] == log[i];
    }
  }

  // ----- retries -----

  // e repeats e', up to trace_seq, event id, times and the writing of the payload.
  ghost predicate Repeats(e: Envelope, e': Envelope) {
    && SameKey(e.meta, e'.meta)
    && e.meta.traceId == e'.meta.traceId
    && e.meta.eventType == e'.meta.eventType
    && e.meta.source == e'.meta.source
    && e.meta.actor == e'.meta.actor
    && e.meta.correlationId == e'.meta.correlationId
    && e.meta.causationEventId == e'.meta.causationEventId
    && e.meta.schemaVersion == e'.meta.schemaVersion
    && e.tags == e'.tags
    && Same(e.payload, e'.payload)
  }

  lemma RepeatHash(sha: string -> string, a: Value, b: Value)
    requires Same(a, b) && PayloadHash(sha, a).Ok? && PayloadHash(sha, b).Ok?
    ensures PayloadHash(sha, a) == PayloadHash(sha, b)
  {
    SameIffNorm(a, b);
  }
}
