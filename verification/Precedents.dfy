// find_precedents: filter, rank within each trace, order by recency, limit; and what that means on the log.
module Precedents {
  import opened Events
  import opened Log
  import opened Order
  import opened Projection
  import opened Queries
  import opened Replay
  import opened Totality
  import opened Wrappers
  import opened Writers

  datatype PrecedentQuery = PrecedentQuery(
    policyId: Option<string>, policyVersion: Option<string>, entityType: Option<string>, entityId: Option<string>,
    outcome: Option<string>, limit: int)

  datatype PrecedentHit = PrecedentHit(
    traceId: string, workflow: string, title: string, outcome: Option<string>,
    policyId: Option<string>, policyVersion: Option<string>, finishedAt: Option<string>)

  const MAX_QUERY_LIMIT := 10000

  // A filter that is given: an empty text is not.
  predicate Asked(v: Option<string>) {
    v.Some? && v.value != ""
  }

  // ----- the SQL query -----

  predicate SummaryMatches(s: Summary, q: PrecedentQuery) {
    && s.outcome.Some?
    && (Asked(q.outcome) ==> s.outcome == q.outcome)
    && (Asked(q.entityType) ==> s.primaryEntityType == q.entityType)
    && (Asked(q.entityId) ==> s.primaryEntityId == q.entityId)
  }

  predicate RowMatches(p: Precedent, q: PrecedentQuery, t: string) {
    && p.traceId == t
    && Some(p.policyId) == q.policyId
    && (Asked(q.policyVersion) ==> Some(p.policyVersion) == q.policyVersion)
  }

  // ORDER BY CASE WHEN exception_id IS NOT NULL THEN 0 ELSE 1 END, log_seq DESC, source_event_id ASC
  type Rank = (int, (int, string))

  predicate RankLess(a: Rank, b: Rank) {
    a.0 < b.0 || (a.0 == b.0 && KeyLess(a.1, b.1))
  }

  lemma RankLessTotal()
    ensures StrictTotal(RankLess)
  {
    KeyLessTotal();
  }

  function RankOf(id: string, p: Precedent): Rank {
    (if p.exceptionId.Some? then 0 else 1, (-p.logSeq, id))
  }

  function Ranks(ps: map<string, Precedent>, q: PrecedentQuery, t: string): set<Rank> {
    set id | id in ps && RowMatches(ps[id], q, t) :: RankOf(id, ps[id])
  }

  // The row with row_rank = 1 in its partition.
  function Best(ps: map<string, Precedent>, q: PrecedentQuery, t: string): (id: string)
    requires Ranks(ps, q, t) != {}
    ensures id in ps && RowMatches(ps[id], q, t)
    ensures forall k :: k in ps && RowMatches(ps[k], q, t) ==> k == id || RankLess(RankOf(id, ps[id]), RankOf(k, ps[k]))
  {
    RankLessTotal();
    var best := Least(RankLess, Ranks(ps, q, t));
    assert forall k :: k in ps && RowMatches(ps[k], q, t) ==> RankOf(k, ps[k]) in Ranks(ps, q, t);
    best.1.1
  }

  predicate TraceMatches(tb: Tables, q: PrecedentQuery, t: string) {
    t in tb.summaries && SummaryMatches(tb.summaries[t], q) && (Asked(q.policyId) ==> Ranks(tb.precedents, q, t) != {})
  }

  // ORDER BY last_log_seq DESC, trace_id ASC
  function Matches(tb: Tables, q: PrecedentQuery): set<(int, string)> {
    set t | t in tb.summaries && TraceMatches(tb, q, t) :: (-tb.summaries[t].lastLogSeq, t)
  }

  function Found(tb: Tables, q: PrecedentQuery): (found: seq<(int, string)>)
    ensures Increasing(KeyLess, found)
    ensures forall k :: k in found <==> k in Matches(tb, q)
  {
    SortedPairs(Matches(tb, q))
  }

  // ----- the answer -----

  function HitOf(tb: Tables, q: PrecedentQuery, t: string): PrecedentHit
    requires TraceMatches(tb, q, t)
  {
    var s := tb.summaries[t];
    if Asked(q.policyId) then
      var p := tb.precedents[Best(tb.precedents, q, t)];
      PrecedentHit(t, s.workflow, s.title, s.outcome, Some(p.policyId), Some(p.policyVersion), s.finishedAt)
    else PrecedentHit(t, s.workflow, s.title, s.outcome, None, None, s.finishedAt)
  }

  // The first limit matching traces, with their hits.
  ghost predicate Answers(tb: Tables, q: PrecedentQuery, hits: seq<PrecedentHit>) {
    var found := Found(tb, q);
    && |hits| == (if q.limit < |found| then q.limit else |found|)
    && forall i :: 0 <= i < |hits| ==> TraceMatches(tb, q, found[i].1) && hits[i] == HitOf(tb, q, found[i].1)
  }

  method FindPrecedents(log: seq<Row>, proj: Proj, q: PrecedentQuery)
    returns (r: Result<seq<PrecedentHit>, Code>)
    requires q.limit > 0
    ensures Numbered(log) ==> (r == Err(ProjectionOutOfDate) <==> proj.cursor < |log|)
    ensures if Stale(log, proj.cursor) then r == Err(ProjectionOutOfDate)
      else if q.limit > 10000 then r == Err(InvalidArgument)
      else r.Ok? && Answers(proj.tables, q, r.value)
  {
    if Numbered(log) { StaleIsBehind(log, proj.cursor); }
    if Stale(log, proj.cursor) { return Err(ProjectionOutOfDate); }
    if q.limit > MAX_QUERY_LIMIT { return Err(InvalidArgument); }
    var found := Found(proj.tables, q);
    var rows := if q.limit < |found| then found[..q.limit] else found;
    var precedents := [];
    for i := 0 to |rows|
      invariant |precedents| == i
      invariant forall j :: 0 <= j < i ==>
        TraceMatches(proj.tables, q, found[j].1) && precedents[j] == HitOf(proj.tables, q, found[j].1)
    {
      assert rows[i] == found[i] && found[i] in found;
      precedents := precedents + [HitOf(proj.tables, q, rows[i].1)];
    }
    return Ok(precedents);
  }

  // ----- the same, on the log alone -----

  // A trace's first event, which is its TraceStarted, and its last.
  ghost function FirstOf(log: seq<Row>, t: string): Row
    requires TraceEvents(log, t) != []
  {
    TraceEvents(log, t)[0]
  }

  ghost function LastOf(log: seq<Row>, t: string): Row
    requires TraceEvents(log, t) != []
  {
    TraceEvents(log, t)[|TraceEvents(log, t)| - 1]
  }

  ghost function PolicyText(row: Row, k: string): string {
    TextAt(RecordAt(PayloadAt(row), "policy"), k)
  }

  ghost function EntityText(row: Row, k: string): string {
    TextAt(RecordAt(PayloadAt(row), "primary_entity"), k)
  }

  // A filter that is absent or empty lets every text pass.
  ghost predicate Lets(filter: Option<string>, text: string) {
    filter == None || filter == Some("") || filter == Some(text)
  }

  // Event j of the trace evaluated, or asked an exception from, the policy asked for.
  ghost predicate Cites(log: seq<Row>, q: PrecedentQuery, t: string, j: nat) {
    && j < |log| && log[j].meta.traceId == t
    && (log[j].meta.eventType == PolicyEvaluated || log[j].meta.eventType == ExceptionRequested)
    && q.policyId == Some(PolicyText(log[j], "policy_id"))
    && Lets(q.policyVersion, PolicyText(log[j], "policy_version"))
  }

  ghost predicate FiltersPass(first: Row, last: Row, q: PrecedentQuery) {
    && Lets(q.outcome, TextAt(PayloadAt(last), "outcome"))
    && Lets(q.entityType, EntityText(first, "entity_type"))
    && Lets(q.entityId, EntityText(first, "entity_id"))
  }

  ghost predicate Wanted(log: seq<Row>, q: PrecedentQuery, t: string) {
    && TraceEvents(log, t) != [] && Finished(log, t)
    && FiltersPass(FirstOf(log, t), LastOf(log, t), q)
    && (q.policyId == None || q.policyId == Some("") || exists j: nat :: Cites(log, q, t, j))
  }

  // Of two matching events, an ExceptionRequested wins over a PolicyEvaluated, and then the later one.
  ghost predicate Outranks(log: seq<Row>, i: nat, j: nat)
    requires i < |log| && j < |log|
  {
    var a, b := log[i].meta.eventType.ExceptionRequested?, log[j].meta.eventType.ExceptionRequested?;
    (a && !b) || (a == b && i > j)
  }

  ghost predicate Decides(log: seq<Row>, q: PrecedentQuery, t: string, j: nat) {
    Cites(log, q, t, j) && forall k: nat :: Cites(log, q, t, k) && k != j ==> Outranks(log, j, k)
  }

  ghost predicate HitTells(log: seq<Row>, q: PrecedentQuery, h: PrecedentHit)
    requires TraceEvents(log, h.traceId) != []
  {
    var first, last := FirstOf(log, h.traceId), LastOf(log, h.traceId);
    && h.workflow == TextAt(PayloadAt(first), "workflow") && h.title == TextAt(PayloadAt(first), "title")
    && h.outcome == Some(TextAt(PayloadAt(last), "outcome")) && h.finishedAt == Some(last.meta.occurredAt)
    && (if q.policyId == None || q.policyId == Some("") then h.policyId.None? && h.policyVersion.None?
        else h.policyId == q.policyId && VersionDecided(log, q, h))
  }

  ghost predicate VersionDecided(log: seq<Row>, q: PrecedentQuery, h: PrecedentHit) {
    exists j: nat :: Decides(log, q, h.traceId, j) && h.policyVersion == Some(PolicyText(log[j], "policy_version"))
  }

  // ----- summaries -----

  lemma {:induction false} TraceEventsLocked(log: seq<Row>, t: string)
    requires Locked(log)
    ensures Locked(TraceEvents(log, t))
  {
    if log != [] {
      var n := |log| - 1;
      TraceEventsLocked(log[..n], t);
      var es := TraceEvents(log[..n], t);
      forall i | 0 <= i < |es| && log[n].meta.traceId == t && es[i].meta.eventType.TraceFinished?
        ensures log[n].meta.eventType.TraceFinished?
      {
        assert es[i] in log[..n];
      }
    }
  }

  ghost predicate LockedRows(rows: seq<Row>) {
    forall i, j :: 0 <= i < j < |rows| && rows[i].meta.eventType.TraceFinished? ==>
      rows[j].meta.eventType.TraceFinished?
  }

  // What a trace's summary says of its first and last event.
  ghost predicate Summarises(s: Summary, first: Row, last: Row, finished: bool) {
    && s.workflow == TextAt(PayloadAt(first), "workflow") && s.title == TextAt(PayloadAt(first), "title")
    && s.primaryEntityType == Some(EntityText(first, "entity_type"))
    && s.primaryEntityId == Some(EntityText(first, "entity_id"))
    && (if finished then
          s.outcome == Some(TextAt(PayloadAt(last), "outcome")) && s.finishedAt == Some(last.meta.occurredAt)
          && s.lastLogSeq == last.logSeq
        else s.outcome.None?)
  }

  lemma {:induction false} SummaryTells(rows: seq<Row>, n: nat)
    requires |rows| == n + 1 && !rows[0].meta.eventType.TraceFinished? && LockedRows(rows)
    ensures Summarises(SummaryOf(rows), rows[0], rows[n], rows[n].meta.eventType.TraceFinished?)
  {
    if n > 0 {
      assert rows[..n][0] == rows[0];
      SummaryTells(rows[..n], n - 1);
      assert rows[..n][n - 1] == rows[n - 1];
    }
  }

  lemma FinishedInTrace(log: seq<Row>, t: string)
    ensures var es := TraceEvents(log, t);
      Finished(log, t) <==> exists i :: 0 <= i < |es| && es[i].meta.eventType.TraceFinished?
  {
    var es := TraceEvents(log, t);
    if Finished(log, t) {
      var i :| 0 <= i < |log| && log[i].meta.traceId == t && log[i].meta.eventType.TraceFinished?;
      TraceEventsHave(log, i);
    }
    if i :| 0 <= i < |es| && es[i].meta.eventType.TraceFinished? {
      assert es[i] in log;
    }
  }

  lemma LastTells(rows: seq<Row>, n: nat)
    requires |rows| == n + 1 && LockedRows(rows)
    ensures (exists i :: 0 <= i < |rows| && rows[i].meta.eventType.TraceFinished?) <==>
      rows[n].meta.eventType.TraceFinished?
  {
  }

  lemma RowsLocked(rows: seq<Row>, t: string)
    requires Locked(rows) && forall i :: 0 <= i < |rows| ==> rows[i].meta.traceId == t
    ensures LockedRows(rows)
  {
  }

  // A trace's summary, from its events.
  lemma SummaryOfRows(rows: seq<Row>, s: Summary, finished: bool) returns (first: Row, last: Row)
    requires rows != [] && LockedRows(rows) && s == SummaryOf(rows) && !rows[0].meta.eventType.TraceFinished?
    requires finished == rows[|rows| - 1].meta.eventType.TraceFinished?
    ensures first == rows[0] && last == rows[|rows| - 1] && Summarises(s, first, last, finished)
  {
    first, last := rows[0], rows[|rows| - 1];
    SummaryTells(rows, |rows| - 1);
  }

  lemma TraceOpens(log: seq<Row>, t: string)
    requires Sequenced(log) && TraceEvents(log, t) != []
    ensures !TraceEvents(log, t)[0].meta.eventType.TraceFinished?
  {
    TraceNumbered(log, t);
  }

  lemma TraceLocked(log: seq<Row>, t: string)
    requires Locked(log)
    ensures LockedRows(TraceEvents(log, t))
  {
    TraceEventsLocked(log, t);
    RowsLocked(TraceEvents(log, t), t);
  }

  lemma LastDecides(log: seq<Row>, t: string)
    requires TraceEvents(log, t) != [] && LockedRows(TraceEvents(log, t))
    ensures Finished(log, t) <==> LastOf(log, t).meta.eventType.TraceFinished?
  {
    FinishedInTrace(log, t);
    LastTells(TraceEvents(log, t), |TraceEvents(log, t)| - 1);
  }

  lemma RowsOfTrace(log: seq<Row>, t: string) returns (rows: seq<Row>, finished: bool)
    requires Sequenced(log) && Locked(log) && TraceEvents(log, t) != []
    ensures rows == TraceEvents(log, t) && rows != [] && LockedRows(rows) && !rows[0].meta.eventType.TraceFinished?
    ensures finished == Finished(log, t) == rows[|rows| - 1].meta.eventType.TraceFinished?
  {
    rows, finished := TraceEvents(log, t), Finished(log, t);
    TraceOpens(log, t);
    TraceLocked(log, t);
    LastDecides(log, t);
  }

  // ----- precedent rows -----

  lemma RowCites(log: seq<Row>, q: PrecedentQuery, t: string, j: nat)
    requires j < |log| && Indexed(log[j].meta.eventType)
    ensures RowMatches(PrecedentAt(log, j), q, t) <==> Cites(log, q, t, j)
    ensures PrecedentAt(log, j).exceptionId.Some? <==> log[j].meta.eventType.ExceptionRequested?
    ensures PrecedentAt(log, j).policyVersion == PolicyText(log[j], "policy_version")
    ensures PrecedentAt(log, j).policyId == PolicyText(log[j], "policy_id")
    ensures PrecedentAt(log, j).logSeq == log[j].logSeq
  {
  }

  // The event a precedent row comes from.
  lemma SourceOf(log: seq<Row>, ps: map<string, Precedent>, id: string) returns (j: nat)
    requires PrecedentsOk(log, |log|, ps) && id in ps
    ensures j < |log| && log[j].meta.eventId == id && Indexed(log[j].meta.eventType) && ps[id] == PrecedentAt(log, j)
  {
    j :| Source(log, |log|, j) && log[j].meta.eventId == id;
  }

  lemma CitedHasRow(log: seq<Row>, ps: map<string, Precedent>, q: PrecedentQuery, t: string, j: nat)
    requires PrecedentsOk(log, |log|, ps) && Cites(log, q, t, j) && Finished(log, t)
    ensures var id := log[j].meta.eventId; id in ps && ps[id] == PrecedentAt(log, j) && RowMatches(ps[id], q, t)
  {
    assert log[..|log|] == log;
    assert Source(log, |log|, j);
    RowCites(log, q, t, j);
  }

  lemma RanksFromLog(log: seq<Row>, ps: map<string, Precedent>, q: PrecedentQuery, t: string)
    requires PrecedentsOk(log, |log|, ps) && Finished(log, t)
    ensures Ranks(ps, q, t) != {} <==> exists j: nat :: Cites(log, q, t, j)
  {
    if r :| r in Ranks(ps, q, t) {
      var id :| id in ps && RowMatches(ps[id], q, t) && r == RankOf(id, ps[id]);
      var j := SourceOf(log, ps, id);
      RowCites(log, q, t, j);
    }
    if j: nat :| Cites(log, q, t, j) {
      CitedHasRow(log, ps, q, t, j);
      assert RankOf(log[j].meta.eventId, ps[log[j].meta.eventId]) in Ranks(ps, q, t);
    }
  }

  // The best row comes from the trace's latest matching exception, or else its latest matching evaluation.
  lemma BestFromLog(log: seq<Row>, ps: map<string, Precedent>, q: PrecedentQuery, t: string, id: string)
    returns (j: nat)
    requires PrecedentsOk(log, |log|, ps) && Finished(log, t) && Numbered(log)
    requires Ranks(ps, q, t) != {} && id == Best(ps, q, t)
    ensures Decides(log, q, t, j) && ps[id] == PrecedentAt(log, j)
  {
    j := SourceOf(log, ps, id);
    RowCites(log, q, t, j);
    forall k: nat | Cites(log, q, t, k) && k != j ensures Outranks(log, j, k) {
      CitedHasRow(log, ps, q, t, k);
      RowCites(log, q, t, k);
      var id' := log[k].meta.eventId;
      assert id' != id ==> RankLess(RankOf(id, ps[id]), RankOf(id', ps[id']));
    }
  }

  // ----- the theorem -----

  // The tables of a projection that has reached the end of the log.
  ghost predicate CaughtUp(log: seq<Row>, tb: Tables) {
    && Numbered(log) && Sequenced(log) && Locked(log)
    && SummariesOk(log, tb.summaries) && PrecedentsOk(log, |log|, tb.precedents)
  }

  lemma TraceFromLog(log: seq<Row>, tb: Tables, q: PrecedentQuery, t: string)
    requires CaughtUp(log, tb)
    ensures TraceMatches(tb, q, t) <==> Wanted(log, q, t)
    ensures Wanted(log, q, t) ==> tb.summaries[t].lastLogSeq == LastOf(log, t).logSeq
  {
    assert t in tb.summaries <==> TraceEvents(log, t) != [];
    if t in tb.summaries {
      var rows, finished := RowsOfTrace(log, t);
      var first, last := SummaryOfRows(rows, tb.summaries[t], finished);
      FiltersAgree(tb.summaries[t], first, last, finished, q);
      if finished { RanksFromLog(log, tb.precedents, q, t); }
    }
  }

  lemma FiltersAgree(s: Summary, first: Row, last: Row, finished: bool, q: PrecedentQuery)
    requires Summarises(s, first, last, finished)
    ensures SummaryMatches(s, q) <==> finished && FiltersPass(first, last, q)
  {
  }

  lemma HitFromLog(log: seq<Row>, tb: Tables, q: PrecedentQuery, t: string) returns (h: PrecedentHit)
    requires CaughtUp(log, tb) && TraceMatches(tb, q, t) && TraceEvents(log, t) != [] && Finished(log, t)
    ensures h == HitOf(tb, q, t) && h.traceId == t && HitTells(log, q, h)
  {
    h := HitOf(tb, q, t);
    var rows, finished := RowsOfTrace(log, t);
    var first, last := SummaryOfRows(rows, tb.summaries[t], finished);
    if Asked(q.policyId) {
      var id := Best(tb.precedents, q, t);
      var j := BestFromLog(log, tb.precedents, q, t, id);
      RowCites(log, q, t, j);
      assert VersionDecided(log, q, h);
    }
  }

  lemma LastInLog(log: seq<Row>, t: string) returns (i: nat)
    requires Numbered(log) && TraceEvents(log, t) != []
    ensures i < |log| && log[i].meta.traceId == t && LastOf(log, t).logSeq == i + 1
  {
    var last := LastOf(log, t);
    assert last in log;
    i :| i < |log| && log[i] == last;
  }

  lemma LastDiffers(log: seq<Row>, t: string, u: string)
    requires Numbered(log) && TraceEvents(log, t) != [] && TraceEvents(log, u) != [] && t != u
    ensures LastOf(log, t).logSeq != LastOf(log, u).logSeq
  {
    var i := LastInLog(log, t);
    var j := LastInLog(log, u);
  }

  ghost predicate LaterTrace(log: seq<Row>, t: string, u: string) {
    TraceEvents(log, t) != [] && TraceEvents(log, u) != [] && LastOf(log, t).logSeq > LastOf(log, u).logSeq
  }

  // The traces found: exactly those wanted, latest first.
  ghost predicate Ordered(log: seq<Row>, q: PrecedentQuery, ts: seq<string>) {
    && (forall t :: t in ts <==> Wanted(log, q, t))
    && (forall i, j :: 0 <= i < j < |ts| ==> LaterTrace(log, ts[i], ts[j]))
  }

  lemma MatchKey(tb: Tables, q: PrecedentQuery, k: (int, string))
    ensures k in Matches(tb, q) <==> TraceMatches(tb, q, k.1) && k.0 == -tb.summaries[k.1].lastLogSeq
  {
  }

  lemma KeyFromLog(log: seq<Row>, tb: Tables, q: PrecedentQuery, k: (int, string))
    requires CaughtUp(log, tb)
    ensures k in Matches(tb, q) <==> Wanted(log, q, k.1) && k.0 == -LastOf(log, k.1).logSeq
  {
    MatchKey(tb, q, k);
    TraceFromLog(log, tb, q, k.1);
  }

  lemma FoundFromLog(log: seq<Row>, tb: Tables, q: PrecedentQuery, found: seq<(int, string)>) returns (ts: seq<string>)
    requires CaughtUp(log, tb) && found == Found(tb, q)
    ensures |ts| == |found| && (forall i :: 0 <= i < |found| ==> ts[i] == found[i].1)
    ensures Ordered(log, q, ts)
  {
    ts := seq(|found|, i requires 0 <= i < |found| => found[i].1);
    forall k ensures k in found <==> Wanted(log, q, k.1) && k.0 == -LastOf(log, k.1).logSeq {
      KeyFromLog(log, tb, q, k);
    }
    WantedListed(log, q, found, ts);
    forall i, j | 0 <= i < j < |ts| ensures LaterTrace(log, ts[i], ts[j]) {
      assert found[i] in found && found[j] in found && KeyLess(found[i], found[j]);
      if ts[i] != ts[j] { LastDiffers(log, ts[i], ts[j]); } else { TextLessIrreflexive(ts[i]); }
    }
  }

  lemma WantedListed(log: seq<Row>, q: PrecedentQuery, found: seq<(int, string)>, ts: seq<string>)
    requires |ts| == |found| && forall i :: 0 <= i < |found| ==> ts[i] == found[i].1
    requires forall k :: k in found <==> Wanted(log, q, k.1) && k.0 == -LastOf(log, k.1).logSeq
    ensures forall t :: t in ts <==> Wanted(log, q, t)
  {
    forall t | t in ts ensures Wanted(log, q, t) {
      var i :| 0 <= i < |ts| && ts[i] == t;
      assert found[i] in found;
    }
    forall t | Wanted(log, q, t) ensures t in ts {
      var k := (-LastOf(log, t).logSeq, t);
      assert k in found;
      var i :| 0 <= i < |found| && found[i] == k;
      assert ts[i] == t;
    }
  }

  // find_precedents, end to end: against the log alone, the hits are the first limit wanted traces by the
  // position of their last event, latest first, each once; and each hit tells of its trace, its version being
  // that of the latest matching exception or, without one, of the latest matching evaluation.
  lemma HitsComeFromTheLog(log: seq<Row>, tb: Tables, q: PrecedentQuery, hits: seq<PrecedentHit>)
    returns (ts: seq<string>)
    requires q.limit > 0 && CaughtUp(log, tb) && Answers(tb, q, hits)
    ensures Ordered(log, q, ts) && |hits| == (if q.limit < |ts| then q.limit else |ts|)
    ensures forall i :: 0 <= i < |hits| ==>
      hits[i].traceId == ts[i] && TraceEvents(log, ts[i]) != [] && HitTells(log, q, hits[i])
  {
    var found := Found(tb, q);
    ts := FoundFromLog(log, tb, q, found);
    forall i | 0 <= i < |hits|
      ensures hits[i].traceId == ts[i] && TraceEvents(log, ts[i]) != [] && HitTells(log, q, hits[i])
    {
      assert ts[i] in ts;
      var h := HitFromLog(log, tb, q, ts[i]);
    }
  }

  // In every reachable state whose cursor has reached the end of the log, the tables are caught up with it.
  lemma ReachableIsCaughtUp(c: Config, moves: seq<Move>)
    requires c.finishLock && PerformAll(c, moves).proj.cursor == |PerformAll(c, moves).log|
    ensures var s := PerformAll(c, moves); CaughtUp(s.log, s.proj.tables) && !Stale(s.log, s.proj.cursor)
  {
    var s := PerformAll(c, moves);
    var n := |s.log|;
    ProjectsExactlyWhenIndexable(c, s.log, n);
    StoreLogSound(c, s.log);
    assert s.log[..n] == s.log;
    LastIsLength(s.log);
  }
}
