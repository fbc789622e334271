// What the summary and precedent tables hold, in terms of the log alone, and exactly when projection raises.
module Totality {
  import opened ContextGraph
  import opened Events
  import opened Json
  import opened JsonParse
  import opened Log
  import opened Projection
  import opened Replay
  import opened Wrappers
  import opened Writers

  // ----- reading rows -----

  ghost function PayloadAt(row: Row): Value {
    match Loads(row.payload)
    case Some(p) => p
    case None => Null
  }

  // What the tables rely on: the payload reads back and has the schema of its type.
  ghost predicate Sound(row: Row) {
    Loads(row.payload) == Some(PayloadAt(row)) && SchemaOk(row.meta.eventType, PayloadAt(row))
  }

  ghost predicate AllSound(rows: seq<Row>) {
    forall i :: 0 <= i < |rows| ==> Sound(rows[i])
  }

  lemma RowSound(sha: string -> string, row: Row)
    requires RowOk(sha, row)
    ensures Sound(row)
    ensures FromRow(row).Ok? && FromRow(row).value.payload == PayloadAt(row)
    ensures PayloadHash(sha, PayloadAt(row)) == Ok(row.payloadHash)
  {
  }

  lemma TraceEventsSound(log: seq<Row>, t: string)
    requires AllSound(log)
    ensures AllSound(TraceEvents(log, t))
  {
    var es := TraceEvents(log, t);
    forall i | 0 <= i < |es| ensures Sound(es[i]) {
      assert es[i] in log;
    }
  }

  // The text a schema-checked payload holds under a key.
  ghost function TextAt(d: Value, k: string): string {
    if HasText(d, k) then Get(d, k).value.text else ""
  }

  ghost function RecordAt(d: Value, k: string): Value {
    if HasDict(d, k) then Get(d, k).value else Dict([])
  }

  lemma RecordTexts(p: Value, k: string, a: string, b: string)
    requires HasRecord(p, k, [a, b])
    ensures HasText(RecordAt(p, k), a) && HasText(RecordAt(p, k), b) && RecordAt(p, k) == Sub(p, k)
    ensures Truthy(RecordAt(p, k))
  {
    assert [a, b][0] == a && [a, b][1] == b;
    var d := RecordAt(p, k);
    assert a in Keys(d.fields);
  }

  lemma BindTextAt(d: Value, k: string)
    requires HasText(d, k)
    ensures Get(d, k) == Some(Str(TextAt(d, k))) && Present(d, k) == Get(d, k) && Given(Present(d, k))
    ensures Bind(Get(d, k)) == Ok(Some(TextAt(d, k)))
    ensures BindText(Get(d, k).value) == Ok(TextAt(d, k))
  {
  }

  // ----- trace summaries -----

  // The summary of a trace that has started, from its first event.
  ghost function StartedSummary(row: Row): Summary {
    var p := PayloadAt(row);
    var entity := RecordAt(p, "primary_entity");
    Summary(TextAt(p, "workflow"), TextAt(p, "title"),
      Some(TextAt(entity, "entity_type")), Some(TextAt(entity, "entity_id")),
      None, row.meta.occurredAt, None, 1, row.logSeq)
  }

  ghost function FinishSummary(s: Summary, row: Row): Summary {
    s.(outcome := Some(TextAt(PayloadAt(row), "outcome")), finishedAt := Some(row.meta.occurredAt),
       eventCount := s.eventCount + 1, lastLogSeq := row.logSeq)
  }

  // Only TraceStarted and TraceFinished leave a mark: event_count counts these and nothing else.
  ghost function SummaryOf(rows: seq<Row>): Summary
    requires rows != []
  {
    if |rows| == 1 then StartedSummary(rows[0]) else
      var before := SummaryOf(rows[..|rows| - 1]);
      var last := rows[|rows| - 1];
      if last.meta.eventType.TraceFinished? then FinishSummary(before, last) else before
  }

  ghost predicate SummaryOk(log: seq<Row>, summaries: map<string, Summary>, t: string) {
    && (t in summaries <==> TraceEvents(log, t) != [])
    && (t in summaries ==> summaries[t] == SummaryOf(TraceEvents(log, t)))
  }

  ghost predicate SummariesOk(log: seq<Row>, summaries: map<string, Summary>) {
    && (forall t :: t in summaries <==> TraceEvents(log, t) != [])
    && (forall t :: t in summaries ==> summaries[t] == SummaryOf(TraceEvents(log, t)))
  }

  lemma StartedSummaryBinds(row: Row, ev: StoredEvent)
    requires SchemaOk(TraceStarted, ev.payload)
    requires ev.payload == PayloadAt(row) && ev.meta == row.meta && ev.logSeq == row.logSeq
    ensures NewSummary(ev) == Ok(StartedSummary(row))
  {
    var p := ev.payload;
    RecordTexts(p, "primary_entity", "entity_type", "entity_id");
    BindTextAt(p, "workflow");
    BindTextAt(p, "title");
    BindTextAt(RecordAt(p, "primary_entity"), "entity_type");
    BindTextAt(RecordAt(p, "primary_entity"), "entity_id");
  }

  lemma OtherSummary(log: seq<Row>, row: Row, before: map<string, Summary>, after: map<string, Summary>, u: string)
    requires SummaryOk(log, before, u) && u != row.meta.traceId
    requires (u in after <==> u in before) && (u in before ==> after[u] == before[u])
    ensures SummaryOk(log + [row], after, u)
  {
    TraceEventsSnoc(log, row, u);
    assert TraceEvents(log, u) + [] == TraceEvents(log, u);
  }

  lemma SummaryOfSnoc(es: seq<Row>, row: Row)
    ensures SummaryOf(es + [row]) ==
      if es == [] then StartedSummary(row)
      else if row.meta.eventType.TraceFinished? then FinishSummary(SummaryOf(es), row)
      else SummaryOf(es)
  {
    assert (es + [row])[..|es|] == es;
  }

  lemma SummariesSnoc(log: seq<Row>, row: Row, before: map<string, Summary>, after: map<string, Summary>)
    requires SummariesOk(log, before)
    requires var t := row.meta.traceId;
      if TraceEvents(log, t) == [] then after == before[t := StartedSummary(row)]
      else if row.meta.eventType.TraceFinished? then
        t in before && after == before[t := FinishSummary(before[t], row)]
      else after == before
    ensures SummariesOk(log + [row], after)
  {
    var t := row.meta.traceId;
    TraceEventsSnoc(log, row, t);
    SummaryOfSnoc(TraceEvents(log, t), row);
    forall u
      ensures u in after <==> TraceEvents(log + [row], u) != []
      ensures u in after ==> after[u] == SummaryOf(TraceEvents(log + [row], u))
    {
      assert SummaryOk(log, before, u);
      if u != t { OtherSummary(log, row, before, after, u); }
    }
  }

  // ----- precedent rows -----

  ghost function StartedEntity(rows: seq<Row>): Entity {
    if rows == [] then NO_ENTITY else EntityOf(PayloadAt(rows[0]))
  }

  // The entry of a policy or exception event.
  ghost function EntryAt(row: Row, p: Value, entity: Entity): Entry {
    var policy := RecordAt(p, "policy");
    Entry(row.meta.eventId, row.logSeq, Str(TextAt(policy, "policy_id")), Str(TextAt(policy, "policy_version")),
      if row.meta.eventType.ExceptionRequested? then Some(Str(TextAt(p, "exception_id"))) else None, entity)
  }

  ghost function IndexEntries(rows: seq<Row>, entity: Entity): seq<Entry> {
    if rows == [] then [] else
      (if Indexed(rows[0].meta.eventType) then [EntryAt(rows[0], PayloadAt(rows[0]), entity)] else [])
        + IndexEntries(rows[1..], entity)
  }

  lemma EntryBinds(row: Row, p: Value, entity: Entity)
    requires SchemaOk(row.meta.eventType, p) && Indexed(row.meta.eventType)
    ensures EntryOf(row, p, entity) == Ok(EntryAt(row, p, entity))
  {
    RecordTexts(p, "policy", "policy_id", "policy_version");
    BindTextAt(RecordAt(p, "policy"), "policy_id");
    BindTextAt(RecordAt(p, "policy"), "policy_version");
    if row.meta.eventType.ExceptionRequested? { BindTextAt(p, "exception_id"); }
  }

  lemma {:induction false} EntriesAfterStart(rows: seq<Row>, entity: Entity)
    requires AllSound(rows) && entity.kind.Some?
    ensures Entries(rows, entity) == Ok(IndexEntries(rows, entity))
    decreases |rows|
  {
    if rows != [] {
      assert Sound(rows[0]);
      EntriesAfterStart(rows[1..], entity);
      if Indexed(rows[0].meta.eventType) {
        EntryBinds(rows[0], PayloadAt(rows[0]), entity);
      } else {
        assert [] + IndexEntries(rows[1..], entity) == IndexEntries(rows[1..], entity);
      }
    }
  }

  lemma EntityGiven(p: Value)
    requires SchemaOk(TraceStarted, p)
    ensures var d := RecordAt(p, "primary_entity");
      EntityOf(p) ==
        Entity(Some(Str(TextAt(d, "entity_type"))), Present(d, "system"), Some(Str(TextAt(d, "entity_id"))))
  {
    RecordTexts(p, "primary_entity", "entity_type", "entity_id");
    BindTextAt(RecordAt(p, "primary_entity"), "entity_type");
    BindTextAt(RecordAt(p, "primary_entity"), "entity_id");
  }

  lemma EntriesOfTrace(rows: seq<Row>)
    requires AllSound(rows) && rows != [] && rows[0].meta.eventType.TraceStarted?
    ensures StartedEntity(rows).kind.Some?
    ensures Entries(rows, NO_ENTITY) == Ok(IndexEntries(rows, StartedEntity(rows)))
  {
    assert Sound(rows[0]);
    EntityGiven(PayloadAt(rows[0]));
    EntriesAfterStart(rows[1..], StartedEntity(rows));
    StartedFirst(rows);
    assert [] + IndexEntries(rows[1..], StartedEntity(rows)) == IndexEntries(rows[1..], StartedEntity(rows));
  }

  lemma StartedFirst(rows: seq<Row>)
    requires rows != [] && rows[0].meta.eventType.TraceStarted? && Loads(rows[0].payload).Some?
    ensures Entries(rows, NO_ENTITY) == Entries(rows[1..], StartedEntity(rows))
  {
  }

  // ----- inserting the entries -----

  // An entry whose columns, the entity's system aside, are texts.
  ghost predicate EntryReady(e: Entry) {
    && e.policyId.Str? && e.policyVersion.Str?
    && (e.exceptionId.Some? ==> e.exceptionId.value.Str?)
    && e.entity.kind.Some? && e.entity.kind.value.Str?
    && e.entity.id.Some? && e.entity.id.value.Str?
  }

  ghost function Column(v: Option<Value>): Option<string> {
    match Bind(v)
    case Ok(s) => s
    case Err(_) => None
  }

  // The row such an entry becomes.
  ghost function RowOf(e: Entry, t: string): Precedent
    requires EntryReady(e)
  {
    Precedent(e.logSeq, t, e.policyId.text, e.policyVersion.text, Column(e.exceptionId),
      Some(e.entity.kind.value.text), Column(e.entity.system), Some(e.entity.id.value.text))
  }

  lemma ReadyBinds(e: Entry, t: string)
    requires EntryReady(e)
    ensures BindEntry(e, t).Ok? <==> Bind(e.entity.system).Ok?
    ensures BindEntry(e, t).Ok? ==> BindEntry(e, t) == Ok(RowOf(e, t))
  {
    assert Bind(Some(e.policyId)) == Ok(Some(e.policyId.text));
    assert Bind(Some(e.policyVersion)) == Ok(Some(e.policyVersion.text));
  }

  ghost predicate EntriesReady(es: seq<Entry>, system: Option<Value>) {
    && (forall i :: 0 <= i < |es| ==> EntryReady(es[i]) && es[i].entity.system == system)
    && DistinctSources(es)
  }

  ghost predicate DistinctSources(es: seq<Entry>) {
    forall i, j :: 0 <= i < j < |es| ==> es[i].sourceEventId != es[j].sourceEventId
  }

  // after is before with the rows of es added under new keys.
  ghost predicate Added(before: map<string, Precedent>, es: seq<Entry>, t: string, after: map<string, Precedent>)
    requires forall i :: 0 <= i < |es| ==> EntryReady(es[i])
  {
    && (forall k :: k in before ==> k in after && after[k] == before[k])
    && (forall i :: 0 <= i < |es| ==> es[i].sourceEventId in after && after[es[i].sourceEventId] == RowOf(es[i], t))
    && (forall k :: k in after ==> k in before || exists i :: 0 <= i < |es| && es[i].sourceEventId == k)
  }

  lemma {:induction false} InsertReady(tb: Tables, es: seq<Entry>, t: string, system: Option<Value>)
    requires EntriesReady(es, system) && t in tb.summaries
    requires forall i :: 0 <= i < |es| ==> es[i].sourceEventId !in tb.precedents
    ensures InsertEntries(tb, es, t).Ok? <==> es == [] || Bind(system).Ok?
    ensures InsertEntries(tb, es, t).Ok? ==>
      var tb' := InsertEntries(tb, es, t).value;
      tb' == tb.(precedents := tb'.precedents) && Added(tb.precedents, es, t, tb'.precedents)
    decreases |es|
  {
    if es != [] {
      ReadyBinds(es[0], t);
      if Bind(system).Ok? {
        var tb1 := tb.(precedents := tb.precedents[es[0].sourceEventId := RowOf(es[0], t)]);
        InsertReady(tb1, es[1..], t, system);
        AddedCons(tb.precedents, es, t, InsertEntries(tb1, es[1..], t).value.precedents);
      }
    }
  }

  lemma AddedCons(before: map<string, Precedent>, es: seq<Entry>, t: string, after: map<string, Precedent>)
    requires es != [] && (forall i :: 0 <= i < |es| ==> EntryReady(es[i]))
    requires es[0].sourceEventId !in before
    requires Added(before[es[0].sourceEventId := RowOf(es[0], t)], es[1..], t, after)
    ensures Added(before, es, t, after)
  {
    forall i | 0 <= i < |es|
      ensures es[i].sourceEventId in after && after[es[i].sourceEventId] == RowOf(es[i], t)
    {
      if i > 0 { assert es[1..][i - 1] == es[i]; }
    }
    forall k | k in after && k !in before ensures exists i :: 0 <= i < |es| && es[i].sourceEventId == k {
      if k != es[0].sourceEventId {
        var i :| 0 <= i < |es[1..]| && es[1..][i].sourceEventId == k;
        assert es[i + 1].sourceEventId == k;
      }
    }
  }

  // ----- the entries of a trace -----

  ghost predicate FromIndexed(rows: seq<Row>, entity: Entity, e: Entry) {
    exists i ::
      0 <= i < |rows| && Indexed(rows[i].meta.eventType) && e == EntryAt(rows[i], PayloadAt(rows[i]), entity)
  }

  lemma {:induction false} IndexEntriesCover(rows: seq<Row>, entity: Entity)
    ensures forall i :: 0 <= i < |rows| && Indexed(rows[i].meta.eventType) ==>
      EntryAt(rows[i], PayloadAt(rows[i]), entity) in IndexEntries(rows, entity)
    ensures forall e :: e in IndexEntries(rows, entity) ==> FromIndexed(rows, entity, e)
  {
    if rows != [] {
      var rest := IndexEntries(rows[1..], entity);
      IndexEntriesCover(rows[1..], entity);
      forall i | 0 <= i < |rows| && Indexed(rows[i].meta.eventType)
        ensures EntryAt(rows[i], PayloadAt(rows[i]), entity) in IndexEntries(rows, entity)
      {
        if i > 0 { assert rows[1..][i - 1] == rows[i]; }
      }
      forall e | e in IndexEntries(rows, entity)
        ensures FromIndexed(rows, entity, e)
      {
        if e in rest {
          var i :| 0 <= i < |rows[1..]| && Indexed(rows[1..][i].meta.eventType)
            && e == EntryAt(rows[1..][i], PayloadAt(rows[1..][i]), entity);
          assert rows[i + 1] == rows[1..][i];
        } else {
          assert e == EntryAt(rows[0], PayloadAt(rows[0]), entity);
        }
      }
    }
  }

  lemma {:induction false} IndexEntriesDistinct(rows: seq<Row>, entity: Entity)
    requires DistinctIds(rows)
    ensures DistinctSources(IndexEntries(rows, entity))
  {
    if rows != [] {
      var rest := IndexEntries(rows[1..], entity);
      IndexEntriesDistinct(rows[1..], entity);
      IndexEntriesCover(rows[1..], entity);
      forall i | 0 <= i < |rest| ensures rest[i].sourceEventId != rows[0].meta.eventId {
        assert rest[i] in rest;
        var j :| 0 <= j < |rows[1..]| && rest[i] == EntryAt(rows[1..][j], PayloadAt(rows[1..][j]), entity);
        assert rows[j + 1] == rows[1..][j];
      }
      assert [] + rest == rest;
    }
  }

  lemma {:induction false} TraceEventsDistinct(log: seq<Row>, t: string)
    requires DistinctIds(log)
    ensures DistinctIds(TraceEvents(log, t))
  {
    if log != [] {
      var n := |log| - 1;
      TraceEventsDistinct(log[..n], t);
      var es := TraceEvents(log[..n], t);
      forall i | 0 <= i < |es| ensures es[i].meta.eventId != log[n].meta.eventId {
        assert es[i] in log[..n];
      }
    }
  }

  lemma {:induction false} TraceEventsHave<P, T>(log: seq<Stored<P, T>>, j: nat)
    requires j < |log|
    ensures log[j] in TraceEvents(log, log[j].meta.traceId)
  {
    if j < |log| - 1 { TraceEventsHave(log[..|log| - 1], j); }
  }

  // ----- the precedent table -----

  // The system column of a trace's precedent rows comes from TraceStarted, where no schema check looks at it.
  ghost function SystemValue(log: seq<Row>, t: string): Option<Value> {
    StartedEntity(TraceEvents(log, t)).system
  }

  // Event j has a precedent row once its trace has finished among the first n events.
  ghost predicate Source(log: seq<Row>, n: nat, j: nat)
    requires n <= |log|
  {
    j < |log| && Indexed(log[j].meta.eventType) && Finished(log[..n], log[j].meta.traceId)
  }

  // Its row, from the log alone.
  ghost function PrecedentAt(log: seq<Row>, j: nat): Precedent
    requires j < |log|
  {
    var t := log[j].meta.traceId;
    var p := PayloadAt(log[j]);
    var policy := RecordAt(p, "policy");
    var started := TraceEvents(log, t);
    var entity := if started == [] then Dict([]) else RecordAt(PayloadAt(started[0]), "primary_entity");
    Precedent(log[j].logSeq, t, TextAt(policy, "policy_id"), TextAt(policy, "policy_version"),
      if log[j].meta.eventType.ExceptionRequested? then Some(TextAt(p, "exception_id")) else None,
      Some(TextAt(entity, "entity_type")), Column(Present(entity, "system")), Some(TextAt(entity, "entity_id")))
  }

  ghost predicate HasSources(log: seq<Row>, n: nat, ps: map<string, Precedent>)
    requires n <= |log|
  {
    forall j: nat :: Source(log, n, j) ==>
      log[j].meta.eventId in ps && ps[log[j].meta.eventId] == PrecedentAt(log, j)
  }

  ghost predicate OnlySources(log: seq<Row>, n: nat, ps: map<string, Precedent>)
    requires n <= |log|
  {
    forall k :: k in ps ==> exists j: nat :: Source(log, n, j) && log[j].meta.eventId == k
  }

  ghost predicate PrecedentsOk(log: seq<Row>, n: nat, ps: map<string, Precedent>)
    requires n <= |log|
  {
    HasSources(log, n, ps) && OnlySources(log, n, ps)
  }

  ghost predicate HasIndexed(log: seq<Row>, t: string) {
    exists j :: 0 <= j < |log| && log[j].meta.traceId == t && Indexed(log[j].meta.eventType)
  }

  // A trace can be indexed: SQLite can store the system of its primary entity, if there is a row to store.
  ghost predicate Indexable(log: seq<Row>, t: string) {
    HasIndexed(log, t) ==> Bind(SystemValue(log, t)).Ok?
  }

  // The facts about one started trace of a sound log.
  lemma TraceFacts(log: seq<Row>, t: string)
    requires AllSound(log) && Sequenced(log) && DistinctIds(log) && TraceEvents(log, t) != []
    ensures var rows := TraceEvents(log, t);
      var es := IndexEntries(rows, StartedEntity(rows));
      && rows[0].meta.eventType.TraceStarted? && AllSound(rows)
      && EntriesReady(es, SystemValue(log, t))
      && (es != [] <==> HasIndexed(log, t))
      && Entries(rows, NO_ENTITY) == Ok(es)
  {
    var rows := TraceEvents(log, t);
    var entity := StartedEntity(rows);
    var es := IndexEntries(rows, entity);
    TraceNumbered(log, t);
    TraceEventsSound(log, t);
    assert Sound(rows[0]);
    EntityGiven(PayloadAt(rows[0]));
    EntriesOfTrace(rows);
    TraceEventsDistinct(log, t);
    IndexEntriesDistinct(rows, entity);
    IndexEntriesCover(rows, entity);
    forall i | 0 <= i < |es| ensures EntryReady(es[i]) && es[i].entity.system == SystemValue(log, t) {
      assert es[i] in es;
    }
    IndexedSomewhere(log, t);
  }

  lemma IndexedSomewhere(log: seq<Row>, t: string)
    ensures IndexEntries(TraceEvents(log, t), StartedEntity(TraceEvents(log, t))) != [] <==> HasIndexed(log, t)
  {
    var rows := TraceEvents(log, t);
    var es := IndexEntries(rows, StartedEntity(rows));
    IndexEntriesCover(rows, StartedEntity(rows));
    if es != [] {
      assert es[0] in es;
      var i :| 0 <= i < |rows| && Indexed(rows[i].meta.eventType)
        && es[0] == EntryAt(rows[i], PayloadAt(rows[i]), StartedEntity(rows));
      assert rows[i] in log;
    }
    if HasIndexed(log, t) {
      var j :| 0 <= j < |log| && log[j].meta.traceId == t && Indexed(log[j].meta.eventType);
      TraceEventsHave(log, j);
    }
  }

  // Where an entry of trace t comes from, and what row it becomes.
  lemma EntrySource(log: seq<Row>, t: string, i: nat) returns (j: nat)
    requires AllSound(log) && Sequenced(log) && DistinctIds(log) && TraceEvents(log, t) != []
    requires var rows := TraceEvents(log, t); i < |IndexEntries(rows, StartedEntity(rows))|
    ensures var rows := TraceEvents(log, t);
      var e := IndexEntries(rows, StartedEntity(rows))[i];
      && j < |log| && log[j].meta.traceId == t && Indexed(log[j].meta.eventType)
      && log[j].meta.eventId == e.sourceEventId && EntryReady(e) && RowOf(e, t) == PrecedentAt(log, j)
  {
    var rows := TraceEvents(log, t);
    var es := IndexEntries(rows, StartedEntity(rows));
    TraceFacts(log, t);
    IndexEntriesCover(rows, StartedEntity(rows));
    assert es[i] in es;
    var r :| 0 <= r < |rows| && Indexed(rows[r].meta.eventType)
      && es[i] == EntryAt(rows[r], PayloadAt(rows[r]), StartedEntity(rows));
    assert rows[r] in log;
    j :| 0 <= j < |log| && log[j] == rows[r];
    EntryRow(log, t, j);
  }

  lemma EntryRow(log: seq<Row>, t: string, j: nat)
    requires AllSound(log) && Sequenced(log) && TraceEvents(log, t) != []
    requires j < |log| && log[j].meta.traceId == t && Indexed(log[j].meta.eventType)
    ensures var e := EntryAt(log[j], PayloadAt(log[j]), StartedEntity(TraceEvents(log, t)));
      EntryReady(e) && RowOf(e, t) == PrecedentAt(log, j)
  {
    var rows := TraceEvents(log, t);
    TraceNumbered(log, t);
    TraceEventsSound(log, t);
    assert Sound(rows[0]);
    EntityGiven(PayloadAt(rows[0]));
    var d := RecordAt(PayloadAt(rows[0]), "primary_entity");
    RowOfEntry(log[j], PayloadAt(log[j]), t, TextAt(d, "entity_type"), Present(d, "system"), TextAt(d, "entity_id"));
  }

  lemma RowOfEntry(row: Row, p: Value, t: string, kind: string, system: Option<Value>, id: string)
    ensures var e := EntryAt(row, p, Entity(Some(Str(kind)), system, Some(Str(id))));
      var policy := RecordAt(p, "policy");
      && EntryReady(e)
      && RowOf(e, t) == Precedent(row.logSeq, t, TextAt(policy, "policy_id"), TextAt(policy, "policy_version"),
           if row.meta.eventType.ExceptionRequested? then Some(TextAt(p, "exception_id")) else None,
           Some(kind), Column(system), Some(id))
  {
  }

  // ----- one step -----

  ghost predicate SoundLog(log: seq<Row>) {
    AllSound(log) && Sequenced(log) && DistinctIds(log) && Numbered(log)
  }

  lemma SourceUnique(log: seq<Row>, n: nat, ps: map<string, Precedent>, k: string)
    requires DistinctIds(log) && n <= |log| && PrecedentsOk(log, n, ps) && k in ps
    ensures forall j: nat :: j < |log| && log[j].meta.eventId == k ==> Source(log, n, j) && ps[k] == PrecedentAt(log, j)
  {
    var i: nat :| Source(log, n, i) && log[i].meta.eventId == k;
    assert forall j: nat :: j < |log| && log[j].meta.eventId == k ==> j == i;
  }

  lemma EntriesFresh(log: seq<Row>, n: nat, tb: Tables, t: string)
    requires SoundLog(log) && n <= |log| && PrecedentsOk(log, n, tb.precedents) && TraceEvents(log, t) != []
    ensures var rows := TraceEvents(log, t);
      var es := IndexEntries(rows, StartedEntity(rows));
      forall i :: 0 <= i < |es| ==> es[i].sourceEventId !in DeletePrecedents(tb, t).precedents
  {
    var rows := TraceEvents(log, t);
    var es := IndexEntries(rows, StartedEntity(rows));
    forall i | 0 <= i < |es| ensures es[i].sourceEventId !in DeletePrecedents(tb, t).precedents {
      var j := EntrySource(log, t, i);
      if es[i].sourceEventId in tb.precedents {
        SourceUnique(log, n, tb.precedents, es[i].sourceEventId);
        assert tb.precedents[es[i].sourceEventId] == PrecedentAt(log, j);
      }
    }
  }

  lemma FinishedNext(log: seq<Row>, n: nat, t: string)
    requires n < |log|
    ensures Finished(log[..n + 1], t) <==>
      Finished(log[..n], t) || (log[n].meta.traceId == t && log[n].meta.eventType.TraceFinished?)
  {
    assert log[..n + 1] == log[..n] + [log[n]];
    FinishedSnoc(log[..n], log[n], t);
  }

  // The table after the rows of trace t have been replaced.
  ghost predicate Replaced(log: seq<Row>, n: nat, tb: Tables, t: string, after: map<string, Precedent>) {
    var es := IndexEntries(TraceEvents(log, t), StartedEntity(TraceEvents(log, t)));
    && SoundLog(log) && n < |log| && PrecedentsOk(log, n, tb.precedents)
    && log[n].meta.eventType.TraceFinished? && log[n].meta.traceId == t && TraceEvents(log, t) != []
    && EntriesReady(es, SystemValue(log, t)) && Added(DeletePrecedents(tb, t).precedents, es, t, after)
  }

  lemma ReplacedHas(log: seq<Row>, n: nat, tb: Tables, t: string, after: map<string, Precedent>)
    requires Replaced(log, n, tb, t, after)
    ensures HasSources(log, n + 1, after)
  {
    var rows := TraceEvents(log, t);
    forall j: nat | Source(log, n + 1, j)
      ensures log[j].meta.eventId in after && after[log[j].meta.eventId] == PrecedentAt(log, j)
    {
      FinishedNext(log, n, log[j].meta.traceId);
      if log[j].meta.traceId == t {
        TraceEventsHave(log, j);
        IndexEntriesCover(rows, StartedEntity(rows));
        EntryRow(log, t, j);
        assert EntryAt(log[j], PayloadAt(log[j]), StartedEntity(rows)) in IndexEntries(rows, StartedEntity(rows));
      } else {
        assert Source(log, n, j);
        assert PrecedentAt(log, j).traceId != t;
      }
    }
  }

  lemma ReplacedOnly(log: seq<Row>, n: nat, tb: Tables, t: string, after: map<string, Precedent>)
    requires Replaced(log, n, tb, t, after)
    ensures OnlySources(log, n + 1, after)
  {
    forall k | k in after ensures exists j: nat :: Source(log, n + 1, j) && log[j].meta.eventId == k {
      if k in DeletePrecedents(tb, t).precedents {
        var j: nat :| Source(log, n, j) && log[j].meta.eventId == k;
        FinishedNext(log, n, log[j].meta.traceId);
        assert Source(log, n + 1, j);
      } else {
        var es := IndexEntries(TraceEvents(log, t), StartedEntity(TraceEvents(log, t)));
        var i :| 0 <= i < |es| && es[i].sourceEventId == k;
        var j := EntrySource(log, t, i);
        FinishedNext(log, n, t);
        assert Source(log, n + 1, j);
      }
    }
  }

  lemma BuildExactly(log: seq<Row>, n: nat, tb: Tables)
    requires SoundLog(log) && n < |log| && PrecedentsOk(log, n, tb.precedents)
    requires log[n].meta.eventType.TraceFinished? && TraceEvents(log, log[n].meta.traceId) != []
    requires log[n].meta.traceId in tb.summaries
    ensures var t := log[n].meta.traceId;
      var r := BuildPrecedents(tb, log, t);
      && (r.Ok? <==> Indexable(log, t))
      && (r.Ok? ==> r.value == tb.(precedents := r.value.precedents) && PrecedentsOk(log, n + 1, r.value.precedents))
  {
    var t := log[n].meta.traceId;
    var rows := TraceEvents(log, t);
    var es := IndexEntries(rows, StartedEntity(rows));
    TraceFacts(log, t);
    EntriesFresh(log, n, tb, t);
    InsertReady(DeletePrecedents(tb, t), es, t, SystemValue(log, t));
    var r := BuildPrecedents(tb, log, t);
    assert r == InsertEntries(DeletePrecedents(tb, t), es, t);
    if r.Ok? {
      ReplacedHas(log, n, tb, t, r.value.precedents);
      ReplacedOnly(log, n, tb, t, r.value.precedents);
    }
  }

  lemma PrecedentsStay(log: seq<Row>, n: nat, ps: map<string, Precedent>)
    requires n < |log| && PrecedentsOk(log, n, ps) && !log[n].meta.eventType.TraceFinished?
    ensures PrecedentsOk(log, n + 1, ps)
  {
    forall t { FinishedNext(log, n, t); }
    assert forall j: nat :: Source(log, n + 1, j) <==> Source(log, n, j);
  }

  // ----- the whole projection -----

  ghost predicate TablesOk(log: seq<Row>, n: nat, tb: Tables)
    requires n <= |log|
  {
    SummariesOk(log[..n], tb.summaries) && PrecedentsOk(log, n, tb.precedents)
  }

  // The event a row loads as.
  ghost predicate LoadedFrom(ev: StoredEvent, row: Row) {
    ev.meta == row.meta && ev.logSeq == row.logSeq && ev.payload == PayloadAt(row)
  }

  lemma {:induction false} EdgesKeep(tb: Tables, es: seq<Edge>, ev: StoredEvent)
    ensures var tb' := AddEdges(tb, es, ev);
      tb'.summaries == tb.summaries && tb'.precedents == tb.precedents && tb'.policyEvals == tb.policyEvals
    decreases |es|
  {
    if es != [] { EdgesKeep(AddEdge(tb, es[0], ev), es[1..], ev); }
  }

  lemma EmissionKeeps(tb: Tables, ev: StoredEvent)
    ensures var tb' := AddEmission(tb, ev);
      tb'.summaries == tb.summaries && tb'.precedents == tb.precedents && tb'.policyEvals == tb.policyEvals
  {
    EdgesKeep(tb.(nodes := AddNodes(tb.nodes, Emit(ev).nodes)), Emit(ev).edges, ev);
  }

  // Whether a trace has a summary yet is told by the event's number.
  lemma Known(log: seq<Row>, n: nat, summaries: map<string, Summary>)
    requires Sequenced(log) && n < |log| && SummariesOk(log[..n], summaries)
    ensures log[n].meta.traceId in summaries <==> !log[n].meta.eventType.TraceStarted?
    ensures log[n].meta.traceId in summaries <==> TraceEvents(log[..n], log[n].meta.traceId) != []
  {
    assert log[n].meta.traceSeq == |TraceEvents(log[..n], log[n].meta.traceId)|;
  }

  lemma SummariesNext(log: seq<Row>, n: nat, before: map<string, Summary>, after: map<string, Summary>)
    requires Sequenced(log) && n < |log| && SummariesOk(log[..n], before)
    requires var row := log[n];
      var t := row.meta.traceId;
      if row.meta.eventType.TraceStarted? then after == before[t := StartedSummary(row)]
      else if row.meta.eventType.TraceFinished? then t in before && after == before[t := FinishSummary(before[t], row)]
      else after == before
    ensures SummariesOk(log[..n + 1], after)
  {
    Known(log, n, before);
    SummariesSnoc(log[..n], log[n], before, after);
    PrefixNext(log, n);
  }

  lemma PrefixNext(log: seq<Row>, n: nat)
    requires n < |log|
    ensures log[..n + 1] == log[..n] + [log[n]]
  {
  }

  lemma StartSummary(tb: Tables, row: Row, ev: StoredEvent)
    requires SchemaOk(TraceStarted, ev.payload) && LoadedFrom(ev, row) && ev.meta.traceId !in tb.summaries
    ensures OnTraceStarted(tb, ev) ==
      Ok(tb.(summaries := tb.summaries[ev.meta.traceId := StartedSummary(row)]))
  {
    StartedSummaryBinds(row, ev);
  }

  lemma StartExactly(log: seq<Row>, n: nat, tb: Tables, ev: StoredEvent)
    requires SoundLog(log) && n < |log| && TablesOk(log, n, tb) && LoadedFrom(ev, log[n])
    requires ev.meta.eventType.TraceStarted?
    ensures OnTraceStarted(tb, ev).Ok? && TablesOk(log, n + 1, OnTraceStarted(tb, ev).value)
  {
    assert Sound(log[n]);
    Known(log, n, tb.summaries);
    StartSummary(tb, log[n], ev);
    SummariesNext(log, n, tb.summaries, OnTraceStarted(tb, ev).value.summaries);
    PrecedentsStay(log, n, tb.precedents);
  }

  lemma OtherExactly(log: seq<Row>, n: nat, tb: Tables, ev: StoredEvent)
    requires SoundLog(log) && n < |log| && TablesOk(log, n, tb) && LoadedFrom(ev, log[n])
    requires !ev.meta.eventType.TraceStarted? && !ev.meta.eventType.TraceFinished?
    ensures TablesOk(log, n + 1, tb)
  {
    SummariesNext(log, n, tb.summaries, tb.summaries);
    PrecedentsStay(log, n, tb.precedents);
  }

  lemma PolicyIndexed(tb: Tables, ev: StoredEvent)
    requires SchemaOk(PolicyEvaluated, ev.payload) && ev.meta.traceId in tb.summaries
    ensures var r := OnPolicyEvaluated(tb, ev);
      r.Ok? && r.value.summaries == tb.summaries && r.value.precedents == tb.precedents
  {
    RecordTexts(ev.payload, "policy", "policy_id", "policy_version");
    BindTextAt(RecordAt(ev.payload, "policy"), "policy_id");
    BindTextAt(RecordAt(ev.payload, "policy"), "policy_version");
  }

  lemma PolicyExactly(log: seq<Row>, n: nat, tb: Tables, ev: StoredEvent)
    requires SoundLog(log) && n < |log| && TablesOk(log, n, tb) && LoadedFrom(ev, log[n])
    requires ev.meta.eventType.PolicyEvaluated?
    ensures OnPolicyEvaluated(tb, ev).Ok? && TablesOk(log, n + 1, OnPolicyEvaluated(tb, ev).value)
  {
    assert Sound(log[n]);
    Known(log, n, tb.summaries);
    PolicyIndexed(tb, ev);
    OtherExactly(log, n, tb, ev);
  }

  lemma FinishExactly(log: seq<Row>, n: nat, tb: Tables, ev: StoredEvent)
    requires SoundLog(log) && n < |log| && TablesOk(log, n, tb) && LoadedFrom(ev, log[n])
    requires ev.meta.eventType.TraceFinished?
    ensures var r := OnTraceFinished(tb, log, ev);
      && (r.Ok? <==> Indexable(log, ev.meta.traceId))
      && (r.Ok? ==> TablesOk(log, n + 1, r.value))
  {
    var t := ev.meta.traceId;
    assert Sound(log[n]);
    Known(log, n, tb.summaries);
    TraceEventsHave(log, n);
    var tb' := tb.(summaries := tb.summaries[t := FinishSummary(tb.summaries[t], log[n])]);
    SummariesNext(log, n, tb.summaries, tb'.summaries);
    BuildExactly(log, n, tb');
    OutcomeText(ev.payload);
    FinishBuilds(log, tb, ev, TextAt(ev.payload, "outcome"));
  }

  lemma OutcomeText(p: Value)
    requires SchemaOk(TraceFinished, p)
    ensures Get(p, "outcome") == Some(Str(TextAt(p, "outcome")))
  {
  }

  lemma FinishBuilds(log: seq<Row>, tb: Tables, ev: StoredEvent, outcome: string)
    requires ev.meta.traceId in tb.summaries && Get(ev.payload, "outcome") == Some(Str(outcome))
    ensures var t := ev.meta.traceId;
      var s := tb.summaries[t];
      OnTraceFinished(tb, log, ev) == BuildPrecedents(
        tb.(summaries := tb.summaries[t := s.(outcome := Some(outcome), finishedAt := Some(ev.meta.occurredAt),
                                             eventCount := s.eventCount + 1, lastLogSeq := ev.logSeq)]), log, t)
  {
  }

  // Applying the next event succeeds unless it finishes a trace that cannot be indexed, and keeps the
  // summary and precedent tables what the log says they are.
  lemma ApplyExactly(log: seq<Row>, n: nat, tb: Tables, ev: StoredEvent)
    requires SoundLog(log) && n < |log| && TablesOk(log, n, tb) && LoadedFrom(ev, log[n])
    ensures var r := Apply(tb, log, ev);
      && (r.Ok? <==> (ev.meta.eventType.TraceFinished? ==> Indexable(log, ev.meta.traceId)))
      && (r.Ok? ==> TablesOk(log, n + 1, r.value))
  {
    var tb' := AddEmission(tb, ev);
    EmissionKeeps(tb, ev);
    match ev.meta.eventType
    case TraceStarted => StartExactly(log, n, tb', ev);
    case TraceFinished => FinishExactly(log, n, tb', ev);
    case PolicyEvaluated =>
      PolicyExactly(log, n, tb', ev);
    case _ => OtherExactly(log, n, tb', ev);
  }

  lemma StoreLogSound(c: Config, log: seq<Row>)
    requires LogOk(c, log)
    ensures SoundLog(log)
  {
    forall i | 0 <= i < |log| ensures Sound(log[i]) {
      assert RowOk(c.sha, log[i]);
      RowSound(c.sha, log[i]);
    }
  }

  lemma LoadSound(c: Config, log: seq<Row>, n: nat)
    requires LogOk(c, log) && Readable(log) && n < |log|
    ensures LoadedFrom(Load(log)[n], log[n])
    ensures PayloadHash(c.sha, Load(log)[n].payload) == Ok(Load(log)[n].payloadHash)
  {
    assert RowOk(c.sha, log[n]);
    RowSound(c.sha, log[n]);
  }

  // The hash and sequence checks always pass.
  lemma ChecksPass(sha: string -> string, p: Proj, log: seq<Row>, ev: StoredEvent)
    requires PayloadHash(sha, ev.payload) == Ok(ev.payloadHash)
    requires ev.meta.traceSeq == Expected(p.tracker, ev.meta.traceId)
    ensures ProjectInTx(sha, p, log, ev, {}).Ok? <==> Apply(p.tables, log, ev).Ok?
    ensures ProjectInTx(sha, p, log, ev, {}).Ok? ==>
      ProjectInTx(sha, p, log, ev, {}).value.tables == Apply(p.tables, log, ev).value.(cursor := Some(ev.logSeq))
  {
  }

  lemma StepExactly(c: Config, log: seq<Row>, n: nat, p: Proj)
    requires LogOk(c, log) && Readable(log) && n < |log|
    requires p.tracker == TrackerOf(log[..n]) && TablesOk(log, n, p.tables)
    ensures var r := ProjectInTx(c.sha, p, log, Load(log)[n], {});
      && (r.Ok? <==> (log[n].meta.eventType.TraceFinished? ==> Indexable(log, log[n].meta.traceId)))
      && (r.Ok? ==> TablesOk(log, n + 1, r.value.tables))
  {
    var ev := Load(log)[n];
    StoreLogSound(c, log);
    LoadSound(c, log, n);
    TrackerCounts(log, n, ev.meta.traceId);
    assert log[n].meta.traceSeq == |TraceEvents(log[..n], ev.meta.traceId)|;
    ChecksPass(c.sha, p, log, ev);
    ApplyExactly(log, n, p.tables, ev);
  }

  // Every trace finished among the first n events can be indexed.
  ghost predicate AllIndexable(log: seq<Row>, n: nat)
    requires n <= |log|
  {
    forall i :: 0 <= i < n && log[i].meta.eventType.TraceFinished? ==> Indexable(log, log[i].meta.traceId)
  }

  lemma EmptyTablesOk(log: seq<Row>)
    ensures TablesOk(log, 0, EMPTY_TABLES)
  {
    assert log[..0] == [];
    assert forall t :: TraceEvents(log[..0], t) == [];
    assert SummariesOk(log[..0], map[]);
    assert forall t :: !Finished(log[..0], t);
    assert PrecedentsOk(log, 0, map[]);
  }

  // One event more, after a pass that came to r.
  lemma SingleStep(c: Config, log: seq<Row>, n: nat, r: Result<Proj, Code>) returns (next: Result<Proj, Code>)
    requires LogOk(c, log) && Readable(log) && n < |log| && r == Single(c, log, n)
    requires r.Ok? ==> TablesOk(log, n, r.value.tables)
    ensures next == Single(c, log, n + 1)
    ensures r.Err? ==> next.Err?
    ensures r.Ok? ==>
      && (next.Ok? <==> (log[n].meta.eventType.TraceFinished? ==> Indexable(log, log[n].meta.traceId)))
      && (next.Ok? ==> TablesOk(log, n + 1, next.value.tables))
  {
    next := Single(c, log, n + 1);
    SingleSnoc(c, log, n);
    if r.Ok? {
      SingleState(c, log, n);
      StepExactly(c, log, n, r.value);
    }
  }

  // What a pass over the first n events comes to.
  ghost predicate Comes(log: seq<Row>, n: nat, r: Result<Proj, Code>)
    requires n <= |log|
  {
    (r.Ok? <==> AllIndexable(log, n)) && (r.Ok? ==> TablesOk(log, n, r.value.tables))
  }

  lemma ComesNext(log: seq<Row>, n: nat, r: Result<Proj, Code>, next: Result<Proj, Code>)
    requires n < |log| && Comes(log, n, r)
    requires r.Err? ==> next.Err?
    requires r.Ok? ==>
      && (next.Ok? <==> (log[n].meta.eventType.TraceFinished? ==> Indexable(log, log[n].meta.traceId)))
      && (next.Ok? ==> TablesOk(log, n + 1, next.value.tables))
    ensures Comes(log, n + 1, next)
  {
  }

  lemma PassNone(c: Config, log: seq<Row>) returns (r: Result<Proj, Code>)
    requires Readable(log)
    ensures r == Single(c, log, 0) && Comes(log, 0, r)
  {
    SingleNone(c, log);
    EmptyTablesOk(log);
    r := Ok(EMPTY);
  }

  lemma PassNext(c: Config, log: seq<Row>, n: nat, r: Result<Proj, Code>) returns (next: Result<Proj, Code>)
    requires LogOk(c, log) && Readable(log) && n < |log| && r == Single(c, log, n) && Comes(log, n, r)
    ensures next == Single(c, log, n + 1) && Comes(log, n + 1, next)
  {
    next := SingleStep(c, log, n, r);
    ComesNext(log, n, r, next);
  }

  lemma {:induction false} Upwards(holds: nat -> bool, m: nat, n: nat)
    requires holds(0) && n <= m && forall k: nat :: k < m && holds(k) ==> holds(k + 1)
    ensures holds(n)
  {
    if n > 0 { Upwards(holds, m, n - 1); }
  }

  ghost predicate PassComes(c: Config, log: seq<Row>, n: nat) {
    Readable(log) && n <= |log| && Comes(log, n, Single(c, log, n))
  }

  lemma PassStep(c: Config, log: seq<Row>, n: nat)
    requires LogOk(c, log) && n < |log| && PassComes(c, log, n)
    ensures PassComes(c, log, n + 1)
  {
    var next := PassNext(c, log, n, Single(c, log, n));
  }

  lemma Pass(c: Config, log: seq<Row>, n: nat)
    requires LogOk(c, log) && Readable(log) && n <= |log|
    ensures PassComes(c, log, n)
  {
    var none := PassNone(c, log);
    forall k: nat | k < |log| && PassComes(c, log, k) ensures PassComes(c, log, k + 1) { PassStep(c, log, k); }
    Upwards((k: nat) => PassComes(c, log, k), |log|, n);
  }

  // SQLite has a type for it: it has none for a list, a dict or an integer beyond 64 bits.
  ghost predicate Storable(v: Option<Value>) {
    v.Some? ==>
      && !v.value.List? && !v.value.Tuple? && !v.value.Dict?
      && (v.value.Int? ==> -0x8000_0000_0000_0000 <= v.value.n <= 0x7FFF_FFFF_FFFF_FFFF)
  }

  // The system that event i, a TraceStarted, gives its primary entity is Storable, if an event of its trace needs it.
  ghost predicate SystemStorable(log: seq<Row>, t: string) {
    forall i, j :: 0 <= i < |log| && 0 <= j < |log|
      && log[i].meta.traceId == t && log[i].meta.eventType == TraceStarted
      && log[j].meta.traceId == t
      && (log[j].meta.eventType == PolicyEvaluated || log[j].meta.eventType == ExceptionRequested)
      ==> Storable(SystemOf(PayloadAt(log[i])))
  }

  ghost function SystemOf(p: Value): Option<Value> {
    Get(RecordAt(p, "primary_entity"), "system")
  }

  lemma SystemBinds(p: Value)
    requires SchemaOk(TraceStarted, p)
    ensures Bind(EntityOf(p).system).Ok? <==> Storable(SystemOf(p))
  {
    EntityGiven(p);
  }

  lemma TheStarted(log: seq<Row>, t: string) returns (i: nat)
    requires Sequenced(log) && TraceEvents(log, t) != []
    ensures i < |log| && log[i].meta.traceId == t && log[i].meta.eventType == TraceStarted
    ensures log[i] == TraceEvents(log, t)[0]
    ensures forall k :: 0 <= k < |log| && log[k].meta.traceId == t && log[k].meta.eventType == TraceStarted ==>
      log[k] == log[i]
  {
    var rows := TraceEvents(log, t);
    var first := rows[0];
    assert first in rows;
    TraceNumbered(log, t);
    i :| 0 <= i < |log| && log[i] == first;
    forall k | 0 <= k < |log| && log[k].meta.traceId == t && log[k].meta.eventType == TraceStarted
      ensures log[k] == first
    {
      TraceEventsHave(log, k);
      var m :| 0 <= m < |rows| && rows[m] == log[k];
    }
  }

  lemma SystemStarted(log: seq<Row>, t: string) returns (i: nat)
    requires AllSound(log) && Sequenced(log) && TraceEvents(log, t) != []
    ensures i < |log| && log[i].meta.traceId == t && log[i].meta.eventType == TraceStarted
    ensures Bind(SystemValue(log, t)).Ok? <==> Storable(SystemOf(PayloadAt(log[i])))
    ensures forall k :: 0 <= k < |log| && log[k].meta.traceId == t && log[k].meta.eventType == TraceStarted ==>
      log[k] == log[i]
  {
    i := TheStarted(log, t);
    assert Sound(log[i]);
    SystemBinds(PayloadAt(log[i]));
  }

  lemma IndexableIsStorable(log: seq<Row>, t: string)
    requires AllSound(log) && Sequenced(log) && TraceEvents(log, t) != []
    ensures Indexable(log, t) <==> SystemStorable(log, t)
  {
    var i := SystemStarted(log, t);
  }

  lemma AllIndexableIsStorable(log: seq<Row>, n: nat)
    requires AllSound(log) && Sequenced(log) && n <= |log|
    ensures AllIndexable(log, n) <==>
      forall f :: 0 <= f < n && log[f].meta.eventType == TraceFinished ==> SystemStorable(log, log[f].meta.traceId)
  {
    forall f | 0 <= f < n
      ensures Indexable(log, log[f].meta.traceId) <==> SystemStorable(log, log[f].meta.traceId)
    {
      TraceEventsHave(log, f);
      IndexableIsStorable(log, log[f].meta.traceId);
    }
  }

  // Projecting the first n events in order succeeds if and only if every trace finished among them can be
  // indexed; and then the summary and precedent tables are what the log says they are.
  lemma ProjectsExactlyWhenIndexable(c: Config, log: seq<Row>, n: nat)
    requires LogOk(c, log) && Readable(log) && n <= |log|
    ensures Single(c, log, n).Ok? <==>
      forall f :: 0 <= f < n && log[f].meta.eventType == TraceFinished ==> SystemStorable(log, log[f].meta.traceId)
    ensures Single(c, log, n).Ok? <==> AllIndexable(log, n)
    ensures Single(c, log, n).Ok? ==> TablesOk(log, n, Single(c, log, n).value.tables)
  {
    StoreLogSound(c, log);
    AllIndexableIsStorable(log, n);
    Pass(c, log, n);
  }
}
