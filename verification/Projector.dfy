// SQLiteProjector: the tables of one database, the cursor and tracker in memory, and the transactions that
// keep them together.
module Projector {
  import opened ContextGraph
  import opened Events
  import opened JsonParse
  import opened Log
  import opened Projection
  import opened Replay
  import opened Sqlite
  import opened Wrappers

  // The entries collected so far, followed by those of the rows to come.
  ghost function Joined(entries: seq<Entry>, rest: Result<seq<Entry>, Code>): Result<seq<Entry>, Code> {
    if rest.Err? then rest else Ok(entries + rest.value)
  }

  lemma JoinedMore(entries: seq<Entry>, e: Entry, rest: Result<seq<Entry>, Code>)
    ensures rest.Ok? ==> Joined(entries, Ok([e] + rest.value)) == Joined(entries + [e], rest)
  {
    if rest.Ok? { assert entries + ([e] + rest.value) == entries + [e] + rest.value; }
  }

  // The loop of _build_precedent_index over the trace's rows.
  method CollectEntries(rows: seq<Row>) returns (r: Result<seq<Entry>, Code>)
    ensures r == Entries(rows, NO_ENTITY)
  {
    var entity, entries := NO_ENTITY, [];
    assert rows[0..] == rows && forall es: seq<Entry> :: [] + es == es;
    for i := 0 to |rows|
      invariant Entries(rows, NO_ENTITY) == Joined(entries, Entries(rows[i..], entity))
    {
      var row := rows[i];
      assert rows[i..][0] == row && rows[i..][1..] == rows[i + 1..];
      var payload := Loads(row.payload);
      if payload.None? { return Err(Storage); }
      if IndexesEntity(row.meta.eventType, entity) {
        entity := EntityOf(payload.value);
        continue;
      }
      if Indexed(row.meta.eventType) {
        var entry := EntryOf(row, payload.value, entity);
        if entry.Err? { return Err(entry.error); }
        JoinedMore(entries, entry.value, Entries(rows[i + 1..], entity));
        entries := entries + [entry.value];
      }
    }
    assert rows[|rows|..] == [] && entries + [] == entries;
    return Ok(entries);
  }

  // Putting one entry back undoes a change to that entry.
  lemma Restored(before: map<string, int>, after: map<string, int>, t: string)
    requires after - {t} == before - {t}
    ensures t !in before ==> after - {t} == before
    ensures t in before ==> after[t := before[t]] == before
  {
    forall k | k != t ensures k in after <==> k in before {
      assert k in after <==> k in after - {t};
      assert k in before <==> k in before - {t};
    }
    forall k | k != t && k in before ensures after[k] == before[k] {
      assert (after - {t})[k] == after[k] && (before - {t})[k] == before[k];
    }
  }

  ghost predicate Refuses(sha: string -> string, tracker: map<string, int>, ev: StoredEvent, r: Result<(), Code>) {
    var hash, t := PayloadHash(sha, ev.payload), ev.meta.traceId;
    if hash.Err? then r == Err(SchemaViolation)
    else if hash.value != ev.payloadHash then r == Err(Conflict)
    else if ev.meta.traceSeq != (if t in tracker then tracker[t] else 0) then r == Err(EventSequenceInvalid)
    else true
  }

  lemma BatchSplit(events: seq<StoredEvent>, i: nat, end: nat)
    requires i <= end <= |events|
    ensures events[i..][..end - i] == events[i..end] && events[i..][end - i..] == events[end..]
  {
  }

  class SQLiteProjector {
    const sha: string -> string
    const conn: Connection
    var cursor: int
    var traceSeqTracker: map<string, int>

    ghost function State(): Proj
      reads this, conn
    {
      Proj(conn.tables, cursor, traceSeqTracker)
    }

    // What a new projector holds is what the database says, read when it is made.
    constructor (sha: string -> string, conn: Connection)
      ensures this.sha == sha && this.conn == conn && State() == Reload(conn.log, conn.tables)
    {
      this.sha, this.conn := sha, conn;
      var loaded := if conn.tables.cursor.Some? then conn.tables.cursor.value else 0;
      cursor := loaded;
      traceSeqTracker := if loaded <= 0 then map[] else TrackerOf(Below(conn.log, loaded));
    }

    method InsertEmission(ev: StoredEvent)
      modifies conn`tables
      ensures conn.tables == AddEmission(old(conn.tables), ev)
    {
      var emission := BuildEmission(ev);
      ghost var tb := conn.tables;
      assert emission.nodes[0..] == emission.nodes;
      for i := 0 to |emission.nodes|
        invariant conn.tables == tb.(nodes := conn.tables.nodes)
        invariant AddNodes(conn.tables.nodes, emission.nodes[i..]) == AddNodes(tb.nodes, emission.nodes)
      {
        assert emission.nodes[i..][1..] == emission.nodes[i + 1..];
        conn.tables := conn.tables.(nodes := AddNode(conn.tables.nodes, emission.nodes[i]));
      }
      ghost var tb1 := conn.tables;
      assert emission.edges[0..] == emission.edges;
      for i := 0 to |emission.edges|
        invariant AddEdges(conn.tables, emission.edges[i..], ev) == AddEdges(tb1, emission.edges, ev)
      {
        assert emission.edges[i..][1..] == emission.edges[i + 1..];
        InsertEdge(emission.edges[i], ev);
      }
    }

    // Placeholders for the endpoints first, then the edge.
    method InsertEdge(e: Edge, ev: StoredEvent)
      modifies conn`tables
      ensures conn.tables == AddEdge(old(conn.tables), e, ev)
    {
      conn.tables := conn.tables.(nodes := EnsureNode(conn.tables.nodes, e.fromNodeId, ev));
      conn.tables := conn.tables.(nodes := EnsureNode(conn.tables.nodes, e.toNodeId, ev));
      if e.edgeId !in conn.tables.edges {
        conn.tables := conn.tables.(edges := conn.tables.edges[e.edgeId := e]);
      }
    }

    method BuildPrecedentIndex(t: string) returns (r: Result<(), Code>)
      modifies conn`tables
      ensures var spec := BuildPrecedents(old(conn.tables), conn.log, t);
        if spec.Err? then r == Err(spec.error) else r.Ok? && conn.tables == spec.value
    {
      var collected := CollectEntries(TraceEvents(conn.log, t));
      if collected.Err? { return Err(collected.error); }
      var entries := collected.value;
      conn.tables := DeletePrecedents(conn.tables, t);
      ghost var tb := conn.tables;
      assert entries[0..] == entries;
      for i := 0 to |entries|
        invariant InsertEntries(conn.tables, entries[i..], t) == InsertEntries(tb, entries, t)
      {
        assert entries[i..][1..] == entries[i + 1..];
        var row := BindEntry(entries[i], t);
        if row.Err? { return Err(row.error); }
        if entries[i].sourceEventId in conn.tables.precedents || t !in conn.tables.summaries { return Err(Storage); }
        conn.tables := conn.tables.(precedents := conn.tables.precedents[entries[i].sourceEventId := row.value]);
      }
      return Ok(());
    }

    method HandleFinished(ev: StoredEvent) returns (r: Result<(), Code>)
      modifies conn`tables
      ensures var spec := OnTraceFinished(old(conn.tables), conn.log, ev);
        if spec.Err? then r == Err(spec.error) else r.Ok? && conn.tables == spec.value
    {
      var t := ev.meta.traceId;
      var outcome := Bind(Some(TextOr(ev.payload, "outcome", "success")));
      if outcome.Err? { return Err(outcome.error); }
      if t in conn.tables.summaries {
        var s := conn.tables.summaries[t];
        var row := s.(outcome := outcome.value, finishedAt := Some(ev.meta.occurredAt),
                      eventCount := s.eventCount + 1, lastLogSeq := ev.logSeq);
        conn.tables := conn.tables.(summaries := conn.tables.summaries[t := row]);
      }
      r := BuildPrecedentIndex(t);
    }

    method HandleEvent(ev: StoredEvent) returns (r: Result<(), Code>)
      modifies conn`tables
      ensures var spec := Handle(old(conn.tables), conn.log, ev);
        if spec.Err? then r == Err(spec.error) else r.Ok? && conn.tables == spec.value
    {
      match ev.meta.eventType {
        case TraceFinished =>
          r := HandleFinished(ev);
        case _ =>
          var spec := Handle(conn.tables, conn.log, ev);
          if spec.Err? { return Err(spec.error); }
          conn.tables := spec.value;
          return Ok(());
      }
    }

    // _project_event_in_tx. A fault is the database giving up by the time the cursor is saved.
    method ProjectEventInTx(ev: StoredEvent, faults: set<int>) returns (r: Result<(), Code>)
      modifies this`cursor, this`traceSeqTracker, conn`tables
      ensures var spec := ProjectInTx(sha, old(State()), conn.log, ev, faults);
        if spec.Err? then r == Err(spec.error) else r.Ok? && State() == spec.value
      ensures traceSeqTracker - {ev.meta.traceId} == old(traceSeqTracker) - {ev.meta.traceId}
    {
      var hash := PayloadHash(sha, ev.payload);
      if hash.Err? { return Err(hash.error); }
      if ev.payloadHash != hash.value { return Err(Conflict); }
      var expectedSeq := Expected(traceSeqTracker, ev.meta.traceId);
      if ev.meta.traceSeq != expectedSeq { return Err(EventSequenceInvalid); }
      InsertEmission(ev);
      r := HandleEvent(ev);
      if r.Err? { return; }
      traceSeqTracker := traceSeqTracker[ev.meta.traceId := expectedSeq + 1];
      cursor := ev.logSeq;
      if ev.logSeq in faults { return Err(Storage); }
      conn.tables := conn.tables.(cursor := Some(ev.logSeq));
    }

    // Afterwards either the event is projected or nothing has changed. A payload with another hash is refused,
    // and so is an event that is not the next of its trace.
    method ProjectEvent(ev: StoredEvent, faults: set<int>) returns (r: Result<(), Code>)
      requires conn.saved.None?
      modifies this`cursor, this`traceSeqTracker, conn`tables, conn`saved
      ensures conn.saved.None?
      ensures var spec := ProjectInTx(sha, old(State()), conn.log, ev, faults);
        if spec.Err? then r == Err(spec.error) && State() == old(State()) else r.Ok? && State() == spec.value
      ensures Refuses(sha, old(traceSeqTracker), ev, r)
      ensures r.Ok? ==>
        && ev.logSeq !in faults && cursor == ev.logSeq && conn.tables.cursor == Some(ev.logSeq)
        && traceSeqTracker == old(traceSeqTracker)[ev.meta.traceId := ev.meta.traceSeq + 1]
    {
      var prevCursor, t := cursor, ev.meta.traceId;
      var prevTraceSeq := if t in traceSeqTracker then Some(traceSeqTracker[t]) else None;
      ghost var before := traceSeqTracker;
      conn.Begin();
      r := ProjectEventInTx(ev, faults);
      if r.Ok? {
        conn.Commit();
      } else {
        conn.Rollback();
        cursor := prevCursor;
        Restored(before, traceSeqTracker, t);
        if prevTraceSeq.None? {
          traceSeqTracker := traceSeqTracker - {t};
        } else {
          traceSeqTracker := traceSeqTracker[t := prevTraceSeq.value];
        }
      }
    }

    // All of the events or none.
    method ProjectEventsInTx(events: seq<StoredEvent>, faults: set<int>) returns (r: Result<(), Code>)
      requires conn.saved.None?
      modifies this`cursor, this`traceSeqTracker, conn`tables, conn`saved
      ensures conn.saved.None?
      ensures var spec := ProjectAll(sha, old(State()), conn.log, events, faults);
        if spec.Err? then r == Err(spec.error) && State() == old(State()) else r.Ok? && State() == spec.value
    {
      var prevCursor, prevTracker := cursor, traceSeqTracker;
      ghost var p := State();
      conn.Begin();
      assert events[0..] == events;
      for i := 0 to |events|
        invariant ProjectAll(sha, State(), conn.log, events[i..], faults)
          == ProjectAll(sha, p, conn.log, events, faults)
        invariant conn.saved == Some(p.tables)
      {
        assert events[i..][0] == events[i] && events[i..][1..] == events[i + 1..];
        r := ProjectEventInTx(events[i], faults);
        if r.Err? {
          conn.Rollback();
          cursor, traceSeqTracker := prevCursor, prevTracker;
          return;
        }
      }
      conn.Commit();
      return Ok(());
    }

    // Batch by batch, each in its own transaction, until one fails.
    method ProjectBatches(events: seq<StoredEvent>, size: nat, faults: set<int>) returns (r: Result<(), Code>)
      requires conn.saved.None? && size > 0
      modifies this`cursor, this`traceSeqTracker, conn`tables, conn`saved
      ensures conn.saved.None?
      ensures var spec := Batches(sha, old(State()), conn.log, events, size, faults);
        State() == spec.0 && r == if spec.1.Some? then Err(spec.1.value) else Ok(())
    {
      ghost var p := State();
      var i := 0;
      ghost var rest := events;
      while i < |events|
        invariant 0 <= i && conn.saved.None?
        invariant rest == if i < |events| then events[i..] else []
        invariant Batches(sha, State(), conn.log, rest, size, faults) == Batches(sha, p, conn.log, events, size, faults)
      {
        var end := if i + size < |events| then i + size else |events|;
        BatchSplit(events, i, end);
        BatchesUnfold(sha, State(), conn.log, rest, size, end - i, faults);
        r := ProjectEventsInTx(events[i..end], faults);
        if r.Err? { return; }
        rest := events[end..];
        i := i + size;
      }
      return Ok(());
    }

    // project_events. Without events there are no checks either.
    method ProjectEvents(events: seq<StoredEvent>, batchSize: Option<int>, faults: set<int>)
      returns (r: Result<(), Code>)
      requires conn.saved.None?
      modifies this`cursor, this`traceSeqTracker, conn`tables, conn`saved
      ensures conn.saved.None?
      ensures if events == [] then r.Ok? && State() == old(State())
        else if batchSize.None? then
          var spec := ProjectAll(sha, old(State()), conn.log, events, faults);
          if spec.Err? then r == Err(spec.error) && State() == old(State()) else r.Ok? && State() == spec.value
        else if batchSize.value <= 0 then r == Err(InvalidArgument) && State() == old(State())
        else
          var spec := Batches(sha, old(State()), conn.log, events, batchSize.value, faults);
          State() == spec.0 && r == if spec.1.Some? then Err(spec.1.value) else Ok(())
    {
      if events == [] { return Ok(()); }
      if batchSize.None? {
        r := ProjectEventsInTx(events, faults);
        return;
      }
      if batchSize.value <= 0 { return Err(InvalidArgument); }
      r := ProjectBatches(events, batchSize.value, faults);
    }

    method Rebuild()
      requires conn.saved.None?
      modifies this`cursor, this`traceSeqTracker, conn`tables, conn`saved
      ensures conn.saved.None? && State() == EMPTY
    {
      conn.tables := conn.tables.(edges := map[]);
      conn.tables := conn.tables.(nodes := map[]);
      conn.tables := conn.tables.(precedents := map[]);
      conn.tables := conn.tables.(policyEvals := map[]);
      conn.tables := conn.tables.(summaries := map[]);
      conn.tables := conn.tables.(cursor := None);
      cursor := 0;
      traceSeqTracker := map[];
      conn.Commit();
    }
  }
}
