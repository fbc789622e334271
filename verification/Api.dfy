// DecisionGraph: appending through the store and keeping the projector in step with the log.
module Api {
  import opened Admission
  import opened CatchUp
  import opened DefaultKeys
  import opened Events
  import opened FinishLock
  import opened Json
  import opened Log
  import opened Projection
  import opened Projector
  import opened Replay
  import opened Sqlite
  import opened Wrappers
  import opened Writers

  const DEFAULT_PROJECTION_BATCH_SIZE := 1000

  // _resolve_projection_batch_size, before it is checked
  function Resolved(batchSize: Option<int>): int {
    if batchSize.Some? then batchSize.value else DEFAULT_PROJECTION_BATCH_SIZE
  }

  class DecisionGraph {
    const conn: Connection
    const store: SQLiteEventStore
    const projector: SQLiteProjector

    // The projection is what one pass over the events up to its cursor gives.
    ghost predicate Valid()
      reads this, conn, store, projector
    {
      && store.conn == conn && projector.conn == conn && projector.sha == store.c.sha
      && conn.saved.None?
      && Synced(store.c, Standpoint())
    }

    ghost function Standpoint(): System
      requires projector.conn == conn
      reads this, conn, projector
    {
      System(conn.log, projector.State())
    }

    // Opening a database that was left in step, by this process or another.
    constructor (c: Config, conn: Connection)
      requires conn.saved.None? && Synced(c, System(conn.log, Reload(conn.log, conn.tables)))
      ensures Valid() && this.conn == conn && store.c == c && projector.State() == Reload(conn.log, conn.tables)
      ensures fresh(store) && fresh(projector)
    {
      this.conn := conn;
      store := new SQLiteEventStore(c, conn);
      projector := new SQLiteProjector(c.sha, conn);
    }

    // Other connections commit. The projection, which is of a prefix of the log, stays in step.
    method OthersCommit(others: Others, k: nat)
      requires Valid() && Admissible(store.c, others)
      modifies conn`log
      ensures Valid() && conn.log == Committed(others, k, old(conn.log)) && old(conn.log) <= conn.log
    {
      ghost var before := System(conn.log, projector.State());
      conn.log := Committed(others, k, conn.log);
      Appended(store.c, before, conn.log);
    }

    // The next page of iter_event_batches.
    method NextPage(cursor: nat, until: Option<int>, size: nat) returns (events: seq<StoredEvent>, ghost hi: nat)
      requires Valid() && cursor <= |conn.log| && size > 0
      ensures Readable(conn.log) && PageEnds(|conn.log|, cursor, until, size, hi)
      ensures events == Load(conn.log)[cursor..hi] == Firsts(Pending(conn.log, cursor, until), size)
      ensures events != [] ==> events[|events| - 1].logSeq == hi
    {
      SyncedReads(store.c, System(conn.log, projector.State()));
      hi := PageRange(Load(conn.log), cursor, until, size);
      var listed := store.ListEvents(cursor, until, size);
      events := listed.value;
      if events != [] { LastSeq(conn.log, hi); }
    }

    // The next page while others may commit, before it is read and before it is projected.
    method AwaitPage(cursor: nat, until: Option<int>, size: nat, others: Others, k: nat)
      returns (events: seq<StoredEvent>, ghost hi: nat)
      requires Valid() && Admissible(store.c, others) && cursor == projector.cursor && size > 0
      modifies conn`log
      ensures Valid() && old(conn.log) <= conn.log && Readable(conn.log)
      ensures PageEnds(|conn.log|, cursor, until, size, hi) && events == Load(conn.log)[cursor..hi]
      ensures events != [] ==> events[|events| - 1].logSeq == hi
      ensures Calm(others, k) ==>
        conn.log == old(conn.log) && events == Firsts(Pending(conn.log, cursor, until), size)
    {
      OthersCommit(others, k);
      events, hi := NextPage(cursor, until, size);
      if events == [] { return; }
      ghost var read := conn.log;
      OthersCommit(others, k + 1);
      SyncedReads(store.c, System(conn.log, projector.State()));
      PageStays(read, conn.log, cursor, until, size, hi);
    }

    // Projecting one page, in one transaction.
    method ProjectPage(events: seq<StoredEvent>, ghost hi: nat, ghost size: nat, faults: set<int>)
      returns (r: Result<(), Code>)
      requires Valid() && Readable(conn.log) && 0 <= projector.cursor < hi <= |conn.log|
      requires hi - projector.cursor <= size
      requires events == Load(conn.log)[projector.cursor..hi]
      modifies projector`cursor, projector`traceSeqTracker, conn`tables, conn`saved
      ensures Valid()
      ensures var spec := ProjectAll(projector.sha, old(projector.State()), conn.log, events, faults);
        if spec.Err? then r == Err(spec.error) && projector.State() == old(projector.State())
        else r.Ok? && projector.State() == spec.value && projector.cursor == hi
      ensures r.Err? ==> PageFails(projector.sha, projector.State(), conn.log, size, faults, r.error)
    {
      ghost var p := projector.State();
      r := projector.ProjectEvents(events, None, faults);
      if r.Ok? {
        TransactionKeeps(store.c, conn.log, p, hi, events, faults, projector.State());
      } else {
        FailsAt(projector.sha, p, conn.log, hi, size, faults, r.error);
      }
    }

    // One round of the loop: the events read and projected, none when there is nothing more to read.
    method ProjectNext(cursor: nat, until: Option<int>, size: nat, faults: set<int>, others: Others, k: nat)
      returns (r: Result<seq<StoredEvent>, Code>)
      requires Valid() && Admissible(store.c, others) && cursor == projector.cursor && size > 0
      modifies projector`cursor, projector`traceSeqTracker, conn
      ensures Valid() && old(conn.log) <= conn.log && Readable(conn.log) && cursor <= projector.cursor <= |conn.log|
      ensures r.Ok? ==> Advanced(cursor, Upper(|conn.log|, until), projector.cursor, r.value)
      ensures r.Err? ==> PageFails(projector.sha, projector.State(), conn.log, size, faults, r.error)
      ensures r.Err? || r.value == [] ==> projector.State() == old(projector.State())
      ensures Calm(others, k) ==> conn.log == old(conn.log)
      ensures Calm(others, k) ==>
        Projects(projector.sha, old(projector.State()), conn.log, Firsts(Pending(conn.log, cursor, until), size),
                 faults, projector.State(), r)
    {
      ghost var q := projector.State();
      var events, hi := AwaitPage(cursor, until, size, others, k);
      SyncedReads(store.c, System(conn.log, q));
      PageAdvances(|conn.log|, cursor, until, size, hi, events);
      if events == [] {
        NoneProjects(projector.sha, q, conn.log, faults);
        return Ok([]);
      }
      var done := ProjectPage(events, hi, size, faults);
      return if done.Err? then Err(done.error) else Ok(events);
    }

    // The same, as a step of the whole catch-up.
    method ProjectTracked(cursor: nat, until: Option<int>, size: nat, faults: set<int>, others: Others, k: nat,
                          ghost g: Task, ghost still: bool) returns (r: Result<seq<StoredEvent>, Code>)
      requires Valid() && Admissible(store.c, others) && cursor == projector.cursor && size > 0
      requires g.sha == projector.sha && g.until == until && g.size == size && g.faults == faults
      requires still ==> Calm(others, k)
      modifies projector`cursor, projector`traceSeqTracker, conn
      ensures Valid() && Moved(g, old(Standpoint()), Standpoint(), r, still)
    {
      ghost var s := Standpoint();
      r := ProjectNext(cursor, until, size, faults, others, k);
      if still && OnTrack(g, s) {
        if r.Err? { TrackFails(g, s, r.error); } else { TrackNext(g, s, Standpoint(), r.value); }
      }
    }

    // The loop of _project_event_batches over the store's batches. Others may commit all the while.
    method ProjectPages(until: Option<int>, size: nat, faults: set<int>, others: Others, tick: nat, ghost calm: nat,
                        ghost g: Task) returns (r: Result<nat, Code>)
      requires Valid() && OnTrack(g, Standpoint()) && size > 0
      requires g.sha == projector.sha && g.until == until && g.size == size && g.faults == faults
      requires Admissible(store.c, others) && (until.Some? || Calm(others, calm))
      modifies projector`cursor, projector`traceSeqTracker, conn
      ensures Valid() && Ended(g, old(Standpoint()), Standpoint(), r, Quiet(others))
    {
      var processed: nat, cursor: nat, k: nat := 0, projector.cursor, tick;
      ghost var start, s, quiet := Standpoint(), Standpoint(), Quiet(others);
      SyncedReads(store.c, s);
      GoingStarts(g, s, quiet);
      while true
        invariant Valid() && s == Standpoint() && cursor == projector.cursor
        invariant Going(g, start, s, processed, quiet)
        decreases if until.Some? then until.value - cursor else if k < calm then calm - k else 0, |conn.log| - cursor
      {
        ghost var still := quiet || (until.None? && calm <= k);
        CalmLater(others, calm, k, still);
        var events := ProjectTracked(cursor, until, size, faults, others, k, g, still);
        ghost var s' := Standpoint();
        if events.Err? {
          GoesWrong(g, start, s, s', events.error, processed, quiet, still);
          return Err(events.error);
        }
        GoesOn(g, start, s, s', events, processed, quiet, still);
        s, processed := s', processed + |events.value|;
        if events.value != [] { cursor := events.value[|events.value| - 1].logSeq; }
        if events.value == [] || (until.Some? && cursor >= until.value) {
          GoingEnds(g, start, s, processed, quiet);
          return Ok(processed);
        }
        k := k + 2;
      }
    }

    // _project_event_batches, from where the projector stands. On success the cursor has come to the end of what
    // was to be read; a failure stands at the start of the page that failed. On a log that stands still this is
    // project_events with a batch size.
    method ProjectEventBatches(until: Option<int>, batchSize: Option<int>, faults: set<int>, others: Others, tick: nat,
                               ghost calm: nat) returns (r: Result<nat, Code>)
      requires Valid() && Admissible(store.c, others) && (until.Some? || Calm(others, calm))
      modifies projector`cursor, projector`traceSeqTracker, conn
      ensures Valid() && old(conn.log) <= conn.log && old(projector.cursor) <= projector.cursor
      ensures batchSize.Some? && batchSize.value <= 0 ==>
        r == Err(InvalidArgument) && projector.State() == old(projector.State()) && conn.log == old(conn.log)
      ensures batchSize.None? || batchSize.value > 0 ==>
        Ended(TaskOf(projector.sha, old(projector.State()), old(conn.log), until,
                     if batchSize.None? then 1000 else batchSize.value, faults),
              old(Standpoint()), Standpoint(), r, Quiet(others))
    {
      var size := Resolved(batchSize);
      if size <= 0 { return Err(InvalidArgument); }
      SyncedReads(store.c, Standpoint());
      ghost var g := TaskOf(projector.sha, projector.State(), conn.log, until, size, faults);
      r := ProjectPages(until, size, faults, others, tick, calm, g);
    }

    // Nothing to do if the cursor is already there.
    method ProjectThroughLogSeq(target: int, faults: set<int>, others: Others, tick: nat) returns (r: Result<(), Code>)
      requires Valid() && Admissible(store.c, others)
      modifies projector`cursor, projector`traceSeqTracker, conn
      ensures Valid() && old(conn.log) <= conn.log && old(projector.cursor) <= projector.cursor
      ensures r.Ok? && target <= |conn.log| ==> target <= projector.cursor
      ensures target <= old(projector.cursor) ==>
        r.Ok? && projector.State() == old(projector.State()) && conn.log == old(conn.log)
      ensures Quiet(others) ==> conn.log == old(conn.log)
    {
      if target <= projector.cursor { return Ok(()); }
      var done := ProjectEventBatches(Some(target), Some(DEFAULT_PROJECTION_BATCH_SIZE), faults, others, tick, 0);
      return if done.Err? then Err(done.error) else Ok(());
    }

    // While others commit, too: the cursor comes to the end of the log as it was read last.
    method SyncProjections(batchSize: Option<int>, faults: set<int>, others: Others, ghost calm: nat)
      returns (r: Result<nat, Code>)
      requires Valid() && Admissible(store.c, others) && Calm(others, calm)
      modifies projector`cursor, projector`traceSeqTracker, conn
      ensures Valid() && old(conn.log) <= conn.log && old(projector.cursor) <= projector.cursor
      ensures batchSize.Some? && batchSize.value <= 0 ==>
        r == Err(InvalidArgument) && projector.State() == old(projector.State()) && conn.log == old(conn.log)
      ensures r.Ok? ==> projector.cursor == |conn.log| && r.value == |conn.log| - old(projector.cursor)
      ensures Quiet(others) ==> conn.log == old(conn.log)
    {
      SyncedReads(store.c, System(conn.log, projector.State()));
      r := ProjectEventBatches(None, batchSize, faults, others, 0, calm);
      SyncedReads(store.c, System(conn.log, projector.State()));
    }

    // A replay that succeeds leaves an up-to-date projection exactly as it was, unless the log has grown: then it
    // is up to date with that. A batch size that is not positive is noticed only once the projection has been
    // emptied.
    method ReplayProjections(batchSize: Option<int>, faults: set<int>, others: Others, ghost calm: nat)
      returns (r: Result<(), Code>)
      requires Valid() && Admissible(store.c, others) && Calm(others, calm)
      modifies projector`cursor, projector`traceSeqTracker, conn
      ensures Valid() && old(conn.log) <= conn.log
      ensures batchSize.Some? && batchSize.value <= 0 ==> r == Err(InvalidArgument) && projector.State() == EMPTY
      ensures r.Ok? ==> projector.cursor == |conn.log|
      ensures r.Ok? && conn.log == old(conn.log) && old(projector.cursor) == |conn.log| ==>
        projector.State() == old(projector.State())
      ensures Quiet(others) ==> conn.log == old(conn.log)
    {
      ghost var before := System(conn.log, projector.State());
      projector.Rebuild();
      EmptySynced(store.c, before);
      var done := ProjectEventBatches(None, batchSize, faults, others, 0, calm);
      SyncedReads(store.c, System(conn.log, projector.State()));
      if conn.log == before.log { SyncedUnique(store.c, before, System(conn.log, projector.State())); }
      return if done.Err? then Err(done.error) else Ok(());
    }

    // _append_event: number the envelope, append it, catch up to it, while others commit throughout. However far
    // the log has grown by the time the store is called, the number does not run ahead of the trace. An error
    // while projecting is raised to the caller although the event is in the log; what the cursor and the tables
    // hold stays in step.
    method AppendEvent(traceId: string, eventType: EventType, payload: Value, source: SourceRef, actor: ActorRef,
                       idempotencyKey: Option<string>, correlationId: Option<string>, causationEventId: Option<string>,
                       schemaVersion: int, tags: seq<string>, occurredAt: string, eventId: string, now: string,
                       blame: Constraint, faults: set<int>, others: Others)
      returns (r: Result<StoredEvent, Code>)
      requires Valid() && Admissible(store.c, others)
      modifies projector`cursor, projector`traceSeqTracker, conn
      ensures Valid() && old(projector.cursor) <= projector.cursor
      ensures var n := |Positions(old(conn.log), traceId)|;
        var key := match idempotencyKey
          case Some(given) => given
          case None => TypeName(eventType) + ":" + traceId + ":" + Decimal(n);
        var e := Envelope(Meta(eventId, traceId, n, eventType, occurredAt, source, actor, key, correlationId,
                               causationEventId, schemaVersion), payload, tags);
        && NeverAhead(store.c, old(conn.log), e.meta)
        && Settled(store.c, old(conn.log), e, r, conn.log)
        && (Quiet(others) ==> Replied(store.c, old(conn.log), e, now, r, conn.log))
        && (Quiet(others) && Admits(old(conn.log), e) ==> GrownBy(store.c, old(conn.log), e, now, conn.log))
      ensures r.Ok? ==> r.value.logSeq <= projector.cursor
    {
      var envelope := EnvelopeFor(conn.log, traceId, eventType, payload, source, actor, idempotencyKey, correlationId,
                                  causationEventId, schemaVersion, tags, occurredAt, eventId);
      NumberedIsNeverAhead(store.c, conn.log, envelope.meta);
      NumberCounts(store.c, conn.log, traceId);
      ghost var before := conn.log;
      r := Submit(envelope, now, blame, faults, others);
      if Quiet(others) { AdmittedGrows(store.c, before, envelope, now, r, conn.log); }
    }

    // The envelope appended, and the projection caught up to it.
    method Submit(env: Envelope, now: string, blame: Constraint, faults: set<int>, others: Others)
      returns (r: Result<StoredEvent, Code>)
      requires Valid() && Admissible(store.c, others)
      modifies projector`cursor, projector`traceSeqTracker, conn
      ensures Valid() && old(projector.cursor) <= projector.cursor
      ensures Settled(store.c, old(conn.log), env, r, conn.log)
      ensures Quiet(others) ==> Replied(store.c, old(conn.log), env, now, r, conn.log)
      ensures r.Ok? ==> r.value.logSeq <= projector.cursor
    {
      ghost var before := conn.log;
      r := Store(env, now, blame, others);
      if r.Err? { return; }
      ghost var stored := conn.log;
      var projected := ProjectThroughLogSeq(r.value.logSeq, faults, others, 5);
      SettledLater(store.c, before, env, r, stored, conn.log);
      if projected.Err? { return Err(projected.error); }
    }

    // The store's append_event, and what it means for the projection: nothing.
    method Store(env: Envelope, now: string, blame: Constraint, others: Others) returns (r: Result<StoredEvent, Code>)
      requires Valid() && Admissible(store.c, others)
      modifies conn`log
      ensures Valid()
      ensures Settled(store.c, old(conn.log), env, r, conn.log)
      ensures Quiet(others) ==> Decided(store.c, old(conn.log), env, now, r, conn.log)
    {
      ghost var before := System(conn.log, projector.State());
      r := store.AppendEvent(env, now, blame, others);
      AppendSettles(store.c, before.log, env, now, blame, others, r, conn.log);
      Appended(store.c, before, conn.log);
    }
  }

  // An envelope that is disciplined whatever the log has grown to.
  ghost predicate NeverAhead(c: Config, log: seq<Row>, m: Meta) {
    forall later :: log <= later ==> Disciplined(c, later, m)
  }

  lemma NumberedIsNeverAhead(c: Config, log: seq<Row>, m: Meta)
    requires m.traceSeq == NextSeq(log, m.traceId)
    ensures NeverAhead(c, log, m)
  {
    forall later | log <= later ensures Disciplined(c, later, m) { ApiCallsAreDisciplined(c, log, later, m); }
  }

  lemma SettledLater(c: Config, log: seq<Row>, env: Envelope, r: Result<StoredEvent, Code>, end: seq<Row>,
                     later: seq<Row>)
    requires Settled(c, log, env, r, end) && end <= later && LogOk(c, later)
    ensures Settled(c, log, env, r, later)
    ensures r.Ok? ==> r.value.logSeq <= |later|
  {
    BackedLater(c, end, later, Response(0, env, r));
  }

  // What the caller learns of the store's reply: all of it, unless an error while projecting comes instead.
  ghost predicate Replied(c: Config, log: seq<Row>, e: Envelope, now: string, r: Result<StoredEvent, Code>,
                          end: seq<Row>) {
    exists reply :: Decided(c, log, e, now, reply, end) && (r == reply || (reply.Ok? && r.Err?))
  }

  // An open trace, a type fit for the number, a checked payload, a key nobody holds and a new event id.
  ghost predicate Admits(log: seq<Row>, e: Envelope) {
    && KeyFits(e.meta.idempotencyKey) && PayloadFits(e.meta.eventType, e.payload)
    && NoHolder(log, e) && !Closed(log, e.meta.traceId) && WellNumbered(log, e.meta) && !IdTaken(log, e)
  }

  // A producer that leaves its keys to the library never finds one taken.
  lemma KeylessIsAdmitted(c: Config, log: seq<Row>, e: Envelope)
    requires LogOk(c, log) && HasDefaultKey(e.meta) && PayloadFits(e.meta.eventType, e.payload)
    requires !Closed(log, e.meta.traceId) && WellNumbered(log, e.meta) && !IdTaken(log, e)
    requires forall i :: 0 <= i < |log| && log[i].meta.source.producerId == e.meta.source.producerId ==>
      HasDefaultKey(log[i].meta)
    requires NoNul(e.meta.traceId)
    requires |TypeName(e.meta.eventType)| + |Utf8(e.meta.traceId)| + |Decimal(e.meta.traceSeq)| <= 198
    ensures Admits(log, e)
  {
    DefaultKeyFits(e.meta.eventType, e.meta.traceId, e.meta.traceSeq);
    NewDefaultKeyIsFree(log, e);
  }

  ghost predicate GrownBy(c: Config, log: seq<Row>, e: Envelope, now: string, end: seq<Row>) {
    PayloadHash(c.sha, e.payload).Ok? && Grown(log, e, now, PayloadHash(c.sha, e.payload).value, end)
  }

  lemma AdmittedGrows(c: Config, log: seq<Row>, e: Envelope, now: string, r: Result<StoredEvent, Code>, end: seq<Row>)
    requires Replied(c, log, e, now, r, end)
    ensures Admits(log, e) ==> GrownBy(c, log, e, now, end)
  {
    CanonicalizeAccepts(e.payload);
  }

  lemma NumberCounts(c: Config, log: seq<Row>, t: string)
    requires LogOk(c, log)
    ensures NextSeq(log, t) == |Positions(log, t)|
  {
    NextSeqCounts(log, t);
    PositionsCount(log, t);
  }

  // The envelope _append_event makes, numbered with the trace's next trace_seq.
  function EnvelopeFor(log: seq<Row>, traceId: string, eventType: EventType, payload: Value, source: SourceRef,
                       actor: ActorRef, idempotencyKey: Option<string>, correlationId: Option<string>,
                       causationEventId: Option<string>, schemaVersion: int, tags: seq<string>, occurredAt: string,
                       eventId: string): Envelope
  {
    var n := NextSeq(log, traceId);
    var key := if idempotencyKey.Some? then idempotencyKey.value else DefaultKey(eventType, traceId, n);
    Envelope(
      Meta(eventId, traceId, n, eventType, occurredAt, source, actor, key, correlationId, causationEventId,
           schemaVersion),
      payload, tags)
  }

  lemma Appended(c: Config, s: System, end: seq<Row>)
    requires Synced(c, s) && LogOk(c, end) && s.log <= end
    ensures Synced(c, s.(log := end))
  {
    AppendKeeps(c, s.log, end, s.proj);
  }

  lemma EmptySynced(c: Config, s: System)
    requires Synced(c, s)
    ensures Synced(c, s.(proj := EMPTY))
  {
    MakeKeeps(c, s, Rebuild);
  }

  // Log and cursor determine the projection.
  lemma SyncedUnique(c: Config, a: System, b: System)
    requires Synced(c, a) && Synced(c, b) && a.log == b.log
    ensures a.proj.cursor == b.proj.cursor ==> a.proj == b.proj
  {
  }

  lemma CalmLater(others: Others, calm: nat, k: nat, still: bool)
    requires still ==> Quiet(others) || (calm <= k && Calm(others, calm))
    ensures still ==> Calm(others, k)
  {
  }

  lemma SyncedReads(c: Config, s: System)
    requires Synced(c, s)
    ensures Readable(s.log) && Numbered(s.log) && 0 <= s.proj.cursor <= |s.log|
  {
  }
}
