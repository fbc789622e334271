// Incremental projection agrees with a rebuild: over every log the store can produce and every schedule of
// transactions, rollbacks, crashes and restarts.
module Replay {
  import opened Events
  import opened JsonParse
  import opened Log
  import opened Projection
  import opened Wrappers
  import opened Writers

  // A log the SQLite store can produce, with the finish trigger installed.
  ghost predicate StoreLog(c: Config, log: seq<Row>) {
    c.finishLock && LogOk(c, log)
  }

  ghost predicate Readable(log: seq<Row>) {
    forall i :: 0 <= i < |log| ==> FromRow(log[i]).Ok?
  }

  // list_events over a readable log
  ghost function Load(log: seq<Row>): seq<StoredEvent>
    requires Readable(log)
  {
    seq(|log|, i requires 0 <= i < |log| => FromRow(log[i]).value)
  }

  lemma StoreLogReadable(c: Config, log: seq<Row>)
    requires LogOk(c, log)
    ensures Readable(log)
    ensures |Load(log)| == |log|
    ensures forall i :: 0 <= i < |log| ==>
      Load(log)[i].meta == log[i].meta && Load(log)[i].logSeq == i + 1
  {
    forall i | 0 <= i < |log| ensures FromRow(log[i]).Ok? { assert RowOk(c.sha, log[i]); }
  }

  // ----- the precedent index does not depend on how far the log has grown -----

  lemma {:induction false} TraceEventsAppend(a: seq<Row>, b: seq<Row>, t: string)
    ensures TraceEvents(a + b, t) == TraceEvents(a, t) + TraceEvents(b, t)
  {
    if b == [] {
      assert a + b == a;
    } else {
      var n := |b| - 1;
      assert a + b == a + b[..n] + [b[n]];
      TraceEventsSnoc(a + b[..n], b[n], t);
      TraceEventsAppend(a, b[..n], t);
    }
  }

  lemma {:induction false} EntriesSkip(rows: seq<Row>, entity: Entity)
    requires forall i :: 0 <= i < |rows| ==> rows[i].meta.eventType.TraceFinished? && Loads(rows[i].payload).Some?
    ensures Entries(rows, entity) == Ok([])
    decreases |rows|
  {
    if rows != [] { EntriesSkip(rows[1..], entity); }
  }

  lemma {:induction false} EntriesIgnoreFinishes(rows: seq<Row>, tail: seq<Row>, entity: Entity)
    requires forall i :: 0 <= i < |tail| ==> tail[i].meta.eventType.TraceFinished? && Loads(tail[i].payload).Some?
    ensures Entries(rows + tail, entity) == Entries(rows, entity)
    decreases |rows|
  {
    if rows == [] {
      assert rows + tail == tail;
      EntriesSkip(tail, entity);
    } else {
      assert (rows + tail)[0] == rows[0] && (rows + tail)[1..] == rows[1..] + tail;
      if Loads(rows[0].payload).Some? {
        EntriesIgnoreFinishes(rows[1..], tail, EntityOf(Loads(rows[0].payload).value));
        EntriesIgnoreFinishes(rows[1..], tail, entity);
      }
    }
  }

  lemma RowReadable(c: Config, log: seq<Row>, i: nat)
    requires LogOk(c, log) && i < |log|
    ensures FromRow(log[i]).Ok? && Loads(log[i].payload).Some?
    ensures Loads(log[i].payload) == Some(FromRow(log[i]).value.payload)
  {
    assert RowOk(c.sha, log[i]);
  }

  lemma LaterRow(log: seq<Row>, later: seq<Row>, r: Row) returns (j: nat)
    requires log <= later && r in later[|log|..]
    ensures |log| <= j < |later| && later[j] == r
  {
    var k :| 0 <= k < |later| - |log| && later[|log|..][k] == r;
    j := |log| + k;
  }

  // Whatever a finished trace has gained by later is a further TraceFinished.
  lemma TailFinishes(c: Config, log: seq<Row>, later: seq<Row>, i: nat, r: Row)
    requires StoreLog(c, later) && log <= later
    requires i < |log| && log[i].meta.eventType.TraceFinished?
    requires r in later[|log|..] && r.meta.traceId == log[i].meta.traceId
    ensures r.meta.eventType.TraceFinished? && Loads(r.payload).Some?
  {
    var j := LaterRow(log, later, r);
    assert later[i] == log[i];
    RowReadable(c, later, j);
  }

  ghost predicate SameEntries(log: seq<Row>, later: seq<Row>, t: string) {
    Entries(TraceEvents(later, t), NO_ENTITY) == Entries(TraceEvents(log, t), NO_ENTITY)
  }

  lemma EntriesStable(c: Config, log: seq<Row>, later: seq<Row>, i: nat)
    requires StoreLog(c, later) && log <= later
    requires i < |log| && log[i].meta.eventType.TraceFinished?
    ensures SameEntries(log, later, log[i].meta.traceId)
  {
    var t := log[i].meta.traceId;
    var tail := TraceEvents(later[|log|..], t);
    assert later == log + later[|log|..];
    TraceEventsAppend(log, later[|log|..], t);
    forall k | 0 <= k < |tail| ensures tail[k].meta.eventType.TraceFinished? && Loads(tail[k].payload).Some? {
      assert tail[k] in later[|log|..];
      TailFinishes(c, log, later, i, tail[k]);
    }
    EntriesIgnoreFinishes(TraceEvents(log, t), tail, NO_ENTITY);
  }

  lemma SameEntriesSameIndex(tb: Tables, log: seq<Row>, later: seq<Row>, t: string)
    requires SameEntries(log, later, t)
    ensures BuildPrecedents(tb, later, t) == BuildPrecedents(tb, log, t)
  {
  }

  // The rows of a finished trace are the same however far the log has grown when its finish is projected.
  lemma PrecedentsStable(c: Config, log: seq<Row>, later: seq<Row>, i: nat, tb: Tables)
    requires StoreLog(c, later) && log <= later
    requires i < |log| && log[i].meta.eventType.TraceFinished?
    ensures BuildPrecedents(tb, later, log[i].meta.traceId) == BuildPrecedents(tb, log, log[i].meta.traceId)
  {
    EntriesStable(c, log, later, i);
    SameEntriesSameIndex(tb, log, later, log[i].meta.traceId);
  }

  lemma FinishSame(log: seq<Row>, later: seq<Row>, tb: Tables, ev: StoredEvent)
    requires SameEntries(log, later, ev.meta.traceId)
    ensures OnTraceFinished(tb, later, ev) == OnTraceFinished(tb, log, ev)
  {
    forall tb' ensures BuildPrecedents(tb', later, ev.meta.traceId) == BuildPrecedents(tb', log, ev.meta.traceId) {
      SameEntriesSameIndex(tb', log, later, ev.meta.traceId);
    }
  }

  lemma ApplySame(log: seq<Row>, later: seq<Row>, tb: Tables, ev: StoredEvent)
    requires ev.meta.eventType.TraceFinished? ==> SameEntries(log, later, ev.meta.traceId)
    ensures Apply(tb, later, ev) == Apply(tb, log, ev)
  {
    if ev.meta.eventType.TraceFinished? {
      FinishSame(log, later, AddEmission(tb, ev), ev);
    }
  }

  lemma StepSame(sha: string -> string, p: Proj, log: seq<Row>, later: seq<Row>, ev: StoredEvent, faults: set<int>)
    requires Apply(p.tables, later, ev) == Apply(p.tables, log, ev)
    ensures ProjectInTx(sha, p, later, ev, faults) == ProjectInTx(sha, p, log, ev, faults)
  {
  }

  lemma StepStable(c: Config, log: seq<Row>, later: seq<Row>, i: nat, p: Proj, ev: StoredEvent, faults: set<int>)
    requires StoreLog(c, later) && log <= later && i < |log| && ev.meta == log[i].meta
    ensures ProjectInTx(c.sha, p, later, ev, faults) == ProjectInTx(c.sha, p, log, ev, faults)
  {
    if ev.meta.eventType.TraceFinished? { EntriesStable(c, log, later, i); }
    ApplySame(log, later, p.tables, ev);
    StepSame(c.sha, p, log, later, ev, faults);
  }

  lemma {:induction false} StepsStable(c: Config, log: seq<Row>, later: seq<Row>, a: nat, b: nat, p: Proj,
                                       faults: set<int>)
    requires StoreLog(c, log) && StoreLog(c, later) && log <= later && a <= b <= |log| && Readable(log)
    ensures ProjectAll(c.sha, p, later, Load(log)[a..b], faults) == ProjectAll(c.sha, p, log, Load(log)[a..b], faults)
    decreases b - a
  {
    if a < b {
      StepStable(c, log, later, a, p, Load(log)[a], faults);
      assert Load(log)[a..b][1..] == Load(log)[a + 1..b];
      match ProjectInTx(c.sha, p, log, Load(log)[a], faults)
      case Err(_) =>
      case Ok(p') => StepsStable(c, log, later, a + 1, b, p', faults);
    }
  }

  // ----- one pass over the first n events -----

  ghost function Single(c: Config, log: seq<Row>, n: nat): Result<Proj, Code>
    requires Readable(log) && n <= |log|
  {
    ProjectAll(c.sha, EMPTY, log, Load(log)[..n], {})
  }

  lemma SingleStable(c: Config, log: seq<Row>, later: seq<Row>, n: nat)
    requires StoreLog(c, log) && StoreLog(c, later) && log <= later && n <= |log|
    requires Readable(log) && Readable(later)
    ensures Single(c, later, n) == Single(c, log, n)
  {
    assert Load(later)[..n] == Load(log)[..n];
    StepsStable(c, log, later, 0, n, EMPTY, {});
  }

  // A transaction that got through met none of the faults it was threatened with.
  lemma {:induction false} FaultFree(c: Config, log: seq<Row>, evs: seq<StoredEvent>, p: Proj, faults: set<int>)
    requires ProjectAll(c.sha, p, log, evs, faults).Ok?
    ensures ProjectAll(c.sha, p, log, evs, {}) == ProjectAll(c.sha, p, log, evs, faults)
    decreases |evs|
  {
    if evs != [] {
      var p' := ProjectInTx(c.sha, p, log, evs[0], faults).value;
      assert ProjectInTx(c.sha, p, log, evs[0], {}) == Ok(p');
      FaultFree(c, log, evs[1..], p', faults);
    }
  }

  lemma SingleContinues(c: Config, log: seq<Row>, a: nat, b: nat, p: Proj)
    requires Readable(log) && a <= b <= |log| && Single(c, log, a) == Ok(p)
    ensures Single(c, log, b) == ProjectAll(c.sha, p, log, Load(log)[a..b], {})
  {
    assert Load(log)[..b] == Load(log)[..a] + Load(log)[a..b];
    StepsAppend(c.sha, EMPTY, log, Load(log)[..a], Load(log)[a..b], {});
  }

  lemma LoadNext(log: seq<Row>, n: nat)
    requires Readable(log) && n < |log|
    ensures Load(log)[..n + 1] == Load(log)[..n] + [Load(log)[n]]
  {
  }

  lemma SingleSnoc(c: Config, log: seq<Row>, n: nat)
    requires Readable(log) && n < |log|
    ensures var r := Single(c, log, n);
      Single(c, log, n + 1) == if r.Err? then r else ProjectInTx(c.sha, r.value, log, Load(log)[n], {})
  {
    LoadNext(log, n);
    StepsSnoc(c.sha, EMPTY, log, Load(log)[..n], Load(log)[n], {});
  }

  lemma SingleNone(c: Config, log: seq<Row>)
    requires Readable(log)
    ensures Single(c, log, 0) == Ok(EMPTY)
  {
    assert Load(log)[..0] == [];
  }

  // ----- the tracker and its reload -----

  // SELECT trace_id, MAX(trace_seq) + 1 ... GROUP BY trace_id
  function TrackerOf(rows: seq<Row>): map<string, int> {
    if rows == [] then map[] else
      var m := rows[|rows| - 1].meta;
      var rest := TrackerOf(rows[..|rows| - 1]);
      var next := m.traceSeq + 1;
      rest[m.traceId := if m.traceId in rest && rest[m.traceId] > next then rest[m.traceId] else next]
  }

  // WHERE log_seq <= ?
  function Below(log: seq<Row>, cursor: int): seq<Row> {
    if log == [] then [] else
      var n := |log| - 1;
      Below(log[..n], cursor) + if log[n].logSeq <= cursor then [log[n]] else []
  }

  lemma {:induction false} BelowIsPrefix(log: seq<Row>, n: nat)
    requires Numbered(log) && n <= |log|
    ensures Below(log, n) == log[..n]
  {
    if log != [] {
      var k := |log| - 1;
      if n == |log| {
        BelowAll(log[..k], n);
        assert log[..n] == log[..k] + [log[k]];
      } else {
        BelowIsPrefix(log[..k], n);
        assert log[..k][..n] == log[..n];
      }
    }
  }

  lemma {:induction false} BelowAll(log: seq<Row>, n: nat)
    requires Numbered(log) && |log| <= n
    ensures Below(log, n) == log
  {
    if log != [] {
      var k := |log| - 1;
      BelowAll(log[..k], n);
      assert log == log[..k] + [log[k]];
    }
  }

  // What a new projector reads from the database.
  function Reload(log: seq<Row>, tb: Tables): Proj {
    var cursor := if tb.cursor.Some? then tb.cursor.value else 0;
    Proj(tb, cursor, if cursor <= 0 then map[] else TrackerOf(Below(log, cursor)))
  }

  lemma {:induction false} TrackerCounts(log: seq<Row>, n: nat, t: string)
    requires Sequenced(log) && n <= |log|
    ensures Expected(TrackerOf(log[..n]), t) == |TraceEvents(log[..n], t)|
  {
    if n > 0 {
      assert log[..n][..n - 1] == log[..n - 1];
      TrackerCounts(log, n - 1, t);
      TrackerCounts(log, n - 1, log[n - 1].meta.traceId);
      assert log[n - 1].meta.traceSeq == |TraceEvents(log[..n - 1], log[n - 1].meta.traceId)|;
    }
  }

  lemma TrackerSnoc(log: seq<Row>, n: nat)
    requires Sequenced(log) && 0 < n <= |log|
    ensures TrackerOf(log[..n]) == TrackerOf(log[..n - 1])[log[n - 1].meta.traceId := log[n - 1].meta.traceSeq + 1]
  {
    assert log[..n][..n - 1] == log[..n - 1];
    TrackerCounts(log, n - 1, log[n - 1].meta.traceId);
  }

  // After one pass the cursor stands at n, in memory and in the database, and the tracker is the one a
  // restart would load.
  ghost predicate Stands(log: seq<Row>, n: nat, p: Proj)
    requires n <= |log|
  {
    && p.cursor == n
    && p.tables.cursor == (if n == 0 then None else Some(n))
    && p.tracker == TrackerOf(log[..n])
  }

  // What a step leaves in the cursor and the tracker.
  ghost predicate Stepped(p: Proj, ev: StoredEvent, p': Proj) {
    && p'.cursor == ev.logSeq && p'.tables.cursor == Some(ev.logSeq)
    && ev.meta.traceSeq == Expected(p.tracker, ev.meta.traceId)
    && p'.tracker == p.tracker[ev.meta.traceId := ev.meta.traceSeq + 1]
  }

  lemma StepState(c: Config, p: Proj, log: seq<Row>, ev: StoredEvent, p': Proj)
    requires ProjectInTx(c.sha, p, log, ev, {}) == Ok(p')
    ensures Stepped(p, ev, p')
  {
  }

  lemma StandsNext(log: seq<Row>, n: nat, p: Proj, ev: StoredEvent, p': Proj)
    requires n < |log| && Sequenced(log) && Stands(log, n, p) && ev.meta == log[n].meta && ev.logSeq == n + 1
    requires Stepped(p, ev, p')
    ensures Stands(log, n + 1, p')
  {
    TrackerSnoc(log, n + 1);
  }

  // The step that led to a successful pass.
  lemma LastOfPass(c: Config, log: seq<Row>, n: nat, p': Proj) returns (p: Proj, ev: StoredEvent)
    requires Readable(log) && n < |log| && Single(c, log, n + 1) == Ok(p')
    ensures Single(c, log, n) == Ok(p) && ev == Load(log)[n] && Stepped(p, ev, p')
  {
    SingleSnoc(c, log, n);
    p := Single(c, log, n).value;
    ev := Load(log)[n];
    StepState(c, p, log, ev, p');
  }

  lemma StandsFirst(log: seq<Row>)
    ensures Stands(log, 0, EMPTY)
  {
    assert log[..0] == [];
  }

  lemma EventOf(c: Config, log: seq<Row>, n: nat, ev: StoredEvent)
    requires LogOk(c, log) && Readable(log) && n < |log| && ev == Load(log)[n]
    ensures ev.meta == log[n].meta && ev.logSeq == n + 1
  {
    StoreLogReadable(c, log);
  }

  lemma {:induction false} StandsAt(c: Config, log: seq<Row>, n: nat, p: Proj)
    requires LogOk(c, log) && n <= |log| && Readable(log) && Single(c, log, n) == Ok(p)
    ensures Stands(log, n, p)
  {
    if n == 0 {
      SingleNone(c, log);
      StandsFirst(log);
    } else {
      var before, ev := LastOfPass(c, log, n - 1, p);
      EventOf(c, log, n - 1, ev);
      StandsAt(c, log, n - 1, before);
      StandsNext(log, n - 1, before, ev, p);
    }
  }

  lemma SingleState(c: Config, log: seq<Row>, n: nat)
    requires LogOk(c, log) && n <= |log| && Readable(log) && Single(c, log, n).Ok?
    ensures Stands(log, n, Single(c, log, n).value)
  {
    StandsAt(c, log, n, Single(c, log, n).value);
  }

  // A restart finds exactly the state the uninterrupted projector would hold.
  lemma ReloadIsExact(c: Config, log: seq<Row>, n: nat)
    requires LogOk(c, log) && n <= |log| && Readable(log) && Single(c, log, n).Ok?
    ensures Reload(log, Single(c, log, n).value.tables) == Single(c, log, n).value
  {
    SingleState(c, log, n);
    BelowIsPrefix(log, n);
  }

  // ----- every schedule -----

  datatype System = System(log: seq<Row>, proj: Proj)

  // Append is whatever the store admits; Transaction is project_event or one batch of project_events over the
  // events from the cursor to hi, which may be rolled back; Batched is project_events with a batch size;
  // Restart makes a new projector on the database, as after a crash; Rebuild empties the projection.
  datatype Move =
    | Append(rows: seq<Row>)
    | Transaction(hi: nat, faults: set<int>)
    | Batched(hi: nat, size: nat, faults: set<int>)
    | Restart
    | Rebuild

  // The projector holds what one pass up to its cursor gives.
  ghost predicate InStep(c: Config, log: seq<Row>, p: Proj)
    requires Readable(log)
  {
    0 <= p.cursor <= |log| && Single(c, log, p.cursor) == Ok(p)
  }

  ghost predicate Synced(c: Config, s: System) {
    StoreLog(c, s.log) && Readable(s.log) && InStep(c, s.log, s.proj)
  }

  ghost function Make(c: Config, s: System, m: Move): System {
    match m
    case Append(rows) => if StoreLog(c, s.log + rows) then s.(log := s.log + rows) else s
    case Transaction(hi, faults) =>
      if Readable(s.log) && 0 <= s.proj.cursor <= hi <= |s.log| then
        match ProjectAll(c.sha, s.proj, s.log, Load(s.log)[s.proj.cursor..hi], faults)
        case Err(_) => s
        case Ok(p) => s.(proj := p)
      else s
    case Batched(hi, size, faults) =>
      if Readable(s.log) && 0 <= s.proj.cursor <= hi <= |s.log| && size > 0 then
        s.(proj := Batches(c.sha, s.proj, s.log, Load(s.log)[s.proj.cursor..hi], size, faults).0)
      else s
    case Restart => s.(proj := Reload(s.log, s.proj.tables))
    case Rebuild => s.(proj := EMPTY)
  }

  // A transaction that gets through keeps the projector in step.
  lemma TransactionKeeps(c: Config, log: seq<Row>, p: Proj, hi: nat, evs: seq<StoredEvent>, faults: set<int>, q: Proj)
    requires LogOk(c, log) && Readable(log) && InStep(c, log, p) && p.cursor <= hi <= |log|
    requires evs == Load(log)[p.cursor..hi] && ProjectAll(c.sha, p, log, evs, faults) == Ok(q)
    ensures InStep(c, log, q) && q.cursor == hi
  {
    FaultFree(c, log, evs, p, faults);
    SingleContinues(c, log, p.cursor, hi, p);
    StandsAt(c, log, hi, q);
  }

  lemma BatchesKeep(c: Config, log: seq<Row>, p: Proj, hi: nat, size: nat, evs: seq<StoredEvent>, faults: set<int>)
    returns (r: (Proj, Option<Code>))
    requires LogOk(c, log) && Readable(log) && InStep(c, log, p) && p.cursor <= hi <= |log| && size > 0
    requires evs == Load(log)[p.cursor..hi]
    ensures r == Batches(c.sha, p, log, evs, size, faults)
    ensures InStep(c, log, r.0) && p.cursor <= r.0.cursor && (r.1.None? ==> r.0.cursor == hi)
  {
    var some;
    r, some := BatchesKeepPrefix(c.sha, p, log, evs, size, faults);
    var end := SliceOfSlice(Load(log), p.cursor, hi, evs, some);
    TransactionKeeps(c, log, p, end, some, faults, r.0);
  }

  lemma SliceOfSlice<T>(s: seq<T>, a: nat, b: nat, whole: seq<T>, some: seq<T>) returns (end: nat)
    requires a <= b <= |s| && whole == s[a..b] && some <= whole
    ensures a <= end <= b && some == s[a..end] && (some == whole ==> end == b)
  {
    end := a + |some|;
  }

  lemma AppendKeeps(c: Config, log: seq<Row>, later: seq<Row>, p: Proj)
    requires StoreLog(c, log) && StoreLog(c, later) && log <= later && Readable(log) && InStep(c, log, p)
    ensures Readable(later) && InStep(c, later, p)
  {
    StoreLogReadable(c, later);
    SingleStable(c, log, later, p.cursor);
  }

  lemma TransactionMoves(c: Config, s: System, hi: nat, faults: set<int>)
    requires Synced(c, s)
    ensures Synced(c, Make(c, s, Transaction(hi, faults)))
  {
    if s.proj.cursor <= hi <= |s.log| {
      var evs := Load(s.log)[s.proj.cursor..hi];
      var r := ProjectAll(c.sha, s.proj, s.log, evs, faults);
      if r.Ok? { TransactionKeeps(c, s.log, s.proj, hi, evs, faults, r.value); }
    }
  }

  lemma BatchedMoves(c: Config, s: System, hi: nat, size: nat, faults: set<int>)
    requires Synced(c, s)
    ensures Synced(c, Make(c, s, Batched(hi, size, faults)))
  {
    if s.proj.cursor <= hi <= |s.log| && size > 0 {
      var r := BatchesKeep(c, s.log, s.proj, hi, size, Load(s.log)[s.proj.cursor..hi], faults);
    }
  }

  lemma MakeKeeps(c: Config, s: System, m: Move)
    requires Synced(c, s)
    ensures Synced(c, Make(c, s, m))
  {
    match m
    case Append(rows) =>
      if StoreLog(c, s.log + rows) { AppendKeeps(c, s.log, s.log + rows, s.proj); }
    case Transaction(hi, faults) => TransactionMoves(c, s, hi, faults);
    case Batched(hi, size, faults) => BatchedMoves(c, s, hi, size, faults);
    case Restart => ReloadIsExact(c, s.log, s.proj.cursor);
    case Rebuild => assert Load(s.log)[..0] == [];
  }

  ghost function Perform(c: Config, s: System, moves: seq<Move>): (s': System)
    requires Synced(c, s)
    ensures Synced(c, s')
    decreases |moves|
  {
    if moves == [] then s else
      MakeKeeps(c, s, moves[0]);
      Perform(c, Make(c, s, moves[0]), moves[1..])
  }

  lemma StartSynced(c: Config)
    requires c.finishLock
    ensures Synced(c, System([], EMPTY))
  {
    assert Load([])[..0] == [];
  }

  // A schedule from an empty database.
  ghost function PerformAll(c: Config, moves: seq<Move>): (s: System)
    requires c.finishLock
    ensures Synced(c, s)
  {
    StartSynced(c);
    Perform(c, System([], EMPTY), moves)
  }

  // Whatever the schedule, once the cursor has reached the end of the log the whole projection, tables and
  // memory, is what a rebuild followed by one pass in a single transaction gives.
  lemma EveryScheduleAgreesWithRebuild(c: Config, moves: seq<Move>)
    requires c.finishLock && PerformAll(c, moves).proj.cursor == |PerformAll(c, moves).log|
    ensures var s := PerformAll(c, moves);
      Make(c, Make(c, s, Rebuild), Transaction(|s.log|, {})) == s
  {
    RebuildThenOnePass(c, PerformAll(c, moves));
  }

  lemma FullPass(c: Config, log: seq<Row>, p: Proj)
    requires Readable(log) && InStep(c, log, p) && p.cursor == |log|
    ensures ProjectAll(c.sha, EMPTY, log, Load(log)[0..|log|], {}) == Ok(p)
  {
    assert Load(log)[0..|log|] == Load(log)[..|log|];
  }

  lemma TransactionMakes(c: Config, s: System, hi: nat, p: Proj)
    requires Readable(s.log) && 0 <= s.proj.cursor <= hi <= |s.log|
    requires ProjectAll(c.sha, s.proj, s.log, Load(s.log)[s.proj.cursor..hi], {}) == Ok(p)
    ensures Make(c, s, Transaction(hi, {})) == s.(proj := p)
  {
  }

  lemma RebuildThenOnePass(c: Config, s: System)
    requires Readable(s.log) && InStep(c, s.log, s.proj) && s.proj.cursor == |s.log|
    ensures Make(c, Make(c, s, Rebuild), Transaction(|s.log|, {})) == s
  {
    FullPass(c, s.log, s.proj);
    TransactionMakes(c, s.(proj := EMPTY), |s.log|, s.proj);
  }

  // In every reachable state a new projector on the same database holds the same cursor and tracker.
  lemma EveryRestartIsExact(c: Config, moves: seq<Move>)
    requires c.finishLock
    ensures var s := PerformAll(c, moves); Reload(s.log, s.proj.tables) == s.proj
  {
    var s := PerformAll(c, moves);
    ReloadIsExact(c, s.log, s.proj.cursor);
  }
}
