// The SQLite database and SQLiteEventStore: append_event statement by statement, with whatever other
// connections commit in between.
module Sqlite {
  import opened Admission
  import opened Events
  import opened FinishLock
  import opened Json
  import opened Log
  import opened Projection
  import opened Replay
  import opened Wrappers
  import opened Writers

  // One SQLite database: the event log, the projection tables, and what ROLLBACK restores.
  class Connection {
    var log: seq<Row>
    var tables: Tables
    var saved: Option<Tables>

    constructor ()
      ensures log == [] && tables == EMPTY_TABLES && saved.None?
    {
      log, tables, saved := [], EMPTY_TABLES, None;
    }

    method Begin()
      modifies this`saved
      ensures saved == Some(tables)
    {
      saved := Some(tables);
    }

    method Commit()
      modifies this`saved
      ensures saved.None?
    {
      saved := None;
    }

    method Rollback()
      modifies this`tables, this`saved
      ensures saved.None? && tables == (if old(saved).Some? then old(saved).value else old(tables))
    {
      if saved.Some? { tables := saved.value; }
      saved := None;
    }
  }

  // Why an INSERT was refused: by the trigger, or by a unique index.
  datatype Refusal = ByTrigger | ByIndex(broken: Constraint)

  function Left(phase: Phase): nat {
    if phase.step.LookAgain? then 0 else StepsLeft(phase.step)
  }

  // What other connections commit, by the time a connection goes on for the k-th time and by the log they find.
  type Others = (nat, seq<Row>) -> seq<Row>

  function Committed(others: Others, k: nat, log: seq<Row>): seq<Row> {
    log + others(k, log)
  }

  // They commit nothing but what the store lets them.
  ghost predicate Admissible(c: Config, others: Others) {
    forall k: nat, log :: LogOk(c, log) ==> LogOk(c, Committed(others, k, log))
  }

  // They commit nothing any more.
  ghost predicate Calm(others: Others, calm: nat) {
    forall k: nat, log :: calm <= k ==> Committed(others, k, log) == log
  }

  // They commit nothing at all.
  ghost predicate Quiet(others: Others) {
    Calm(others, 0)
  }

  // What append_event comes to when others(k, log) is committed just before its k-th statement from here: the
  // steps of Writers.Next, each on the log as it then is.
  function Course(c: Config, log: seq<Row>, phase: Phase, blame: Constraint, others: Others, k: nat)
    : (Result<StoredEvent, Code>, seq<Row>)
    decreases Left(phase)
  {
    var now := log + others(k, log);
    match Next(c, now, phase, blame)
    case Goes(step) => Course(c, now, phase.(step := step), blame, others, k + 1)
    case Replies(r) => (r, now)
    case Inserts =>
      (Ok(ToEvent(phase.env, phase.prepared, |now| + 1)), now + [ToRow(phase.env, phase.prepared, |now| + 1)])
  }

  // A call of append_event, from its arguments to its reply and the log it leaves.
  ghost predicate AppendsAs(c: Config, log: seq<Row>, env: Envelope, now: string, blame: Constraint,
                            others: Others, r: Result<StoredEvent, Code>, end: seq<Row>) {
    var p := Prepare(c.sha, env, now);
    if p.Err? then r == Err(p.error) && end == log
    else (r, end) == Course(c, log, Phase(LookForKey, env, p.value), blame, others, 0)
  }

  // The event already stored under the envelope's key, if it may be reused.
  function Existing(log: seq<Row>, env: Envelope, hash: string): Option<Result<StoredEvent, Code>> {
    match FindKey(log, env.meta)
    case Some(i) => Some(ReuseRow(log[i], env, hash))
    case None => None
  }

  function Refused(c: Config, log: seq<Row>, m: Meta, blame: Constraint): Option<Refusal> {
    if c.finishLock && !m.eventType.TraceFinished? && Finished(log, m.traceId) then Some(ByTrigger)
    else
      match Reported(log, m, blame)
      case Some(b) => Some(ByIndex(b))
      case None => None
  }

  // WHERE log_seq > ? AND log_seq <= ? ORDER BY log_seq ASC
  function Between(log: seq<Row>, since: int, until: Option<int>): seq<Row> {
    if log == [] then [] else
      var n := |log| - 1;
      Between(log[..n], since, until) +
        if log[n].logSeq > since && (until.Some? ==> log[n].logSeq <= until.value) then [log[n]] else []
  }

  // The last position a listing reaches.
  function Upper(n: nat, until: Option<int>): int {
    if until.Some? && until.value < n then until.value else n
  }

  ghost function Slice<T>(s: seq<T>, since: nat, hi: int): seq<T>
    requires hi <= |s|
  {
    if since < hi then s[since..hi] else []
  }

  lemma SliceNext<T>(s: seq<T>, since: nat, until: Option<int>, n: nat)
    requires n == |s| - 1
    ensures Slice(s, since, Upper(|s|, until)) == Slice(s[..n], since, Upper(n, until)) +
      if n + 1 > since && (until.Some? ==> n + 1 <= until.value) then [s[n]] else []
  {
  }

  lemma {:induction false} BetweenIs(log: seq<Row>, since: nat, until: Option<int>)
    requires Numbered(log)
    ensures Between(log, since, until) == Slice(log, since, Upper(|log|, until))
  {
    if log != [] {
      var n := |log| - 1;
      BetweenIs(log[..n], since, until);
      SliceNext(log, since, until, n);
    }
  }

  // LIMIT ?
  function Firsts<T>(s: seq<T>, limit: nat): seq<T> {
    if limit < |s| then s[..limit] else s
  }

  lemma ListedIsSlice(log: seq<Row>, since: nat, until: Option<int>, limit: nat)
    ensures Readable(log) && Numbered(log) ==>
      var rows := Firsts(Between(log, since, until), limit);
      Readable(rows) && Load(rows) == Firsts(Slice(Load(log), since, Upper(|log|, until)), limit)
  {
    if Readable(log) && Numbered(log) {
      BetweenIs(log, since, until);
      var rows := Slice(log, since, Upper(|log|, until));
      LoadSlice(log, since, Upper(|log|, until));
      LoadFirsts(rows, limit);
    }
  }

  lemma LoadSlice(log: seq<Row>, since: nat, hi: int)
    requires Readable(log) && hi <= |log|
    ensures Readable(Slice(log, since, hi)) && Load(Slice(log, since, hi)) == Slice(Load(log), since, hi)
  {
    var part := Slice(log, since, hi);
    forall i | 0 <= i < |part| ensures FromRow(part[i]).Ok? { assert part[i] == log[since + i]; }
    SameLoads(part, Slice(Load(log), since, hi));
  }

  lemma SameLoads(rows: seq<Row>, events: seq<StoredEvent>)
    requires Readable(rows) && |rows| == |events| && forall i :: 0 <= i < |rows| ==> FromRow(rows[i]).value == events[i]
    ensures Load(rows) == events
  {
  }

  lemma LoadFirsts(rows: seq<Row>, limit: nat)
    requires Readable(rows)
    ensures Readable(Firsts(rows, limit)) && Load(Firsts(rows, limit)) == Firsts(Load(rows), limit)
  {
  }

  // [row_to_stored_event(row) for row in rows]
  method LoadRows(rows: seq<Row>) returns (r: Result<seq<StoredEvent>, Code>)
    ensures if Readable(rows) then r == Ok(Load(rows)) else r.Err?
  {
    var events := [];
    for i := 0 to |rows|
      invariant |events| == i && forall j :: 0 <= j < i ==> FromRow(rows[j]) == Ok(events[j])
    {
      var event := FromRow(rows[i]);
      if event.Err? { return Err(event.error); }
      events := events + [event.value];
    }
    assert forall j :: 0 <= j < |rows| ==> FromRow(rows[j]).Ok?;
    assert Readable(rows);
    assert events == Load(rows);
    return Ok(events);
  }

  // Row i holds the envelope's key, and this is its answer, or the error of reading it.
  ghost predicate AnswersFor(log: seq<Row>, env: Envelope, hash: string, r: Result<StoredEvent, Code>, i: nat) {
    && i < |log| && Holds(log[i].meta, env)
    && match FromRow(log[i])
       case Err(code) => r == Err(code)
       case Ok(stored) => HolderAnswers(stored, env, hash, r)
  }

  ghost predicate AHolderAnswers(log: seq<Row>, env: Envelope, hash: string, r: Result<StoredEvent, Code>) {
    exists i: nat :: AnswersFor(log, env, hash, r, i)
  }

  class SQLiteEventStore {
    const c: Config
    const conn: Connection

    constructor (c: Config, conn: Connection)
      ensures this.c == c && this.conn == conn
    {
      this.c, this.conn := c, conn;
    }

    // list_events by log_seq alone
    method ListEvents(since: nat, until: Option<int>, limit: nat) returns (r: Result<seq<StoredEvent>, Code>)
      ensures Readable(conn.log) && Numbered(conn.log) ==>
        r == Ok(Firsts(Slice(Load(conn.log), since, Upper(|conn.log|, until)), limit))
    {
      ListedIsSlice(conn.log, since, until, limit);
      r := LoadRows(Firsts(Between(conn.log, since, until), limit));
    }

    // _check_idempotency
    method CheckIdempotency(env: Envelope, hash: string) returns (r: Option<Result<StoredEvent, Code>>)
      ensures r == Existing(conn.log, env, hash)
      ensures r.None? <==> NoHolder(conn.log, env)
      ensures r.Some? ==> AHolderAnswers(conn.log, env, hash, r.value)
    {
      NoneFound(conn.log, env);
      var found := FindKey(conn.log, env.meta);
      if found.None? { return None; }
      var stored := FromRow(conn.log[found.value]);
      if stored.Err? {
        assert AnswersFor(conn.log, env, hash, Err(stored.error), found.value);
        return Some(Err(stored.error));
      }
      var reused, mismatches := ValidateIdempotentReuse(env, stored.value, hash);
      assert AnswersFor(conn.log, env, hash, reused, found.value);
      return Some(reused);
    }

    // INSERT INTO dg_event_log and commit; log_seq is the rowid.
    method Insert(env: Envelope, prepared: Prepared, blame: Constraint) returns (refusal: Option<Refusal>)
      modifies conn`log
      ensures refusal == Refused(c, old(conn.log), env.meta, blame)
      ensures conn.log ==
        if refusal.None? then old(conn.log) + [ToRow(env, prepared, |old(conn.log)| + 1)] else old(conn.log)
    {
      if c.finishLock && !env.meta.eventType.TraceFinished? && Finished(conn.log, env.meta.traceId) {
        return Some(ByTrigger);
      }
      var broken := Reported(conn.log, env.meta, blame);
      if broken.Some? { return Some(ByIndex(broken.value)); }
      conn.log := conn.log + [ToRow(env, prepared, |conn.log| + 1)];
      return None;
    }

    // The INSERT and what is made of its failure.
    method InsertOrRecover(env: Envelope, prepared: Prepared, blame: Constraint, others: Others)
      returns (r: Result<StoredEvent, Code>)
      modifies conn`log
      ensures (r, conn.log) == Course(c, old(conn.log), Phase(Step.Insert, env, prepared), blame, others, 3)
    {
      conn.log := conn.log + others(3, conn.log);
      var refusal := Insert(env, prepared, blame);
      match refusal {
        case None =>
          return Ok(ToEvent(env, prepared, |conn.log|));
        case Some(ByTrigger) =>
          return Err(Conflict);
        case Some(ByIndex(UniqueKey)) =>
          conn.log := conn.log + others(4, conn.log);
          var existing := CheckIdempotency(env, prepared.payloadHash);
          if existing.Some? { return existing.value; }
          return Err(IdempotencyConflict);
        case Some(ByIndex(UniqueTraceSeq)) =>
          return Err(EventSequenceInvalid);
        case Some(ByIndex(UniqueEventId)) =>
          return Err(Storage);
      }
    }

    method AppendEvent(env: Envelope, now: string, blame: Constraint, others: Others)
      returns (r: Result<StoredEvent, Code>)
      modifies conn`log
      ensures AppendsAs(c, old(conn.log), env, now, blame, others, r, conn.log)
      ensures LogOk(c, old(conn.log)) && Admissible(c, others) && r.Ok? ==>
        SameFields(r.value.meta, r.value.tags, env) && PayloadHash(c.sha, env.payload) == Ok(r.value.payloadHash)
      ensures LogOk(c, old(conn.log)) && Admissible(c, others) && Clashes(c, old(conn.log), env) ==>
        r == Err(IdempotencyConflict) && conn.log == Committed(others, 0, old(conn.log))
      ensures LogOk(c, old(conn.log)) && Quiet(others) ==> Decided(c, old(conn.log), env, now, r, conn.log)
    {
      r := Append(env, now, blame, others);
      AppendFacts(c, old(conn.log), env, now, blame, others, r, conn.log);
    }

    method Append(env: Envelope, now: string, blame: Constraint, others: Others)
      returns (r: Result<StoredEvent, Code>)
      modifies conn`log
      ensures AppendsAs(c, old(conn.log), env, now, blame, others, r, conn.log)
    {
      var prepared;
      match Prepare(c.sha, env, now) {
        case Err(code) => return Err(code);
        case Ok(p) => prepared := p;
      }
      r := CheckAndInsert(env, prepared, blame, others);
    }

    method CheckAndInsert(env: Envelope, prepared: Prepared, blame: Constraint, others: Others)
      returns (r: Result<StoredEvent, Code>)
      modifies conn`log
      ensures (r, conn.log) == Course(c, old(conn.log), Phase(LookForKey, env, prepared), blame, others, 0)
    {
      ghost var log := conn.log;
      conn.log := conn.log + others(0, conn.log);
      var existing := CheckIdempotency(env, prepared.payloadHash);
      if existing.Some? { return existing.value; }
      CourseGoes(c, log, Phase(LookForKey, env, prepared), blame, others, 0);

      log := conn.log;
      conn.log := conn.log + others(1, conn.log);
      if Finished(conn.log, env.meta.traceId) { return Err(Conflict); }
      CourseGoes(c, log, Phase(AskFinished, env, prepared), blame, others, 1);

      log := conn.log;
      conn.log := conn.log + others(2, conn.log);
      var expectedSeq := NextSeq(conn.log, env.meta.traceId);
      if !SequenceOk(env.meta, expectedSeq) { return Err(EventSequenceInvalid); }
      CourseGoes(c, log, Phase(AskNextSeq, env, prepared), blame, others, 2);

      r := InsertOrRecover(env, prepared, blame, others);
    }
  }

  lemma CourseGoes(c: Config, log: seq<Row>, phase: Phase, blame: Constraint, others: Others, k: nat)
    requires Next(c, log + others(k, log), phase, blame).Goes?
    ensures var now := log + others(k, log);
      Course(c, log, phase, blame, others, k) ==
        Course(c, now, phase.(step := Next(c, now, phase, blame).step), blame, others, k + 1)
  {
  }

  // ----- append_event is a writer of the step system -----

  lemma GoesDown(c: Config, log: seq<Row>, phase: Phase, blame: Constraint, step: Step)
    requires Next(c, log, phase, blame) == Goes(step)
    ensures Left(phase.(step := step)) < Left(phase)
  {
  }

  lemma {:induction false} ForeignKeeps(c: Config, s: State, w: nat, acts: seq<Action>)
    requires Foreign(w, acts) && w in s.phases
    ensures var s' := Run(c, s, acts).0; w in s'.phases && s'.phases[w] == s.phases[w] && s.log <= s'.log
    decreases |acts|
  {
    RunExtends(c, s, acts);
    if acts != [] {
      var s1 := Do(c, s, acts[0]).0;
      assert w in s1.phases && s1.phases[w] == s.phases[w];
      ForeignKeeps(c, s1, w, acts[1..]);
    }
  }

  lemma {:induction false} CourseSame(c: Config, log: seq<Row>, phase: Phase, blame: Constraint,
                                      a: Others, b: Others, k: nat)
    requires forall j: nat, l :: j >= k ==> a(j, l) == b(j, l)
    ensures Course(c, log, phase, blame, a, k) == Course(c, log, phase, blame, b, k)
    decreases Left(phase)
  {
    var now := log + a(k, log);
    var next := Next(c, now, phase, blame);
    if next.Goes? { CourseSame(c, now, phase.(step := next.step), blame, a, b, k + 1); }
  }

  // A run that ends in this log, with this reply to writer w last.
  ghost predicate Ends(c: Config, s: State, acts: seq<Action>, reply: Response, log: seq<Row>) {
    var r := Run(c, s, acts);
    r.0.log == log && r.1 != [] && r.1[|r.1| - 1] == reply
  }

  lemma EndsIs(c: Config, s: State, acts: seq<Action>, end: State, rs: seq<Response>, reply: Response, log: seq<Row>)
    requires Run(c, s, acts) == (end, rs) && end.log == log && rs != [] && rs[|rs| - 1] == reply
    ensures Ends(c, s, acts, reply, log)
  {
  }

  lemma EndsAfter(c: Config, s: State, pre: seq<Action>, s1: State, rest: seq<Action>, reply: Response, log: seq<Row>)
    requires Run(c, s, pre).0 == s1 && Ends(c, s1, rest, reply, log)
    ensures Ends(c, s, pre + rest, reply, log)
  {
    var first, last := Run(c, s, pre).1, Run(c, s1, rest);
    RunGoesOn(c, s, pre, s1, first, rest, last.0, last.1);
    LastStays(first, last.1);
    EndsIs(c, s, pre + rest, last.0, first + last.1, reply, log);
  }

  lemma LastStays<T>(a: seq<T>, b: seq<T>)
    requires b != []
    ensures a + b != [] && (a + b)[|a + b| - 1] == b[|b| - 1]
  {
  }

  lemma EndsNow(c: Config, s: State, a: Action, reply: Response, log: seq<Row>)
    requires Do(c, s, a).0.log == log && Do(c, s, a).1 == [reply]
    ensures Ends(c, s, [a], reply, log)
  {
    RunThen(c, s, [], a);
    assert [] + [a] == [a] && [] + Do(c, s, a).1 == Do(c, s, a).1;
  }

  lemma EndsNext(c: Config, s: State, a: Action, s': State, rest: seq<Action>, reply: Response, log: seq<Row>)
    requires Do(c, s, a) == (s', []) && Ends(c, s', rest, reply, log)
    ensures Ends(c, s, [a] + rest, reply, log)
  {
    RunFirst(c, s, a, rest);
    assert [] + Run(c, s', rest).1 == Run(c, s', rest).1;
  }

  // A step that ends the call.
  lemma StepEnds(c: Config, s: State, w: nat, blame: Constraint, others: Others, log: seq<Row>, k: nat)
    returns (reply: Response, end: seq<Row>)
    requires w in s.phases && s.log == log + others(k, log) && !Next(c, s.log, s.phases[w], blame).Goes?
    ensures Course(c, log, s.phases[w], blame, others, k) == (reply.result, end)
    ensures reply.w == w && reply.env == s.phases[w].env && Ends(c, s, [Advance(w, blame)], reply, end)
  {
    var next := Next(c, s.log, s.phases[w], blame);
    var r := Course(c, log, s.phases[w], blame, others, k);
    reply, end := Response(w, s.phases[w].env, r.0), r.1;
    if next.Replies? { RepliesStep(c, s, w, blame); } else { InsertStep(c, s, w, blame); }
    EndsNow(c, s, Advance(w, blame), reply, end);
  }

  // The course of a call that first sees others commit rows and then goes as later says.
  lemma CourseSeesRows(c: Config, log: seq<Row>, phase: Phase, blame: Constraint, k: nat, rows: seq<Row>, next: Phase,
                       later: Others) returns (others: Others)
    requires Next(c, log + rows, phase, blame).Goes?
    requires next == phase.(step := Next(c, log + rows, phase, blame).step)
    ensures Course(c, log, phase, blame, others, k) == Course(c, log + rows, next, blame, later, k + 1)
  {
    others := (j: nat, l: seq<Row>) => if j == k then rows else later(j, l);
    CourseSame(c, log + rows, next, blame, others, later, k + 1);
    CourseGoes(c, log, phase, blame, others, k);
  }

  // What the others have done by the time writer w takes its next step.
  lemma OthersActed(c: Config, s: State, w: nat, acts: seq<Action>) returns (s1: State, rows: seq<Row>)
    requires Foreign(w, acts) && w in s.phases
    ensures s1 == Run(c, s, acts).0 && w in s1.phases && s1.phases[w] == s.phases[w] && s1.log == s.log + rows
  {
    ForeignKeeps(c, s, w, acts);
    s1 := Run(c, s, acts).0;
    rows := s1.log[|s.log|..];
  }

  // Whatever other writers do before each of its statements, append_event's course is a run of the step system
  // in which writer w takes its steps: with the rows those others commit, it ends in the same log and reply.
  lemma {:induction false} CourseIsARun(c: Config, s: State, w: nat, plan: nat -> seq<Action>, blame: Constraint,
                                        k: nat)
    returns (acts: seq<Action>, others: Others, reply: Response, end: seq<Row>)
    requires w in s.phases && forall j: nat :: Foreign(w, plan(j))
    ensures Course(c, s.log, s.phases[w], blame, others, k) == (reply.result, end)
    ensures reply.w == w && reply.env == s.phases[w].env && Ends(c, s, acts, reply, end)
    decreases Left(s.phases[w])
  {
    var s1, rows := OthersActed(c, s, w, plan(k));
    var next := Next(c, s1.log, s1.phases[w], blame);
    var last: seq<Action>;
    if next.Goes? {
      GoesStep(c, s1, w, blame);
      GoesDown(c, s1.log, s1.phases[w], blame, next.step);
      var s2 := Do(c, s1, Advance(w, blame)).0;
      var rest, later;
      rest, later, reply, end := CourseIsARun(c, s2, w, plan, blame, k + 1);
      others := CourseSeesRows(c, s.log, s.phases[w], blame, k, rows, s2.phases[w], later);
      EndsNext(c, s1, Advance(w, blame), s2, rest, reply, end);
      last := [Advance(w, blame)] + rest;
    } else {
      others := (j: nat, l: seq<Row>) => rows;
      reply, end := StepEnds(c, s1, w, blame, others, s.log, k);
      last := [Advance(w, blame)];
    }
    EndsAfter(c, s, plan(k), s1, last, reply, end);
    acts := plan(k) + last;
  }

  // ----- what a call comes to -----

  // A log still in shape that extends the one before, and a reply backed by it.
  ghost predicate Settled(c: Config, log: seq<Row>, env: Envelope, r: Result<StoredEvent, Code>, end: seq<Row>) {
    LogOk(c, end) && log <= end && Backed(c, end, Response(0, env, r))
  }

  lemma {:induction false} StepOkLater(log: seq<Row>, rows: seq<Row>, m: Meta, step: Step)
    requires StepOk(log, m, step)
    ensures StepOk(log + rows, m, step)
  {
    if rows == [] {
      assert log + rows == log;
    } else {
      var n := |rows| - 1;
      StepOkLater(log, rows[..n], m, step);
      StepOkStays(log + rows[..n], rows[n], m, step);
      assert log + rows[..n] + [rows[n]] == log + rows;
    }
  }

  // The log a writer finds at its next statement.
  lemma OthersKeep(c: Config, log: seq<Row>, phase: Phase, others: Others, k: nat) returns (now: seq<Row>)
    requires LogOk(c, log) && PhaseOk(c, log, phase) && Admissible(c, others)
    ensures now == log + others(k, log) && LogOk(c, now) && PhaseOk(c, now, phase)
    ensures log <= now && (Quiet(others) ==> now == log)
  {
    now := Committed(others, k, log);
    StepOkLater(log, others(k, log), phase.env.meta, phase.step);
  }

  lemma GoesOk(c: Config, log: seq<Row>, phase: Phase, step: Step)
    requires PhaseOk(c, log, phase) && StepOk(log, phase.env.meta, step)
    ensures PhaseOk(c, log, phase.(step := step))
  {
  }

  lemma CourseGoesOn(c: Config, log: seq<Row>, phase: Phase, blame: Constraint, others: Others, k: nat,
                     now: seq<Row>) returns (next: Phase)
    requires now == log + others(k, log) && Sequenced(now) && PhaseOk(c, now, phase)
    requires Next(c, now, phase, blame).Goes?
    ensures Course(c, log, phase, blame, others, k) == Course(c, now, next, blame, others, k + 1)
    ensures PhaseOk(c, now, next) && next.env == phase.env && Left(next) < Left(phase)
  {
    var step := Next(c, now, phase, blame).step;
    next := phase.(step := step);
    GoesKeeps(c, now, phase, blame);
    GoesDown(c, now, phase, blame, step);
    GoesOk(c, now, phase, step);
    CourseGoes(c, log, phase, blame, others, k);
  }

  lemma ReplySettles(c: Config, log: seq<Row>, phase: Phase, blame: Constraint) returns (r: Result<StoredEvent, Code>)
    requires LogOk(c, log) && PhaseOk(c, log, phase) && Next(c, log, phase, blame).Replies?
    ensures r == Next(c, log, phase, blame).result && Settled(c, log, phase.env, r, log)
  {
    r := Next(c, log, phase, blame).result;
    PreparedHash(c, log, phase);
    ReuseBacked(c, log, phase, 0, blame);
  }

  lemma InsertSettles(c: Config, log: seq<Row>, phase: Phase, blame: Constraint)
    returns (r: Result<StoredEvent, Code>, end: seq<Row>)
    requires LogOk(c, log) && PhaseOk(c, log, phase) && Next(c, log, phase, blame).Inserts?
    ensures r == Ok(ToEvent(phase.env, phase.prepared, |log| + 1))
    ensures end == log + [ToRow(phase.env, phase.prepared, |log| + 1)] && Settled(c, log, phase.env, r, end)
  {
    var row := ToRow(phase.env, phase.prepared, |log| + 1);
    r, end := Ok(ToEvent(phase.env, phase.prepared, |log| + 1)), log + [row];
    InsertGuards(c, log, phase, blame);
    InsertKeeps(c, log, phase, row);
    InsertBacked(c, log, phase, 0);
  }

  // The statement that ends the call.
  lemma CourseEnds(c: Config, log: seq<Row>, phase: Phase, blame: Constraint, others: Others, k: nat, now: seq<Row>)
    returns (r: Result<StoredEvent, Code>, end: seq<Row>)
    requires now == log + others(k, log) && LogOk(c, now) && PhaseOk(c, now, phase)
    requires !Next(c, now, phase, blame).Goes?
    ensures Course(c, log, phase, blame, others, k) == (r, end)
    ensures Settled(c, now, phase.env, r, end) && |end| <= |now| + 1
  {
    if Next(c, now, phase, blame).Replies? {
      r := ReplySettles(c, now, phase, blame);
      end := now;
    } else {
      r, end := InsertSettles(c, now, phase, blame);
    }
  }

  lemma SettledSince(c: Config, log: seq<Row>, now: seq<Row>, env: Envelope, r: Result<StoredEvent, Code>,
                     end: seq<Row>)
    requires log <= now && Settled(c, now, env, r, end)
    ensures Settled(c, log, env, r, end)
  {
  }

  // One statement: the call goes on from the log it found, or ends.
  lemma CourseStep(c: Config, log: seq<Row>, phase: Phase, blame: Constraint, others: Others, k: nat, now: seq<Row>)
    returns (next: Option<Phase>, r: Result<StoredEvent, Code>, end: seq<Row>)
    requires now == log + others(k, log) && LogOk(c, now) && PhaseOk(c, now, phase)
    ensures next.Some? ==>
      && Course(c, log, phase, blame, others, k) == Course(c, now, next.value, blame, others, k + 1)
      && PhaseOk(c, now, next.value) && next.value.env == phase.env && Left(next.value) < Left(phase)
    ensures next.None? ==>
      && Course(c, log, phase, blame, others, k) == (r, end)
      && Settled(c, now, phase.env, r, end) && |end| <= |now| + 1
  {
    next := None;
    if Next(c, now, phase, blame).Goes? {
      var phase' := CourseGoesOn(c, log, phase, blame, others, k, now);
      return Some(phase'), Err(Storage), now;
    }
    r, end := CourseEnds(c, log, phase, blame, others, k, now);
  }

  lemma {:induction false} CourseSettles(c: Config, log: seq<Row>, phase: Phase, blame: Constraint, others: Others,
                                         k: nat) returns (r: Result<StoredEvent, Code>, end: seq<Row>)
    requires LogOk(c, log) && PhaseOk(c, log, phase) && Admissible(c, others)
    ensures Course(c, log, phase, blame, others, k) == (r, end) && Settled(c, log, phase.env, r, end)
    ensures Quiet(others) ==> |end| <= |log| + 1
    decreases Left(phase)
  {
    var now := OthersKeep(c, log, phase, others, k);
    var next;
    next, r, end := CourseStep(c, log, phase, blame, others, k, now);
    if next.Some? { r, end := CourseSettles(c, now, next.value, blame, others, k + 1); }
    SettledSince(c, log, now, phase.env, r, end);
  }

  // append_event among any others: the log keeps its shape and only grows, a success names a row of it that is
  // the same submission; and with nobody else around the log grows by at most one row.
  lemma AppendSettles(c: Config, log: seq<Row>, env: Envelope, now: string, blame: Constraint, others: Others,
                      r: Result<StoredEvent, Code>, end: seq<Row>)
    requires LogOk(c, log) && Admissible(c, others) && AppendsAs(c, log, env, now, blame, others, r, end)
    ensures Settled(c, log, env, r, end)
    ensures Quiet(others) ==> |end| <= |log| + 1
  {
    var p := Prepare(c.sha, env, now);
    if p.Ok? {
      FirstPhase(c, log, env, now, p.value);
      var r', end' := CourseSettles(c, log, Phase(LookForKey, env, p.value), blame, others, 0);
    }
  }

  lemma FirstPhase(c: Config, log: seq<Row>, env: Envelope, now: string, p: Prepared)
    requires Prepare(c.sha, env, now) == Ok(p)
    ensures PhaseOk(c, log, Phase(LookForKey, env, p))
  {
    assert p.recordedAt == now;
  }

  // ----- the answers, from the envelope and the log alone -----

  // The envelope is admitted, but its key is held by a row it does not agree with.
  ghost predicate Clashes(c: Config, log: seq<Row>, e: Envelope) {
    && KeyFits(e.meta.idempotencyKey) && PayloadFits(e.meta.eventType, e.payload)
    && exists i :: 0 <= i < |log| && Holds(log[i].meta, e) && Differs(c, log[i], e)
  }

  ghost predicate Differs(c: Config, row: Row, e: Envelope) {
    FromRow(row).Ok? &&
    (Ok(row.payloadHash) != PayloadHash(c.sha, e.payload) || !SameFields(row.meta, FromRow(row).value.tags, e))
  }

  ghost predicate IdTaken(log: seq<Row>, e: Envelope) {
    exists i :: 0 <= i < |log| && log[i].meta.eventId == e.meta.eventId
  }

  // The reply is the envelope as the next event, and the log has grown by it.
  ghost predicate Taken(log: seq<Row>, e: Envelope, now: string, hash: string, r: Result<StoredEvent, Code>,
                        end: seq<Row>) {
    r == Ok(Stored(|log| + 1, now, e.meta, e.payload, hash, e.tags)) && Grown(log, e, now, hash, end)
  }

  ghost predicate Grown(log: seq<Row>, e: Envelope, now: string, hash: string, end: seq<Row>) {
    && |end| == |log| + 1 && log <= end
    && end[|log|].meta == e.meta
    && FromRow(end[|log|]) == Ok(Stored(|log| + 1, now, e.meta, Norm(e.payload), hash, e.tags))
  }

  // append_event's answer when nobody else commits.
  ghost predicate Decided(c: Config, log: seq<Row>, e: Envelope, now: string, r: Result<StoredEvent, Code>,
                          end: seq<Row>) {
    if !KeyFits(e.meta.idempotencyKey) then r == Err(InvalidArgument) && end == log
    else if !PayloadFits(e.meta.eventType, e.payload) || PayloadHash(c.sha, e.payload).Err? then
      r == Err(SchemaViolation) && end == log
    else
      var hash := PayloadHash(c.sha, e.payload).value;
      && (forall i :: 0 <= i < |log| && Holds(log[i].meta, e) ==>
            FromRow(log[i]).Ok? && end == log && HolderAnswers(FromRow(log[i]).value, e, hash, r))
      && (NoHolder(log, e) ==>
            if Closed(log, e.meta.traceId) then r == Err(Conflict) && end == log
            else if !WellNumbered(log, e.meta) then r == Err(EventSequenceInvalid) && end == log
            else if IdTaken(log, e) then r == Err(Storage) && end == log
            else Taken(log, e, now, hash, r, end))
  }

  lemma BackedFields(c: Config, log: seq<Row>, r: Response)
    requires Backed(c, log, r) && r.result.Ok?
    ensures SameFields(r.result.value.meta, r.result.value.tags, r.env)
    ensures PayloadHash(c.sha, r.env.payload) == Ok(r.result.value.payloadHash)
  {
    var row := log[r.result.value.logSeq - 1];
    assert FromRow(row).value.meta == row.meta;
  }

  lemma QuietNow(others: Others, k: nat, log: seq<Row>)
    requires Quiet(others)
    ensures log + others(k, log) == log
  {
    assert Committed(others, k, log) == log;
  }

  // A statement with nobody else around.
  lemma QuietStep(c: Config, log: seq<Row>, phase: Phase, blame: Constraint, others: Others, k: nat)
    requires Quiet(others)
    ensures var r := Course(c, log, phase, blame, others, k);
      match Next(c, log, phase, blame)
      case Goes(step) => r == Course(c, log, phase.(step := step), blame, others, k + 1)
      case Replies(reply) => r == (reply, log)
      case Inserts => r == (Ok(ToEvent(phase.env, phase.prepared, |log| + 1)),
                            log + [ToRow(phase.env, phase.prepared, |log| + 1)])
  {
    QuietNow(others, k, log);
  }

  lemma HolderReply(c: Config, log: seq<Row>, e: Envelope, p: Prepared, blame: Constraint, i: nat)
    requires LogOk(c, log) && i < |log| && Holds(log[i].meta, e)
    ensures FromRow(log[i]).Ok?
    ensures Next(c, log, Phase(LookForKey, e, p), blame) == Replies(ReuseRow(log[i], e, p.payloadHash))
    ensures HolderAnswers(FromRow(log[i]).value, e, p.payloadHash, ReuseRow(log[i], e, p.payloadHash))
  {
    HolderFound(log, e, i);
    assert RowOk(c.sha, log[i]);
    ReuseAnswers(FromRow(log[i]).value, e, p.payloadHash);
  }

  lemma InsertOutcome(c: Config, log: seq<Row>, phase: Phase, blame: Constraint)
    requires phase.step == Step.Insert && !Finished(log, phase.env.meta.traceId)
    requires FindKey(log, phase.env.meta).None? && !HasTraceSeq(log, phase.env.meta)
    ensures Next(c, log, phase, blame) ==
      if HasEventId(log, phase.env.meta.eventId) then Replies(Err(Storage)) else Inserts
  {
  }

  lemma QuietGoes(c: Config, log: seq<Row>, phase: Phase, next: Phase, blame: Constraint, others: Others, k: nat)
    requires Quiet(others) && Next(c, log, phase, blame) == Goes(next.step) && next == phase.(step := next.step)
    ensures Course(c, log, phase, blame, others, k) == Course(c, log, next, blame, others, k + 1)
  {
    QuietStep(c, log, phase, blame, others, k);
  }

  lemma QuietReplies(c: Config, log: seq<Row>, phase: Phase, reply: Result<StoredEvent, Code>, blame: Constraint,
                     others: Others, k: nat)
    requires Quiet(others) && Next(c, log, phase, blame) == Replies(reply)
    ensures Course(c, log, phase, blame, others, k) == (reply, log)
  {
    QuietStep(c, log, phase, blame, others, k);
  }

  // The three questions before the INSERT, for a key nobody holds.
  lemma Questions(c: Config, log: seq<Row>, e: Envelope, p: Prepared, blame: Constraint)
    requires FindKey(log, e.meta).None?
    ensures Next(c, log, Phase(LookForKey, e, p), blame) == Goes(AskFinished)
    ensures Next(c, log, Phase(AskFinished, e, p), blame) ==
      if Finished(log, e.meta.traceId) then Replies(Err(Conflict)) else Goes(AskNextSeq)
    ensures Next(c, log, Phase(AskNextSeq, e, p), blame) ==
      if SequenceOk(e.meta, NextSeq(log, e.meta.traceId)) then Goes(Step.Insert) else Replies(Err(EventSequenceInvalid))
  {
  }

  lemma Answered(c: Config, log: seq<Row>, e: Envelope, p: Prepared, blame: Constraint, others: Others,
                 finished: bool, next: bool) returns (r: (Result<StoredEvent, Code>, seq<Row>))
    requires Quiet(others) && FindKey(log, e.meta).None?
    requires finished == Finished(log, e.meta.traceId) && next == SequenceOk(e.meta, NextSeq(log, e.meta.traceId))
    ensures r == Course(c, log, Phase(LookForKey, e, p), blame, others, 0)
    ensures finished ==> r == (Err(Conflict), log)
    ensures !finished && !next ==> r == (Err(EventSequenceInvalid), log)
    ensures !finished && next ==> r == Course(c, log, Phase(Step.Insert, e, p), blame, others, 3)
  {
    var ask, number := Phase(AskFinished, e, p), Phase(AskNextSeq, e, p);
    r := Course(c, log, Phase(LookForKey, e, p), blame, others, 0);
    Questions(c, log, e, p, blame);
    QuietGoes(c, log, Phase(LookForKey, e, p), ask, blame, others, 0);
    if finished {
      QuietReplies(c, log, ask, Err(Conflict), blame, others, 1);
    } else {
      QuietGoes(c, log, ask, number, blame, others, 1);
      var q := NumberAnswered(c, log, e, p, blame, others, next);
    }
  }

  lemma NumberAnswered(c: Config, log: seq<Row>, e: Envelope, p: Prepared, blame: Constraint, others: Others,
                       next: bool)
    returns (r: (Result<StoredEvent, Code>, seq<Row>))
    requires Quiet(others) && FindKey(log, e.meta).None?
    requires next == SequenceOk(e.meta, NextSeq(log, e.meta.traceId))
    ensures r == Course(c, log, Phase(AskNextSeq, e, p), blame, others, 2)
    ensures r == if next then Course(c, log, Phase(Step.Insert, e, p), blame, others, 3)
      else (Err(EventSequenceInvalid), log)
  {
    var number, insert := Phase(AskNextSeq, e, p), Phase(Step.Insert, e, p);
    r := Course(c, log, number, blame, others, 2);
    Questions(c, log, e, p, blame);
    if next {
      QuietGoes(c, log, number, insert, blame, others, 2);
    } else {
      QuietReplies(c, log, number, Err(EventSequenceInvalid), blame, others, 2);
    }
  }

  // A free key, an open trace and the right number: what the INSERT comes to.
  lemma Inserted(c: Config, log: seq<Row>, phase: Phase, blame: Constraint, others: Others)
    returns (r: (Result<StoredEvent, Code>, seq<Row>))
    requires Quiet(others) && phase.step == Step.Insert && !Finished(log, phase.env.meta.traceId)
    requires FindKey(log, phase.env.meta).None? && !HasTraceSeq(log, phase.env.meta)
    ensures r == Course(c, log, phase, blame, others, 3)
    ensures r == if HasEventId(log, phase.env.meta.eventId) then (Err(Storage), log)
      else (Ok(ToEvent(phase.env, phase.prepared, |log| + 1)),
            log + [ToRow(phase.env, phase.prepared, |log| + 1)])
  {
    r := Course(c, log, phase, blame, others, 3);
    InsertOutcome(c, log, phase, blame);
    QuietStep(c, log, phase, blame, others, 3);
  }

  lemma RowTaken(c: Config, log: seq<Row>, e: Envelope, now: string, p: Prepared)
    requires Prepare(c.sha, e, now) == Ok(p)
    ensures Taken(log, e, now, p.payloadHash, Ok(ToEvent(e, p, |log| + 1)), log + [ToRow(e, p, |log| + 1)])
  {
    RowReadsBack(c.sha, e, now, |log| + 1);
  }

  // In the terms of the code, what those of the answer mean.
  lemma Terms(c: Config, log: seq<Row>, e: Envelope)
    requires LogOk(c, log)
    ensures NoHolder(log, e) <==> FindKey(log, e.meta).None?
    ensures Closed(log, e.meta.traceId) <==> Finished(log, e.meta.traceId)
    ensures WellNumbered(log, e.meta) <==> SequenceOk(e.meta, NextSeq(log, e.meta.traceId))
    ensures WellNumbered(log, e.meta) ==> !HasTraceSeq(log, e.meta)
    ensures IdTaken(log, e) <==> HasEventId(log, e.meta.eventId)
  {
    NoneFound(log, e);
    ClosedIsFinished(log, e.meta.traceId);
    WellNumberedIsOk(log, e.meta);
    TraceSeqTaken(log, e.meta);
  }

  lemma NewDecides(c: Config, log: seq<Row>, e: Envelope, now: string, p: Prepared, blame: Constraint, others: Others)
    returns (r: (Result<StoredEvent, Code>, seq<Row>))
    requires Quiet(others) && Prepare(c.sha, e, now) == Ok(p) && FindKey(log, e.meta).None?
    requires SequenceOk(e.meta, NextSeq(log, e.meta.traceId)) ==> !HasTraceSeq(log, e.meta)
    ensures r == Course(c, log, Phase(LookForKey, e, p), blame, others, 0)
    ensures if Finished(log, e.meta.traceId) then r == (Err(Conflict), log)
      else if !SequenceOk(e.meta, NextSeq(log, e.meta.traceId)) then r == (Err(EventSequenceInvalid), log)
      else if HasEventId(log, e.meta.eventId) then r == (Err(Storage), log)
      else Taken(log, e, now, p.payloadHash, r.0, r.1)
  {
    var finished, next := Finished(log, e.meta.traceId), SequenceOk(e.meta, NextSeq(log, e.meta.traceId));
    r := Answered(c, log, e, p, blame, others, finished, next);
    if !finished && next {
      var r' := Inserted(c, log, Phase(Step.Insert, e, p), blame, others);
      RowTaken(c, log, e, now, p);
    }
  }

  lemma QuietDecides(c: Config, log: seq<Row>, e: Envelope, now: string, blame: Constraint, others: Others,
                     r: Result<StoredEvent, Code>, end: seq<Row>)
    requires LogOk(c, log) && Quiet(others) && AppendsAs(c, log, e, now, blame, others, r, end)
    ensures Decided(c, log, e, now, r, end)
  {
    PrepareDecides(c.sha, e, now);
    if Prepare(c.sha, e, now).Ok? {
      var p := Prepare(c.sha, e, now).value;
      forall i | 0 <= i < |log| && Holds(log[i].meta, e)
        ensures FromRow(log[i]).Ok? && end == log && HolderAnswers(FromRow(log[i]).value, e, p.payloadHash, r)
      {
        HolderReply(c, log, e, p, blame, i);
        QuietStep(c, log, Phase(LookForKey, e, p), blame, others, 0);
      }
      Terms(c, log, e);
      if NoHolder(log, e) { var q := NewDecides(c, log, e, now, p, blame, others); }
    }
  }

  lemma ClashReply(c: Config, log: seq<Row>, e: Envelope, p: Prepared, blame: Constraint, i: nat)
    requires LogOk(c, log) && i < |log| && Holds(log[i].meta, e) && Differs(c, log[i], e)
    requires PayloadHash(c.sha, e.payload) == Ok(p.payloadHash)
    ensures Next(c, log, Phase(LookForKey, e, p), blame) == Replies(Err(IdempotencyConflict))
  {
    HolderReply(c, log, e, p, blame, i);
    assert FromRow(log[i]).value.meta == log[i].meta;
  }

  lemma ClashAnswers(c: Config, log: seq<Row>, e: Envelope, now: string, blame: Constraint, others: Others,
                     r: Result<StoredEvent, Code>, end: seq<Row>)
    requires LogOk(c, log) && Admissible(c, others) && Clashes(c, log, e)
    requires AppendsAs(c, log, e, now, blame, others, r, end)
    ensures r == Err(IdempotencyConflict) && end == Committed(others, 0, log)
  {
    PrepareDecides(c.sha, e, now);
    var p := Prepare(c.sha, e, now).value;
    var later := Committed(others, 0, log);
    var i :| 0 <= i < |log| && Holds(log[i].meta, e) && Differs(c, log[i], e);
    assert later[i] == log[i];
    ClashReply(c, later, e, p, blame, i);
    ReplyNow(c, log, Phase(LookForKey, e, p), blame, others, 0, later);
  }

  lemma ReplyNow(c: Config, log: seq<Row>, phase: Phase, blame: Constraint, others: Others, k: nat, now: seq<Row>)
    requires now == log + others(k, log) && Next(c, now, phase, blame).Replies?
    ensures Course(c, log, phase, blame, others, k) == (Next(c, now, phase, blame).result, now)
  {
  }

  lemma AppendFacts(c: Config, log: seq<Row>, e: Envelope, now: string, blame: Constraint, others: Others,
                    r: Result<StoredEvent, Code>, end: seq<Row>)
    requires AppendsAs(c, log, e, now, blame, others, r, end)
    ensures LogOk(c, log) && Admissible(c, others) && r.Ok? ==>
      SameFields(r.value.meta, r.value.tags, e) && PayloadHash(c.sha, e.payload) == Ok(r.value.payloadHash)
    ensures LogOk(c, log) && Admissible(c, others) && Clashes(c, log, e) ==>
      r == Err(IdempotencyConflict) && end == Committed(others, 0, log)
    ensures LogOk(c, log) && Quiet(others) ==> Decided(c, log, e, now, r, end)
  {
    if LogOk(c, log) && Admissible(c, others) {
      AppendSettles(c, log, e, now, blame, others, r, end);
      if r.Ok? { BackedFields(c, end, Response(0, e, r)); }
      if Clashes(c, log, e) { ClashAnswers(c, log, e, now, blame, others, r, end); }
    }
    if LogOk(c, log) && Quiet(others) { QuietDecides(c, log, e, now, blame, others, r, end); }
  }
}
