// The SQLite store under concurrent writers. Each of append_event's SELECTs and its INSERT is one atomic
// step; any number of writers take steps in any order, and only the database constraints guard the INSERT.
module Writers {
  import opened Events
  import opened Log
  import opened Wrappers

  // finishLock says whether the trigger of migration 0004 is installed: it refuses to insert anything but a
  // TraceFinished into a finished trace.
  datatype Config = Config(sha: string -> string, finishLock: bool)

  datatype Constraint = UniqueEventId | UniqueTraceSeq | UniqueKey

  // The atomic steps of append_event: look for the key, ask whether the trace is finished, ask for the next
  // trace_seq, INSERT; and look for the key again when its unique index refused the INSERT.
  datatype Step = LookForKey | AskFinished | AskNextSeq | Insert | LookAgain

  // A writer inside append_event, and the step it is about to take.
  datatype Phase = Phase(step: Step, env: Envelope, prepared: Prepared)

  // A writer without a phase is idle.
  datatype State = State(log: seq<Row>, phases: map<nat, Phase>)

  // When an INSERT breaks several unique constraints the database reports one of them: blame, if broken.
  // Fail is a database error (a busy lock, say) or the death of the writer's process.
  datatype Action =
    | Call(w: nat, env: Envelope, now: string)
    | Advance(w: nat, blame: Constraint)
    | Fail(w: nat)

  datatype Response = Response(w: nat, env: Envelope, result: Result<StoredEvent, Code>)

  const INITIAL := State([], map[])

  predicate Broken(log: seq<Row>, m: Meta, c: Constraint) {
    match c
    case UniqueEventId => HasEventId(log, m.eventId)
    case UniqueTraceSeq => HasTraceSeq(log, m)
    case UniqueKey => FindKey(log, m).Some?
  }

  function Reported(log: seq<Row>, m: Meta, blame: Constraint): Option<Constraint> {
    if Broken(log, m, blame) then Some(blame)
    else if Broken(log, m, UniqueEventId) then Some(UniqueEventId)
    else if Broken(log, m, UniqueTraceSeq) then Some(UniqueTraceSeq)
    else if Broken(log, m, UniqueKey) then Some(UniqueKey)
    else None
  }

  // _check_idempotency for a key that is in the log
  function ReuseRow(row: Row, env: Envelope, hash: string): Result<StoredEvent, Code> {
    match FromRow(row)
    case Err(code) => Err(code)
    case Ok(stored) => Reuse(stored, env, hash)
  }

  // What one writer's step does: move on to another step, reply, or insert its row and reply with that.
  datatype Outcome = Goes(step: Step) | Replies(result: Result<StoredEvent, Code>) | Inserts

  function Next(c: Config, log: seq<Row>, phase: Phase, blame: Constraint): Outcome {
    var m := phase.env.meta;
    match phase.step
    case LookForKey =>
      (match FindKey(log, m)
       case Some(i) => Replies(ReuseRow(log[i], phase.env, phase.prepared.payloadHash))
       case None => Goes(AskFinished))
    case AskFinished =>
      if Finished(log, m.traceId) then Replies(Err(Conflict)) else Goes(AskNextSeq)
    case AskNextSeq =>
      if SequenceOk(m, NextSeq(log, m.traceId)) then Goes(Insert) else Replies(Err(EventSequenceInvalid))
    case Insert =>
      if c.finishLock && !m.eventType.TraceFinished? && Finished(log, m.traceId) then Replies(Err(Conflict))
      else
        (match Reported(log, m, blame)
         case Some(UniqueKey) => Goes(LookAgain)
         case Some(UniqueTraceSeq) => Replies(Err(EventSequenceInvalid))
         case Some(UniqueEventId) => Replies(Err(Storage))
         case None => Inserts)
    case LookAgain =>
      (match FindKey(log, m)
       case Some(i) => Replies(ReuseRow(log[i], phase.env, phase.prepared.payloadHash))
       case None => Replies(Err(IdempotencyConflict)))
  }

  function Do(c: Config, s: State, a: Action): (State, seq<Response>) {
    match a
    case Call(w, env, now) =>
      if w in s.phases then (s, [])
      else
        (match Prepare(c.sha, env, now)
         case Err(code) => (s, [Response(w, env, Err(code))])
         case Ok(p) => (State(s.log, s.phases[w := Phase(LookForKey, env, p)]), []))
    case Advance(w, blame) =>
      if w !in s.phases then (s, [])
      else
        var phase := s.phases[w];
        (match Next(c, s.log, phase, blame)
         case Goes(step) => (State(s.log, s.phases[w := phase.(step := step)]), [])
         case Replies(result) => (State(s.log, s.phases - {w}), [Response(w, phase.env, result)])
         case Inserts =>
           var n := |s.log| + 1;
           (State(s.log + [ToRow(phase.env, phase.prepared, n)], s.phases - {w}),
            [Response(w, phase.env, Ok(ToEvent(phase.env, phase.prepared, n)))]))
    case Fail(w) =>
      if w !in s.phases then (s, [])
      else (State(s.log, s.phases - {w}), [Response(w, s.phases[w].env, Err(Storage))])
  }

  // Do, one case at a time.

  lemma CallStep(c: Config, s: State, w: nat, e: Envelope, now: string)
    requires w !in s.phases && Prepare(c.sha, e, now).Ok?
    ensures Do(c, s, Call(w, e, now)) ==
      (State(s.log, s.phases[w := Phase(LookForKey, e, Prepare(c.sha, e, now).value)]), [])
    ensures PayloadHash(c.sha, e.payload) == Ok(Prepare(c.sha, e, now).value.payloadHash)
  {
  }

  lemma GoesStep(c: Config, s: State, w: nat, blame: Constraint)
    requires w in s.phases && Next(c, s.log, s.phases[w], blame).Goes?
    ensures Do(c, s, Advance(w, blame)) ==
      (State(s.log, s.phases[w := s.phases[w].(step := Next(c, s.log, s.phases[w], blame).step)]), [])
  {
  }

  lemma RepliesStep(c: Config, s: State, w: nat, blame: Constraint)
    requires w in s.phases && Next(c, s.log, s.phases[w], blame).Replies?
    ensures Do(c, s, Advance(w, blame)) == (State(s.log, s.phases - {w}),
      [Response(w, s.phases[w].env, Next(c, s.log, s.phases[w], blame).result)])
  {
  }

  // The state after writer w's row has gone in.
  function Landed(s: State, w: nat): State
    requires w in s.phases
  {
    State(s.log + [ToRow(s.phases[w].env, s.phases[w].prepared, |s.log| + 1)], s.phases - {w})
  }

  lemma InsertStep(c: Config, s: State, w: nat, blame: Constraint)
    requires w in s.phases && Next(c, s.log, s.phases[w], blame).Inserts?
    ensures Do(c, s, Advance(w, blame)) == (Landed(s, w),
      [Response(w, s.phases[w].env, Ok(ToEvent(s.phases[w].env, s.phases[w].prepared, |s.log| + 1)))])
  {
  }

  function Run(c: Config, s: State, acts: seq<Action>): (State, seq<Response>)
    decreases |acts|
  {
    if acts == [] then (s, []) else
      var (s1, r1) := Do(c, s, acts[0]);
      var (s2, r2) := Run(c, s1, acts[1..]);
      (s2, r1 + r2)
  }

  lemma Associates<T>(a: seq<T>, b: seq<T>, c: seq<T>)
    ensures a + (b + c) == a + b + c
  {
  }

  lemma RunFirst(c: Config, s: State, a: Action, acts: seq<Action>)
    ensures var first := Do(c, s, a);
      var rest := Run(c, first.0, acts);
      Run(c, s, [a] + acts) == (rest.0, first.1 + rest.1)
  {
    assert ([a] + acts)[1..] == acts;
  }

  // The first step of a run and the rest of it.
  lemma RunParts(c: Config, s: State, a: seq<Action>)
    returns (s1: State, r1: seq<Response>, s2: State, r2: seq<Response>)
    requires a != []
    ensures Do(c, s, a[0]) == (s1, r1) && Run(c, s1, a[1..]) == (s2, r2) && Run(c, s, a) == (s2, r1 + r2)
  {
    s1, r1 := Do(c, s, a[0]).0, Do(c, s, a[0]).1;
    s2, r2 := Run(c, s1, a[1..]).0, Run(c, s1, a[1..]).1;
  }

  lemma RunOne(c: Config, s: State, a: Action, s1: State, r1: seq<Response>, acts: seq<Action>, s2: State,
                r2: seq<Response>)
    requires Do(c, s, a) == (s1, r1) && Run(c, s1, acts) == (s2, r2)
    ensures Run(c, s, [a] + acts) == (s2, r1 + r2)
  {
    RunFirst(c, s, a, acts);
  }

  // From where one run ends, the other goes on.
  lemma {:induction false} RunGoesOn(c: Config, s: State, a: seq<Action>, s1: State, r1: seq<Response>, b: seq<Action>,
                                     s2: State, r2: seq<Response>)
    requires Run(c, s, a) == (s1, r1) && Run(c, s1, b) == (s2, r2)
    ensures Run(c, s, a + b) == (s2, r1 + r2)
    decreases |a|
  {
    if a == [] {
      assert a + b == b && [] + r2 == r2;
    } else {
      var t, q, t', q' := RunParts(c, s, a);
      RunGoesOn(c, t, a[1..], s1, q', b, s2, r2);
      RunOne(c, s, a[0], t, q, a[1..] + b, s2, q' + r2);
      assert a + b == [a[0]] + (a[1..] + b);
      Associates(q, q', r2);
    }
  }

  lemma RunAppend(c: Config, s: State, a: seq<Action>, b: seq<Action>)
    ensures var r := Run(c, s, a);
      var r' := Run(c, r.0, b);
      Run(c, s, a + b) == (r'.0, r.1 + r'.1)
  {
    var r := Run(c, s, a);
    var r' := Run(c, r.0, b);
    RunGoesOn(c, s, a, r.0, r.1, b, r'.0, r'.1);
  }

  // ----- the shape of every reachable log -----

  ghost predicate RowsOk(c: Config, log: seq<Row>) {
    forall i :: 0 <= i < |log| ==> RowOk(c.sha, log[i])
  }

  ghost predicate LogOk(c: Config, log: seq<Row>) {
    && RowsOk(c, log)
    && Numbered(log)
    && Sequenced(log)
    && DistinctKeys(log)
    && DistinctIds(log)
    && (c.finishLock ==> Locked(log))
  }

  // What a writer has learnt that stays true as the log grows.
  ghost predicate StepOk(log: seq<Row>, m: Meta, step: Step) {
    && (step.Insert? || step.LookAgain? ==>
         0 <= m.traceSeq <= NextSeq(log, m.traceId) && (m.eventType.TraceStarted? <==> m.traceSeq == 0))
    && (step.LookAgain? ==> FindKey(log, m).Some?)
  }

  ghost predicate PhaseOk(c: Config, log: seq<Row>, phase: Phase) {
    && Prepare(c.sha, phase.env, phase.prepared.recordedAt) == Ok(phase.prepared)
    && StepOk(log, phase.env.meta, phase.step)
  }

  ghost predicate Inv(c: Config, s: State) {
    && LogOk(c, s.log)
    && forall w :: w in s.phases ==> PhaseOk(c, s.log, s.phases[w])
  }

  lemma StepOkStays(log: seq<Row>, row: Row, m: Meta, step: Step)
    requires StepOk(log, m, step)
    ensures StepOk(log + [row], m, step)
  {
    TraceEventsSnoc(log, row, m.traceId);
    if step.LookAgain? {
      var i := FindKey(log, m).value;
      assert SameKey((log + [row])[i].meta, m);
    }
  }

  lemma InsertGuards(c: Config, log: seq<Row>, phase: Phase, blame: Constraint)
    requires Next(c, log, phase, blame).Inserts?
    ensures var m := phase.env.meta;
      && phase.step.Insert?
      && !HasEventId(log, m.eventId) && !HasTraceSeq(log, m) && FindKey(log, m).None?
      && (c.finishLock && !m.eventType.TraceFinished? ==> !Finished(log, m.traceId))
  {
  }

  lemma LockedSnoc(log: seq<Row>, row: Row)
    requires Locked(log)
    requires !row.meta.eventType.TraceFinished? ==> !Finished(log, row.meta.traceId)
    ensures Locked(log + [row])
  {
  }

  lemma DistinctSnoc(log: seq<Row>, row: Row)
    requires DistinctKeys(log) && DistinctIds(log) && Numbered(log)
    requires !HasEventId(log, row.meta.eventId) && FindKey(log, row.meta).None? && row.logSeq == |log| + 1
    ensures DistinctKeys(log + [row]) && DistinctIds(log + [row]) && Numbered(log + [row])
  {
  }

  // A row that passes every constraint, and whose sequence the trace has reached, keeps the log in shape.
  lemma RowKeeps(c: Config, log: seq<Row>, row: Row)
    requires LogOk(c, log) && RowOk(c.sha, row) && row.logSeq == |log| + 1
    requires !HasEventId(log, row.meta.eventId) && !HasTraceSeq(log, row.meta) && FindKey(log, row.meta).None?
    requires c.finishLock && !row.meta.eventType.TraceFinished? ==> !Finished(log, row.meta.traceId)
    requires 0 <= row.meta.traceSeq <= NextSeq(log, row.meta.traceId)
    requires row.meta.eventType.TraceStarted? <==> row.meta.traceSeq == 0
    ensures LogOk(c, log + [row])
    ensures row.meta.traceSeq == NextSeq(log, row.meta.traceId)
  {
    TraceSeqTaken(log, row.meta);
    SequencedSnoc(log, row);
    DistinctSnoc(log, row);
    if c.finishLock { LockedSnoc(log, row); }
  }

  // The INSERT keeps the log in shape: the unique index on (trace_id, trace_seq), together with a sequence
  // check that was true when it was made, leaves exactly one sequence to insert.
  lemma InsertKeeps(c: Config, log: seq<Row>, phase: Phase, row: Row)
    requires LogOk(c, log) && PhaseOk(c, log, phase) && row == ToRow(phase.env, phase.prepared, |log| + 1)
    requires phase.step.Insert?
    requires !HasEventId(log, row.meta.eventId) && !HasTraceSeq(log, row.meta) && FindKey(log, row.meta).None?
    requires c.finishLock && !row.meta.eventType.TraceFinished? ==> !Finished(log, row.meta.traceId)
    ensures LogOk(c, log + [row]) && row.meta == phase.env.meta
    ensures row.meta.traceSeq == NextSeq(log, row.meta.traceId)
  {
    RowReadsBack(c.sha, phase.env, phase.prepared.recordedAt, |log| + 1);
    RowKeeps(c, log, row);
  }

  // A step that moves on records what it has just read.
  lemma GoesKeeps(c: Config, log: seq<Row>, phase: Phase, blame: Constraint)
    requires StepOk(log, phase.env.meta, phase.step) && Next(c, log, phase, blame).Goes?
    requires Sequenced(log)
    ensures StepOk(log, phase.env.meta, Next(c, log, phase, blame).step)
  {
    NextSeqCounts(log, phase.env.meta.traceId);
  }

  lemma InsertKeepsAll(c: Config, s: State, w: nat, blame: Constraint)
    requires Inv(c, s) && w in s.phases && Next(c, s.log, s.phases[w], blame).Inserts?
    ensures Inv(c, Landed(s, w))
  {
    var phase := s.phases[w];
    var row := ToRow(phase.env, phase.prepared, |s.log| + 1);
    InsertGuards(c, s.log, phase, blame);
    InsertKeeps(c, s.log, phase, row);
    forall v | v in s.phases - {w} ensures PhaseOk(c, s.log + [row], s.phases[v]) {
      StepOkStays(s.log, row, s.phases[v].env.meta, s.phases[v].step);
    }
  }

  lemma AdvanceKeeps(c: Config, s: State, w: nat, blame: Constraint)
    requires Inv(c, s) && w in s.phases
    ensures Inv(c, Do(c, s, Advance(w, blame)).0)
  {
    match Next(c, s.log, s.phases[w], blame)
    case Goes(_) =>
      GoesKeeps(c, s.log, s.phases[w], blame);
      GoesStep(c, s, w, blame);
    case Replies(_) =>
      RepliesStep(c, s, w, blame);
    case Inserts =>
      InsertKeepsAll(c, s, w, blame);
      InsertStep(c, s, w, blame);
  }

  lemma CallKeeps(c: Config, s: State, w: nat, env: Envelope, now: string)
    requires Inv(c, s)
    ensures Inv(c, Do(c, s, Call(w, env, now)).0)
  {
    if w !in s.phases && Prepare(c.sha, env, now).Ok? {
      assert Prepare(c.sha, env, now).value.recordedAt == now;
    }
  }

  lemma DoKeeps(c: Config, s: State, a: Action)
    requires Inv(c, s)
    ensures Inv(c, Do(c, s, a).0)
  {
    match a
    case Call(w, env, now) => CallKeeps(c, s, w, env, now);
    case Advance(w, blame) => if w in s.phases { AdvanceKeeps(c, s, w, blame); }
    case Fail(w) =>
  }

  lemma {:induction false} RunKeeps(c: Config, s: State, acts: seq<Action>)
    requires Inv(c, s)
    ensures Inv(c, Run(c, s, acts).0)
    decreases |acts|
  {
    if acts != [] {
      DoKeeps(c, s, acts[0]);
      RunKeeps(c, Do(c, s, acts[0]).0, acts[1..]);
    }
  }

  // Every interleaving of any number of writers leaves a log in shape: log_seq 1..n, the sequences of each
  // trace 0..k-1 in log order, TraceStarted exactly at 0, keys and event ids distinct, every row readable.
  lemma EveryRunKeepsShape(c: Config, acts: seq<Action>)
    ensures LogOk(c, Run(c, INITIAL, acts).0.log)
  {
    RunKeeps(c, INITIAL, acts);
  }

  // ----- one log_seq for each idempotency key -----

  lemma DoExtends(c: Config, s: State, a: Action)
    ensures s.log <= Do(c, s, a).0.log
  {
  }

  lemma {:induction false} RunExtends(c: Config, s: State, acts: seq<Action>)
    ensures s.log <= Run(c, s, acts).0.log
    decreases |acts|
  {
    if acts != [] {
      DoExtends(c, s, acts[0]);
      RunExtends(c, Do(c, s, acts[0]).0, acts[1..]);
    }
  }

  // A success names the row that holds the envelope's key, and that row is the same submission.
  ghost predicate Backed(c: Config, log: seq<Row>, r: Response) {
    r.result.Ok? ==>
      var e := r.result.value;
      && 1 <= e.logSeq <= |log|
      && log[e.logSeq - 1].meta == e.meta
      && SameKey(e.meta, r.env.meta)
      && FromRow(log[e.logSeq - 1]).Ok?
      && PayloadHash(c.sha, r.env.payload) == Ok(e.payloadHash)
      && SameSubmission(FromRow(log[e.logSeq - 1]).value, r.env, e.payloadHash)
      && FromRow(log[e.logSeq - 1]).value.tags == e.tags
  }

  lemma PreparedHash(c: Config, log: seq<Row>, phase: Phase)
    requires PhaseOk(c, log, phase)
    ensures PayloadHash(c.sha, phase.env.payload) == Ok(phase.prepared.payloadHash)
  {
  }

  lemma ReuseRowBacked(c: Config, log: seq<Row>, i: nat, env: Envelope, w: nat, hash: string)
    requires i < |log| && log[i].logSeq == i + 1 && SameKey(log[i].meta, env.meta)
    requires PayloadHash(c.sha, env.payload) == Ok(hash)
    ensures Backed(c, log, Response(w, env, ReuseRow(log[i], env, hash)))
  {
  }

  // A reply without an INSERT succeeds only by reusing the row that holds the key.
  lemma RepliesWith(c: Config, log: seq<Row>, phase: Phase, blame: Constraint)
    returns (result: Result<StoredEvent, Code>)
    requires Next(c, log, phase, blame).Replies?
    ensures result == Next(c, log, phase, blame).result
    ensures result.Ok? ==>
      var found := FindKey(log, phase.env.meta);
      found.Some? && result == ReuseRow(log[found.value], phase.env, phase.prepared.payloadHash)
  {
    result := Next(c, log, phase, blame).result;
  }

  lemma ReuseBacked(c: Config, log: seq<Row>, phase: Phase, w: nat, blame: Constraint)
    requires Numbered(log) && Next(c, log, phase, blame).Replies?
    requires PayloadHash(c.sha, phase.env.payload) == Ok(phase.prepared.payloadHash)
    ensures Backed(c, log, Response(w, phase.env, Next(c, log, phase, blame).result))
  {
    var result := RepliesWith(c, log, phase, blame);
    if result.Ok? {
      ReuseRowBacked(c, log, FindKey(log, phase.env.meta).value, phase.env, w, phase.prepared.payloadHash);
    }
  }

  // A row that reads back as the envelope backs a reply that says the same.
  lemma RowBacks(c: Config, log: seq<Row>, row: Row, e: StoredEvent, stored: StoredEvent, env: Envelope, w: nat)
    requires FromRow(row) == Ok(stored) && e.logSeq == |log| + 1 && row.meta == e.meta == env.meta == stored.meta
    requires stored.payloadHash == e.payloadHash && stored.tags == e.tags == env.tags
    requires PayloadHash(c.sha, env.payload) == Ok(e.payloadHash)
    ensures Backed(c, log + [row], Response(w, env, Ok(e)))
  {
  }

  lemma InsertBacked(c: Config, log: seq<Row>, phase: Phase, w: nat)
    requires PhaseOk(c, log, phase)
    ensures var row := ToRow(phase.env, phase.prepared, |log| + 1);
      Backed(c, log + [row], Response(w, phase.env, Ok(ToEvent(phase.env, phase.prepared, |log| + 1))))
  {
    PreparedHash(c, log, phase);
    RowReadsBack(c.sha, phase.env, phase.prepared.recordedAt, |log| + 1);
    var row := ToRow(phase.env, phase.prepared, |log| + 1);
    RowBacks(c, log, row, ToEvent(phase.env, phase.prepared, |log| + 1), FromRow(row).value, phase.env, w);
  }

  lemma ReplyBacked(c: Config, s: State, a: Action)
    requires Inv(c, s)
    ensures AllBacked(c, Do(c, s, a).0.log, Do(c, s, a).1)
  {
    if a.Advance? && a.w in s.phases { var r := AdvanceBacked(c, s, a.w, a.blame); }
  }

  lemma RepliesBacked(c: Config, s: State, w: nat, blame: Constraint) returns (reply: Response)
    requires Inv(c, s) && w in s.phases && Next(c, s.log, s.phases[w], blame).Replies?
    ensures Do(c, s, Advance(w, blame)) == (State(s.log, s.phases - {w}), [reply]) && Backed(c, s.log, reply)
  {
    reply := Response(w, s.phases[w].env, Next(c, s.log, s.phases[w], blame).result);
    PreparedHash(c, s.log, s.phases[w]);
    ReuseBacked(c, s.log, s.phases[w], w, blame);
    RepliesStep(c, s, w, blame);
  }

  lemma InsertsBacked(c: Config, s: State, w: nat, blame: Constraint) returns (reply: Response)
    requires Inv(c, s) && w in s.phases && Next(c, s.log, s.phases[w], blame).Inserts?
    ensures Do(c, s, Advance(w, blame)) == (Landed(s, w), [reply]) && Backed(c, Landed(s, w).log, reply)
  {
    reply := Response(w, s.phases[w].env, Ok(ToEvent(s.phases[w].env, s.phases[w].prepared, |s.log| + 1)));
    InsertBacked(c, s.log, s.phases[w], w);
    InsertStep(c, s, w, blame);
  }

  ghost predicate AllBacked(c: Config, log: seq<Row>, rs: seq<Response>) {
    forall k :: 0 <= k < |rs| ==> Backed(c, log, rs[k])
  }

  lemma AdvanceBacked(c: Config, s: State, w: nat, blame: Constraint) returns (r: (State, seq<Response>))
    requires Inv(c, s) && w in s.phases
    ensures r == Do(c, s, Advance(w, blame)) && AllBacked(c, r.0.log, r.1)
  {
    r := Do(c, s, Advance(w, blame));
    var next := Next(c, s.log, s.phases[w], blame);
    if next.Goes? {
      GoesStep(c, s, w, blame);
    } else if next.Replies? {
      var reply := RepliesBacked(c, s, w, blame);
    } else {
      var reply := InsertsBacked(c, s, w, blame);
    }
  }

  lemma {:induction false} ResponsesBacked(c: Config, s: State, acts: seq<Action>, k: nat)
    requires Inv(c, s) && k < |Run(c, s, acts).1|
    ensures Backed(c, Run(c, s, acts).0.log, Run(c, s, acts).1[k])
    decreases |acts|
  {
    var (s1, r1) := Do(c, s, acts[0]);
    DoKeeps(c, s, acts[0]);
    RunExtends(c, s1, acts[1..]);
    if k < |r1| {
      ReplyBacked(c, s, acts[0]);
      BackedLater(c, s1.log, Run(c, s, acts).0.log, r1[k]);
    } else {
      ResponsesBacked(c, s1, acts[1..], k - |r1|);
    }
  }

  // The row that backs a success.
  lemma BackedAt(c: Config, log: seq<Row>, r: Response) returns (i: nat)
    requires Backed(c, log, r) && r.result.Ok?
    ensures i < |log| && r.result.value.logSeq == i + 1
    ensures log[i].meta == r.result.value.meta && SameKey(log[i].meta, r.env.meta)
  {
    i := r.result.value.logSeq - 1;
  }

  lemma BackedAgree(c: Config, log: seq<Row>, a: Response, b: Response)
    requires DistinctKeys(log) && Backed(c, log, a) && Backed(c, log, b)
    requires a.result.Ok? && b.result.Ok? && SameKey(a.env.meta, b.env.meta)
    ensures a.result.value.logSeq == b.result.value.logSeq && a.result.value.meta == b.result.value.meta
  {
    var i := BackedAt(c, log, a);
    var j := BackedAt(c, log, b);
    SameRow(log, i, j);
  }

  lemma SameRow(log: seq<Row>, i: nat, j: nat)
    requires DistinctKeys(log) && i < |log| && j < |log| && SameKey(log[i].meta, log[j].meta)
    ensures i == j
  {
  }

  // In every run, all successful appends for one (producer_id, idempotency_key) return the same event.
  lemma OneEventPerKey(c: Config, acts: seq<Action>, i: nat, j: nat)
    requires var rs := Run(c, INITIAL, acts).1;
      && i < |rs| && j < |rs|
      && rs[i].result.Ok? && rs[j].result.Ok?
      && SameKey(rs[i].env.meta, rs[j].env.meta)
    ensures var rs := Run(c, INITIAL, acts).1;
      && rs[i].result.value.logSeq == rs[j].result.value.logSeq
      && rs[i].result.value.meta == rs[j].result.value.meta
  {
    var r := Run(c, INITIAL, acts);
    EveryRunKeepsShape(c, acts);
    ResponsesBacked(c, INITIAL, acts, i);
    ResponsesBacked(c, INITIAL, acts, j);
    BackedAgree(c, r.0.log, r.1[i], r.1[j]);
  }

  // ----- retries are invisible -----

  lemma ReuseRowAccepts(row: Row, e: Envelope, hash: string)
    requires FromRow(row).Ok? && SameSubmission(FromRow(row).value, e, hash)
    ensures ReuseRow(row, e, hash) == FromRow(row)
  {
    var stored := FromRow(row).value;
    assert FromRow(row) == Ok(stored);
  }

  lemma RepeatSubmission(stored: StoredEvent, m: Meta, e: Envelope, e': Envelope, hash: string)
    requires Repeats(e, e') && SameSubmission(stored, e', hash) && SameKey(m, e'.meta)
    ensures SameSubmission(stored, e, hash) && SameKey(m, e.meta)
  {
  }

  lemma RepeatReuses(c: Config, row: Row, e: Envelope, hash: string, e': Envelope, hash': string)
    requires Repeats(e, e') && PayloadHash(c.sha, e.payload) == Ok(hash)
    requires PayloadHash(c.sha, e'.payload) == Ok(hash') && SameKey(row.meta, e'.meta)
    requires FromRow(row).Ok? && SameSubmission(FromRow(row).value, e', hash')
    ensures ReuseRow(row, e, hash) == FromRow(row) && SameKey(row.meta, e.meta)
  {
    var stored := FromRow(row).value;
    RepeatHash(c.sha, e.payload, e'.payload);
    RepeatSubmission(stored, row.meta, e, e', hash);
    ReuseRowAccepts(row, e, hash);
  }

  lemma LookForKeyStep(c: Config, s: State, w: nat, e: Envelope, p: Prepared, blame: Constraint, i: nat)
    requires w !in s.phases && FindKey(s.log, e.meta) == Some(i)
    ensures Do(c, State(s.log, s.phases[w := Phase(LookForKey, e, p)]), Advance(w, blame)) ==
      (s, [Response(w, e, ReuseRow(s.log[i], e, p.payloadHash))])
  {
    assert s.phases[w := Phase(LookForKey, e, p)] - {w} == s.phases;
    assert State(s.log, s.phases) == s;
  }

  // A writer that starts from idle and repeats an accepted envelope is answered at its first step, with the
  // event already stored, and leaves the state as it found it.
  lemma RepeatAnswered(c: Config, s: State, w: nat, e: Envelope, now: string, blame: Constraint, r: Response)
    returns (stored: StoredEvent)
    requires Inv(c, s) && w !in s.phases && Prepare(c.sha, e, now).Ok?
    requires Backed(c, s.log, r) && r.result.Ok? && Repeats(e, r.env)
    ensures var (s1, r1) := Do(c, s, Call(w, e, now));
      r1 == [] && Do(c, s1, Advance(w, blame)) == (s, [Response(w, e, Ok(stored))])
    ensures stored.logSeq == r.result.value.logSeq
  {
    var p := Prepare(c.sha, e, now).value;
    var i := r.result.value.logSeq - 1;
    CallStep(c, s, w, e, now);
    RepeatReuses(c, s.log[i], e, p.payloadHash, r.env, r.result.value.payloadHash);
    FindKeyUnique(s.log, e.meta, i);
    LookForKeyStep(c, s, w, e, p, blame, i);
    stored := FromRow(s.log[i]).value;
    assert s.log[i].logSeq == i + 1;
  }

  // Actions of writers other than w.
  ghost predicate Foreign(w: nat, acts: seq<Action>) {
    forall i :: 0 <= i < |acts| ==> acts[i].w != w
  }

  // The state with writer w at a phase.
  function Beside(s: State, w: nat, phase: Phase): State {
    State(s.log, s.phases[w := phase])
  }

  // Other writers do not notice that w is inside a call.
  lemma DoBeside(c: Config, s: State, w: nat, phase: Phase, a: Action)
    requires w !in s.phases && a.w != w
    ensures w !in Do(c, s, a).0.phases
    ensures Do(c, Beside(s, w, phase), a) == (Beside(Do(c, s, a).0, w, phase), Do(c, s, a).1)
  {
    match a
    case Call(v, env, now) => CallBeside(c, s, w, phase, v, env, now);
    case Advance(v, blame) => if v in s.phases { AdvanceBeside(c, s, w, phase, v, blame); }
    case Fail(v) => FailBeside(c, s, w, phase, v);
  }

  lemma FailBeside(c: Config, s: State, w: nat, phase: Phase, v: nat)
    requires w !in s.phases && v != w
    ensures w !in Do(c, s, Fail(v)).0.phases
    ensures Do(c, Beside(s, w, phase), Fail(v)) == (Beside(Do(c, s, Fail(v)).0, w, phase), Do(c, s, Fail(v)).1)
  {
    assert (s.phases[w := phase]) - {v} == (s.phases - {v})[w := phase];
  }

  lemma CallBeside(c: Config, s: State, w: nat, phase: Phase, v: nat, env: Envelope, now: string)
    requires w !in s.phases && v != w
    ensures w !in Do(c, s, Call(v, env, now)).0.phases
    ensures var r := Do(c, s, Call(v, env, now));
      Do(c, Beside(s, w, phase), Call(v, env, now)) == (Beside(r.0, w, phase), r.1)
  {
    if v !in s.phases && Prepare(c.sha, env, now).Ok? {
      CallStep(c, s, v, env, now);
      CallStep(c, Beside(s, w, phase), v, env, now);
      var p := Phase(LookForKey, env, Prepare(c.sha, env, now).value);
      assert s.phases[w := phase][v := p] == s.phases[v := p][w := phase];
    }
  }

  lemma AdvanceBeside(c: Config, s: State, w: nat, phase: Phase, v: nat, blame: Constraint)
    requires w !in s.phases && v != w && v in s.phases
    ensures w !in Do(c, s, Advance(v, blame)).0.phases
    ensures var r := Do(c, s, Advance(v, blame));
      Do(c, Beside(s, w, phase), Advance(v, blame)) == (Beside(r.0, w, phase), r.1)
  {
    var t := Beside(s, w, phase);
    assert (s.phases[w := phase]) - {v} == (s.phases - {v})[w := phase];
    var next := Next(c, s.log, s.phases[v], blame);
    if next.Goes? {
      GoesStep(c, s, v, blame);
      GoesStep(c, t, v, blame);
      var p := s.phases[v].(step := next.step);
      assert s.phases[w := phase][v := p] == s.phases[v := p][w := phase];
    } else if next.Replies? {
      RepliesStep(c, s, v, blame);
      RepliesStep(c, t, v, blame);
    } else {
      InsertStep(c, s, v, blame);
      InsertStep(c, t, v, blame);
    }
  }

  lemma {:induction false} RunBeside(c: Config, s: State, w: nat, phase: Phase, acts: seq<Action>)
    requires w !in s.phases && Foreign(w, acts)
    ensures w !in Run(c, s, acts).0.phases
    ensures Run(c, Beside(s, w, phase), acts) == (Beside(Run(c, s, acts).0, w, phase), Run(c, s, acts).1)
    decreases |acts|
  {
    if acts != [] {
      DoBeside(c, s, w, phase, acts[0]);
      RunBeside(c, Do(c, s, acts[0]).0, w, phase, acts[1..]);
    }
  }

  // What an accepted call's row says of a later log.
  lemma BackedLater(c: Config, log: seq<Row>, later: seq<Row>, r: Response)
    requires Backed(c, log, r) && log <= later
    ensures Backed(c, later, r)
  {
  }

  // The call of a repeat, whatever others do before its first SELECT, and that SELECT.
  lemma RepeatAmong(c: Config, s: State, mid: seq<Action>, w: nat, e: Envelope, now: string, blame: Constraint,
                    r: Response) returns (stored: StoredEvent)
    requires Inv(c, s) && w !in s.phases && Prepare(c.sha, e, now).Ok? && Foreign(w, mid)
    requires Backed(c, s.log, r) && r.result.Ok? && Repeats(e, r.env)
    ensures stored.logSeq == r.result.value.logSeq
    ensures var m := Run(c, s, mid);
      Run(c, s, [Call(w, e, now)] + (mid + [Advance(w, blame)])) == (m.0, m.1 + [Response(w, e, Ok(stored))])
  {
    var m := Run(c, s, mid);
    RunKeeps(c, s, mid);
    RunExtends(c, s, mid);
    BackedLater(c, s.log, m.0.log, r);
    var p := Prepare(c.sha, e, now).value;
    RunBeside(c, s, w, Phase(LookForKey, e, p), mid);
    stored := RepeatAnswered(c, m.0, w, e, now, blame, r);
    CallStep(c, s, w, e, now);
    CallStep(c, m.0, w, e, now);
    RunAround(c, s, Call(w, e, now), Beside(s, w, Phase(LookForKey, e, p)), mid,
              Beside(m.0, w, Phase(LookForKey, e, p)), m.1, Advance(w, blame), m.0, Response(w, e, Ok(stored)));
  }

  // An action, others after it, and one more that replies.
  lemma RunAround(c: Config, s: State, a: Action, s1: State, mid: seq<Action>, s2: State, r2: seq<Response>, b: Action,
                  s3: State, reply: Response)
    requires Do(c, s, a) == (s1, []) && Run(c, s1, mid) == (s2, r2) && Do(c, s2, b) == (s3, [reply])
    ensures Run(c, s, [a] + (mid + [b])) == (s3, r2 + [reply])
  {
    RunFirst(c, s, a, mid + [b]);
    RunThen(c, s1, mid, b);
    assert [] + (r2 + [reply]) == r2 + [reply];
  }

  lemma RunThen(c: Config, s: State, acts: seq<Action>, a: Action)
    ensures var before := Run(c, s, acts);
      var last := Do(c, before.0, a);
      Run(c, s, acts + [a]) == (last.0, before.1 + last.1)
  {
    var before := Run(c, s, acts);
    RunAppend(c, s, acts, [a]);
    RunFirst(c, before.0, a, []);
    assert [a] + [] == [a] && Do(c, before.0, a).1 + [] == Do(c, before.0, a).1;
  }

  // Inserting such a repeat anywhere later in a run, even after the trace has finished and with other writers
  // at work during the call, changes neither the final state nor any other response.
  lemma RepeatChangesNothing(c: Config, a: seq<Action>, mid: seq<Action>, b: seq<Action>, w: nat, e: Envelope,
                             now: string, blame: Constraint, k: nat) returns (stored: StoredEvent)
    requires var r := Run(c, INITIAL, a);
      && w !in r.0.phases && Prepare(c.sha, e, now).Ok? && Foreign(w, mid)
      && k < |r.1| && r.1[k].result.Ok? && Repeats(e, r.1[k].env)
    ensures stored.logSeq == Run(c, INITIAL, a).1[k].result.value.logSeq
    ensures var r := Run(c, INITIAL, a);
      var m := Run(c, r.0, mid);
      var end := Run(c, m.0, b);
      var repeat := [Call(w, e, now)] + (mid + [Advance(w, blame)]);
      && Run(c, INITIAL, a + (mid + b)) == (end.0, r.1 + (m.1 + end.1))
      && Run(c, INITIAL, a + (repeat + b)) == (end.0, r.1 + (m.1 + [Response(w, e, Ok(stored))] + end.1))
  {
    var r := Run(c, INITIAL, a);
    RunKeeps(c, INITIAL, a);
    ResponsesBacked(c, INITIAL, a, k);
    stored := RepeatAmong(c, r.0, mid, w, e, now, blame, r.1[k]);
    var repeat := [Call(w, e, now)] + (mid + [Advance(w, blame)]);
    RunAppend(c, r.0, mid, b);
    RunAppend(c, INITIAL, a, mid + b);
    RunAppend(c, r.0, repeat, b);
    RunAppend(c, INITIAL, a, repeat + b);
  }
}
