// When is a TraceFinished really the last event of its trace? append_event reads "finished?" and "next
// trace_seq?" in two separate SELECTs, and the trigger of migration 0004 lets a TraceFinished through. A
// writer whose envelope is numbered ahead of its trace can therefore see the trace open, be overtaken by
// another finish, and then find its own number next in line.
module FinishLock {
  import opened Events
  import opened Json
  import opened Log
  import opened Wrappers
  import opened Writers

  // The envelope's number was already reachable when append_event was called: DecisionGraph always asks the
  // store for the next trace_seq just before it calls. Number 1 may wait for TraceStarted, which is no finish.
  predicate Timely(log: seq<Row>, m: Meta) {
    m.traceSeq <= 1 || m.traceSeq <= NextSeq(log, m.traceId)
  }

  predicate Disciplined(c: Config, log: seq<Row>, m: Meta) {
    (c.finishLock && !m.eventType.TraceFinished?) || Timely(log, m)
  }

  // Every call of the run is disciplined when it is made.
  ghost predicate AllDisciplined(c: Config, s: State, acts: seq<Action>)
    decreases |acts|
  {
    acts != [] ==>
      && (acts[0].Call? ==> Disciplined(c, s.log, acts[0].env.meta))
      && AllDisciplined(c, Do(c, s, acts[0]).0, acts[1..])
  }

  // ----- disciplined runs finish last -----

  // A writer past the finished check, whose number is next, still has an open trace before it.
  ghost predicate StillOpen(c: Config, log: seq<Row>, m: Meta, step: Step) {
    (c.finishLock && !m.eventType.TraceFinished?) ||
    (&& Timely(log, m)
     && (step.AskNextSeq? || step.Insert? ==> (NextSeq(log, m.traceId) == m.traceSeq ==> !Finished(log, m.traceId))))
  }

  ghost predicate FinishInv(c: Config, s: State) {
    && FinishLast(s.log)
    && forall w :: w in s.phases ==> StillOpen(c, s.log, s.phases[w].env.meta, s.phases[w].step)
  }

  lemma {:induction false} NothingFinished(log: seq<Row>, t: string)
    requires Sequenced(log) && NextSeq(log, t) == 0
    ensures !Finished(log, t)
  {
    if log != [] {
      var n := |log| - 1;
      SequencedPrefix(log, n);
      NextSeqCounts(log[..n], t);
      NothingFinished(log[..n], t);
      FinishedSnoc(log[..n], log[n], t);
      assert log == log[..n] + [log[n]];
    }
  }

  lemma StillOpenStays(c: Config, log: seq<Row>, row: Row, m: Meta, step: Step)
    requires Sequenced(log) && SequenceOk(row.meta, NextSeq(log, row.meta.traceId))
    requires StillOpen(c, log, m, step)
    ensures StillOpen(c, log + [row], m, step)
  {
    TraceEventsSnoc(log, row, m.traceId);
    FinishedSnoc(log, row, m.traceId);
    NextSeqCounts(log, m.traceId);
    if row.meta.traceId == m.traceId && NextSeq(log, m.traceId) == 0 {
      NothingFinished(log, m.traceId);
    }
  }

  lemma FinishLastSnoc(log: seq<Row>, row: Row)
    requires FinishLast(log) && !Finished(log, row.meta.traceId)
    ensures FinishLast(log + [row])
  {
  }

  lemma InsertFinishes(c: Config, s: State, w: nat, blame: Constraint)
    requires Inv(c, s) && FinishInv(c, s) && w in s.phases && Next(c, s.log, s.phases[w], blame).Inserts?
    ensures FinishInv(c, Landed(s, w))
  {
    var phase := s.phases[w];
    var row := ToRow(phase.env, phase.prepared, |s.log| + 1);
    InsertGuards(c, s.log, phase, blame);
    InsertKeeps(c, s.log, phase, row);
    FinishLastSnoc(s.log, row);
    forall v | v in s.phases - {w}
      ensures StillOpen(c, s.log + [row], s.phases[v].env.meta, s.phases[v].step)
    {
      StillOpenStays(c, s.log, row, s.phases[v].env.meta, s.phases[v].step);
    }
  }

  lemma StepFinishes(c: Config, log: seq<Row>, phase: Phase, blame: Constraint)
    requires StillOpen(c, log, phase.env.meta, phase.step) && Next(c, log, phase, blame).Goes?
    ensures StillOpen(c, log, phase.env.meta, Next(c, log, phase, blame).step)
  {
  }

  lemma AdvanceFinishes(c: Config, s: State, w: nat, blame: Constraint)
    requires Inv(c, s) && FinishInv(c, s) && w in s.phases
    ensures FinishInv(c, Do(c, s, Advance(w, blame)).0)
  {
    match Next(c, s.log, s.phases[w], blame)
    case Goes(_) =>
      StepFinishes(c, s.log, s.phases[w], blame);
      GoesStep(c, s, w, blame);
    case Replies(_) =>
      RepliesStep(c, s, w, blame);
    case Inserts =>
      InsertFinishes(c, s, w, blame);
      InsertStep(c, s, w, blame);
  }

  lemma CallFinishes(c: Config, s: State, w: nat, env: Envelope, now: string)
    requires FinishInv(c, s) && Disciplined(c, s.log, env.meta)
    ensures FinishInv(c, Do(c, s, Call(w, env, now)).0)
  {
    if w !in s.phases && Prepare(c.sha, env, now).Ok? { CallStep(c, s, w, env, now); }
  }

  lemma DoFinishes(c: Config, s: State, a: Action)
    requires Inv(c, s) && FinishInv(c, s)
    requires a.Call? ==> Disciplined(c, s.log, a.env.meta)
    ensures FinishInv(c, Do(c, s, a).0)
  {
    match a
    case Call(w, env, now) => CallFinishes(c, s, w, env, now);
    case Advance(w, blame) => if w in s.phases { AdvanceFinishes(c, s, w, blame); }
    case Fail(w) =>
  }

  lemma {:induction false} RunFinishes(c: Config, s: State, acts: seq<Action>)
    requires Inv(c, s) && FinishInv(c, s) && AllDisciplined(c, s, acts)
    ensures FinishInv(c, Run(c, s, acts).0)
    decreases |acts|
  {
    if acts != [] {
      DoKeeps(c, s, acts[0]);
      DoFinishes(c, s, acts[0]);
      RunFinishes(c, Do(c, s, acts[0]).0, acts[1..]);
    }
  }

  // However the writers interleave, if every envelope was numbered no later than its trace had reached when
  // it was handed in, each TraceFinished is the last event of its trace.
  lemma DisciplinedRunsFinishLast(c: Config, acts: seq<Action>)
    requires AllDisciplined(c, INITIAL, acts)
    ensures FinishLast(Run(c, INITIAL, acts).0.log)
  {
    RunFinishes(c, INITIAL, acts);
  }

  // ----- one undisciplined call is enough -----

  function Advances(w: nat, n: nat): seq<Action> {
    if n == 0 then [] else [Advance(w, UniqueKey)] + Advances(w, n - 1)
  }

  // A writer running on its own takes all its steps in a row.
  function Alone(w: nat, env: Envelope, now: string): seq<Action> {
    [Call(w, env, now)] + Advances(w, 4)
  }

  function StepsLeft(step: Step): nat {
    match step
    case LookForKey => 4
    case AskFinished => 3
    case AskNextSeq => 2
    case Insert => 1
    case LookAgain => 1
  }

  // m can be appended to the log as it stands.
  ghost predicate Appendable(log: seq<Row>, m: Meta) {
    && FindKey(log, m).None?
    && !HasEventId(log, m.eventId)
    && !Finished(log, m.traceId)
    && SequenceOk(m, NextSeq(log, m.traceId))
  }

  lemma RunCons(c: Config, s: State, a: Action, acts: seq<Action>)
    ensures Run(c, s, [a] + acts).0 == Run(c, Do(c, s, a).0, acts).0
    ensures AllDisciplined(c, s, [a] + acts) <==>
      (a.Call? ==> Disciplined(c, s.log, a.env.meta)) && AllDisciplined(c, Do(c, s, a).0, acts)
  {
    assert ([a] + acts)[1..] == acts;
  }

  lemma {:induction false} DisciplinedAppend(c: Config, s: State, a: seq<Action>, b: seq<Action>)
    ensures AllDisciplined(c, s, a + b) <==> AllDisciplined(c, s, a) && AllDisciplined(c, Run(c, s, a).0, b)
    decreases |a|
  {
    if a == [] {
      assert a + b == b;
    } else {
      assert (a + b)[0] == a[0] && (a + b)[1..] == a[1..] + b;
      DisciplinedAppend(c, Do(c, s, a[0]).0, a[1..], b);
    }
  }

  lemma NotReported(log: seq<Row>, m: Meta, blame: Constraint)
    requires Sequenced(log) && Appendable(log, m)
    ensures Reported(log, m, blame).None?
  {
    TraceSeqTaken(log, m);
  }

  lemma AloneNext(c: Config, log: seq<Row>, phase: Phase)
    requires Sequenced(log) && Appendable(log, phase.env.meta) && !phase.step.LookAgain?
    ensures phase.step.Insert? <==> Next(c, log, phase, UniqueKey).Inserts?
    ensures !phase.step.Insert? ==>
      && Next(c, log, phase, UniqueKey).Goes?
      && !Next(c, log, phase, UniqueKey).step.LookAgain?
      && StepsLeft(Next(c, log, phase, UniqueKey).step) == StepsLeft(phase.step) - 1
  {
    NotReported(log, phase.env.meta, UniqueKey);
  }

  lemma {:induction false} AloneLands(c: Config, s: State, w: nat)
    requires w in s.phases && !s.phases[w].step.LookAgain?
    requires Sequenced(s.log) && Appendable(s.log, s.phases[w].env.meta)
    ensures Run(c, s, Advances(w, StepsLeft(s.phases[w].step))).0 == Landed(s, w)
    ensures AllDisciplined(c, s, Advances(w, StepsLeft(s.phases[w].step)))
    decreases StepsLeft(s.phases[w].step)
  {
    var adv := Advance(w, UniqueKey);
    var n := StepsLeft(s.phases[w].step);
    AloneNext(c, s.log, s.phases[w]);
    RunCons(c, s, adv, Advances(w, n - 1));
    if s.phases[w].step.Insert? {
      InsertStep(c, s, w, UniqueKey);
    } else {
      GoesStep(c, s, w, UniqueKey);
      var s' := Do(c, s, adv).0;
      AloneLands(c, s', w);
      assert s'.phases - {w} == s.phases - {w};
    }
  }

  lemma CalledLands(c: Config, s: State, w: nat, env: Envelope, p: Prepared, s1: State)
    requires Sequenced(s.log) && w !in s.phases && Appendable(s.log, env.meta)
    requires s1 == State(s.log, s.phases[w := Phase(LookForKey, env, p)])
    ensures Run(c, s1, Advances(w, 4)).0 == State(s.log + [ToRow(env, p, |s.log| + 1)], s.phases)
    ensures AllDisciplined(c, s1, Advances(w, 4))
  {
    assert s1.phases - {w} == s.phases;
    AloneLands(c, s1, w);
  }

  lemma AloneAppends(c: Config, s: State, w: nat, env: Envelope, now: string)
    requires Sequenced(s.log) && w !in s.phases && Prepare(c.sha, env, now).Ok? && Appendable(s.log, env.meta)
    ensures Run(c, s, Alone(w, env, now)).0 ==
      State(s.log + [ToRow(env, Prepare(c.sha, env, now).value, |s.log| + 1)], s.phases)
    ensures AllDisciplined(c, s, Alone(w, env, now))
  {
    CallStep(c, s, w, env, now);
    RunCons(c, s, Call(w, env, now), Advances(w, 4));
    var s1 := Do(c, s, Call(w, env, now)).0;
    CalledLands(c, s, w, env, Prepare(c.sha, env, now).value, s1);
  }

  // A text longer than every producer and event id around.
  ghost function Longest(log: seq<Row>): nat {
    if log == [] then 0 else
      var m := log[|log| - 1].meta;
      Longest(log[..|log| - 1]) + |m.eventId| + |m.source.producerId|
  }

  ghost function NewName(log: seq<Row>, m: Meta): string {
    seq(Longest(log) + |m.eventId| + |m.source.producerId| + 1, _ => 'a')
  }

  lemma {:induction false} LongestBounds(log: seq<Row>, i: nat)
    requires i < |log|
    ensures |log[i].meta.eventId| <= Longest(log) && |log[i].meta.source.producerId| <= Longest(log)
  {
    if i < |log| - 1 {
      LongestBounds(log[..|log| - 1], i);
    }
  }

  // A payload that satisfies the schemas of TraceStarted, PrecedentCited and TraceFinished alike.
  const ENTITY := [Field("entity_type", Str("e")), Field("entity_id", Str("i"))]
  const STARTED := [
    Field("workflow", Str("w")), Field("title", Str("t")), Field("primary_entity", Dict(ENTITY)),
    Field("cited_trace_id", Str("c")), Field("reason", Str("r")), Field("outcome", Str("success"))]

  // An event some other producer could append next.
  function Filler(t: string, n: int, finish: bool, name: string): Envelope {
    var kind := if finish then TraceFinished else if n == 0 then TraceStarted else PrecedentCited;
    Envelope(Meta(name, t, n, kind, "", SourceRef(name, "", None), ActorRef("", ""), "k", None, None, 1),
      Dict(STARTED), [])
  }

  lemma StartedDistinct()
    ensures DistinctFields(STARTED) && DistinctFields(ENTITY)
    ensures FloatFree(Dict(STARTED))
  {
    assert |"workflow"| == 8 && |"title"| == 5 && |"primary_entity"| == 14;
    assert "cited_trace_id"[0] == 'c' && "primary_entity"[0] == 'p';
    assert |"reason"| == 6 && |"outcome"| == 7;
    assert |"entity_type"| == 11 && |"entity_id"| == 9;
  }

  lemma FillerSchema(p: Value, entity: Value)
    requires p.Dict? && Get(p, "workflow") == Some(Str("w")) && Get(p, "title") == Some(Str("t"))
    requires Get(p, "primary_entity") == Some(entity) && entity.Dict?
    requires Get(entity, "entity_type") == Some(Str("e")) && Get(entity, "entity_id") == Some(Str("i"))
    requires Get(p, "cited_trace_id") == Some(Str("c")) && Get(p, "reason") == Some(Str("r"))
    requires Get(p, "outcome") == Some(Str("success"))
    ensures SchemaOk(TraceStarted, p) && SchemaOk(PrecedentCited, p) && SchemaOk(TraceFinished, p)
  {
    assert HasText(entity, "entity_type") && HasText(entity, "entity_id");
    assert HasRecord(p, "primary_entity", ["entity_type", "entity_id"]);
  }

  lemma StartedGets()
    ensures SchemaOk(TraceStarted, Dict(STARTED))
    ensures SchemaOk(PrecedentCited, Dict(STARTED)) && SchemaOk(TraceFinished, Dict(STARTED))
  {
    StartedDistinct();
    GetAt(STARTED, 0); GetAt(STARTED, 1); GetAt(STARTED, 2);
    GetAt(STARTED, 3); GetAt(STARTED, 4); GetAt(STARTED, 5);
    GetAt(ENTITY, 0); GetAt(ENTITY, 1);
    FillerSchema(Dict(STARTED), Dict(ENTITY));
  }

  lemma FillerPrepares(sha: string -> string, t: string, n: int, finish: bool, name: string, now: string)
    ensures Prepare(sha, Filler(t, n, finish, name), now).Ok?
  {
    StartedGets();
    StartedDistinct();
    CanonicalizeAccepts(Dict(STARTED));
    PrepareAccepts(sha, Filler(t, n, finish, name), now);
  }

  lemma PrepareAccepts(sha: string -> string, env: Envelope, now: string)
    requires env.meta.idempotencyKey == "k" && SchemaOk(env.meta.eventType, env.payload)
    requires Canonicalize(env.payload).Ok?
    ensures Prepare(sha, env, now).Ok?
  {
    assert Utf8Length("k") == 1 + Utf8Length("k"[1..]) == 1;
  }

  lemma FillerAppendable(log: seq<Row>, t: string, finish: bool, m: Meta)
    requires Sequenced(log) && !Finished(log, t) && (finish ==> NextSeq(log, t) > 0)
    ensures Appendable(log, Filler(t, NextSeq(log, t), finish, NewName(log, m)).meta)
  {
    var name := NewName(log, m);
    var f := Filler(t, NextSeq(log, t), finish, name).meta;
    forall i | 0 <= i < |log| ensures log[i].meta.eventId != name && !SameKey(log[i].meta, f) {
      LongestBounds(log, i);
    }
  }

  // Some other writer appends the trace's next event, or its finish, without touching what m needs.
  lemma FillOne(c: Config, s: State, w: nat, t: string, finish: bool, m: Meta) returns (acts: seq<Action>)
    requires Inv(c, s) && w !in s.phases && !Finished(s.log, t) && (finish ==> NextSeq(s.log, t) > 0)
    requires FindKey(s.log, m).None? && !HasEventId(s.log, m.eventId)
    ensures var s' := Run(c, s, acts).0;
      && AllDisciplined(c, s, acts) && Inv(c, s') && s'.phases == s.phases
      && NextSeq(s'.log, t) == NextSeq(s.log, t) + 1 && (Finished(s'.log, t) <==> finish)
      && FindKey(s'.log, m).None? && !HasEventId(s'.log, m.eventId)
  {
    var env := Filler(t, NextSeq(s.log, t), finish, NewName(s.log, m));
    acts := Alone(w, env, "");
    FillerPrepares(c.sha, t, NextSeq(s.log, t), finish, NewName(s.log, m), "");
    FillerAppendable(s.log, t, finish, m);
    AloneAppends(c, s, w, env, "");
    RunKeeps(c, s, acts);
    var row := ToRow(env, Prepare(c.sha, env, "").value, |s.log| + 1);
    TraceEventsSnoc(s.log, row, t);
    FinishedSnoc(s.log, row, t);
    NewRowAvoids(s.log, row, m);
  }

  lemma NewRowAvoids(log: seq<Row>, row: Row, m: Meta)
    requires FindKey(log, m).None? && !HasEventId(log, m.eventId)
    requires |row.meta.eventId| > |m.eventId| && |row.meta.source.producerId| > |m.source.producerId|
    ensures FindKey(log + [row], m).None? && !HasEventId(log + [row], m.eventId)
  {
    var log' := log + [row];
    assert forall i :: 0 <= i < |log'| ==> log'[i] == (if i < |log| then log[i] else row);
  }

  lemma {:induction false} FillTo(c: Config, s: State, w: nat, t: string, target: nat, m: Meta)
    returns (acts: seq<Action>)
    requires Inv(c, s) && w !in s.phases && !Finished(s.log, t) && NextSeq(s.log, t) <= target
    requires FindKey(s.log, m).None? && !HasEventId(s.log, m.eventId)
    ensures var s' := Run(c, s, acts).0;
      && AllDisciplined(c, s, acts) && Inv(c, s') && s'.phases == s.phases
      && NextSeq(s'.log, t) == target && !Finished(s'.log, t)
      && FindKey(s'.log, m).None? && !HasEventId(s'.log, m.eventId)
    decreases target - NextSeq(s.log, t)
  {
    if NextSeq(s.log, t) == target {
      acts := [];
    } else {
      var first := FillOne(c, s, w, t, false, m);
      var s1 := Run(c, s, first).0;
      var rest := FillTo(c, s1, w, t, target, m);
      acts := first + rest;
      RunAppend(c, s, first, rest);
      DisciplinedAppend(c, s, first, rest);
    }
  }

  lemma {:induction false} IdleWriter(busy: set<nat>) returns (w: nat)
    ensures forall v :: v in busy ==> v < w
  {
    if busy == {} {
      w := 0;
    } else {
      var v :| v in busy;
      var u := IdleWriter(busy - {v});
      w := if u <= v then v + 1 else u;
      assert forall x :: x in busy ==> x == v || x in busy - {v};
    }
  }

  // The overtaken writer: past the finished check, its number ahead of the trace, it lets another writer
  // bring the trace up to its number with a finish, and is then let through itself.
  lemma Overtake(c: Config, s: State, w: nat) returns (acts: seq<Action>)
    requires Inv(c, s) && w in s.phases && s.phases[w].step.AskNextSeq?
    requires var m := s.phases[w].env.meta;
      && !Disciplined(c, s.log, m) && !m.eventType.TraceStarted? && !Finished(s.log, m.traceId)
      && FindKey(s.log, m).None? && !HasEventId(s.log, m.eventId)
    ensures AllDisciplined(c, s, acts) && !FinishLast(Run(c, s, acts).0.log)
  {
    var m := s.phases[w].env.meta;
    var v := IdleWriter(s.phases.Keys);
    var fill := FillTo(c, s, v, m.traceId, m.traceSeq - 1, m);
    var s1 := Run(c, s, fill).0;
    var finish := FillOne(c, s1, v, m.traceId, true, m);
    var s2 := Run(c, s1, finish).0;
    var last := Advances(w, 2);
    OvertakenLands(c, s2, w);
    RunAppend(c, s1, finish, last);
    DisciplinedAppend(c, s1, finish, last);
    RunAppend(c, s, fill, finish + last);
    DisciplinedAppend(c, s, fill, finish + last);
    acts := fill + (finish + last);
  }

  lemma OvertakenNext(c: Config, log: seq<Row>, phase: Phase)
    requires Sequenced(log) && phase.step.Insert?
    requires var m := phase.env.meta;
      && !(c.finishLock && !m.eventType.TraceFinished?) && NextSeq(log, m.traceId) == m.traceSeq
      && FindKey(log, m).None? && !HasEventId(log, m.eventId)
    ensures Next(c, log, phase, UniqueKey).Inserts?
  {
    TraceSeqTaken(log, phase.env.meta);
  }

  lemma BehindFinish(log: seq<Row>, row: Row)
    requires Finished(log, row.meta.traceId)
    ensures !FinishLast(log + [row])
  {
    var t := row.meta.traceId;
    var i :| 0 <= i < |log| && log[i].meta.traceId == t && log[i].meta.eventType.TraceFinished?;
    var log' := log + [row];
    assert log'[i] == log[i] && log'[|log|] == row;
  }

  // A writer two steps from its end.
  lemma TwoSteps(c: Config, s: State, w: nat, s1: State, s2: State)
    requires Do(c, s, Advance(w, UniqueKey)).0 == s1 && Do(c, s1, Advance(w, UniqueKey)).0 == s2
    ensures AllDisciplined(c, s, Advances(w, 2)) && Run(c, s, Advances(w, 2)).0 == s2
  {
    var adv := Advance(w, UniqueKey);
    RunCons(c, s1, adv, Advances(w, 0));
    RunCons(c, s, adv, Advances(w, 1));
  }

  // The state after the two last steps of a writer.
  lemma LastSteps(c: Config, s: State, w: nat) returns (s2: State, row: Row)
    requires w in s.phases && Next(c, s.log, s.phases[w], UniqueKey) == Goes(Step.Insert)
    requires Next(c, s.log, s.phases[w].(step := Step.Insert), UniqueKey).Inserts?
    ensures row.meta == s.phases[w].env.meta && s2.log == s.log + [row]
    ensures AllDisciplined(c, s, Advances(w, 2)) && Run(c, s, Advances(w, 2)).0 == s2
  {
    GoesStep(c, s, w, UniqueKey);
    var s1 := Do(c, s, Advance(w, UniqueKey)).0;
    InsertStep(c, s1, w, UniqueKey);
    s2 := Landed(s1, w);
    TwoSteps(c, s, w, s1, s2);
    row := ToRow(s1.phases[w].env, s1.phases[w].prepared, |s.log| + 1);
  }

  lemma OvertakenLands(c: Config, s: State, w: nat)
    requires Sequenced(s.log) && w in s.phases && s.phases[w].step.AskNextSeq?
    requires var m := s.phases[w].env.meta;
      && !(c.finishLock && !m.eventType.TraceFinished?) && !m.eventType.TraceStarted? && m.traceSeq > 0
      && Finished(s.log, m.traceId) && NextSeq(s.log, m.traceId) == m.traceSeq
      && FindKey(s.log, m).None? && !HasEventId(s.log, m.eventId)
    ensures AllDisciplined(c, s, Advances(w, 2)) && !FinishLast(Run(c, s, Advances(w, 2)).0.log)
  {
    OvertakenNext(c, s.log, s.phases[w].(step := Step.Insert));
    AsksAndGoes(c, s.log, s.phases[w]);
    var s2, row := LastSteps(c, s, w);
    BehindFinish(s.log, row);
  }

  lemma AsksAndGoes(c: Config, log: seq<Row>, phase: Phase)
    requires phase.step.AskNextSeq? && SequenceOk(phase.env.meta, NextSeq(log, phase.env.meta.traceId))
    ensures Next(c, log, phase, UniqueKey) == Goes(Step.Insert)
  {
  }

  // A call that finds its trace open and its key unseen comes to the question for the next trace_seq.
  lemma ReachesAskNextSeq(c: Config, s: State, w: nat, env: Envelope, now: string)
    requires Inv(c, s) && w !in s.phases && Prepare(c.sha, env, now).Ok?
    requires FindKey(s.log, env.meta).None? && !Finished(s.log, env.meta.traceId)
    ensures var s1 := Do(c, s, Call(w, env, now)).0;
      var s3 := Run(c, s1, Advances(w, 2)).0;
      && AllDisciplined(c, s1, Advances(w, 2)) && Inv(c, s3) && s3.log == s.log
      && w in s3.phases && s3.phases[w].env == env && s3.phases[w].step.AskNextSeq?
  {
    var adv := Advance(w, UniqueKey);
    DoKeeps(c, s, Call(w, env, now));
    CallStep(c, s, w, env, now);
    var s1 := Do(c, s, Call(w, env, now)).0;
    GoesStep(c, s1, w, UniqueKey);
    var s2 := Do(c, s1, adv).0;
    GoesStep(c, s2, w, UniqueKey);
    RunCons(c, s2, adv, Advances(w, 0));
    RunCons(c, s1, adv, Advances(w, 1));
    RunKeeps(c, s1, Advances(w, 2));
  }

  // From any reachable state, an undisciplined call alone, all others being disciplined, can leave an event
  // after a TraceFinished of its trace.
  lemma UndisciplinedCanBreak(c: Config, s: State, w: nat, env: Envelope, now: string) returns (acts: seq<Action>)
    requires Inv(c, s) && w !in s.phases && Prepare(c.sha, env, now).Ok?
    requires FindKey(s.log, env.meta).None? && !HasEventId(s.log, env.meta.eventId)
    requires !Finished(s.log, env.meta.traceId) && !env.meta.eventType.TraceStarted?
    requires !Disciplined(c, s.log, env.meta)
    ensures var s1 := Do(c, s, Call(w, env, now)).0;
      AllDisciplined(c, s1, acts) && !FinishLast(Run(c, s1, acts).0.log)
  {
    var s1 := Do(c, s, Call(w, env, now)).0;
    var ask := Advances(w, 2);
    ReachesAskNextSeq(c, s, w, env, now);
    var rest := Overtake(c, Run(c, s1, ask).0, w);
    RunAppend(c, s1, ask, rest);
    DisciplinedAppend(c, s1, ask, rest);
    acts := ask + rest;
  }

  // Exactly when a call is safe: after a disciplined run, a new envelope for an open trace is disciplined if
  // and only if no disciplined continuation of its call leaves an event behind a TraceFinished.
  lemma SafeExactlyWhenDisciplined(c: Config, run: seq<Action>, w: nat, env: Envelope, now: string)
    requires AllDisciplined(c, INITIAL, run)
    requires var s := Run(c, INITIAL, run).0;
      && w !in s.phases && Prepare(c.sha, env, now).Ok?
      && FindKey(s.log, env.meta).None? && !HasEventId(s.log, env.meta.eventId)
      && !Finished(s.log, env.meta.traceId) && !env.meta.eventType.TraceStarted?
    ensures var s := Run(c, INITIAL, run).0;
      var s1 := Do(c, s, Call(w, env, now)).0;
      Disciplined(c, s.log, env.meta) <==>
        forall acts :: AllDisciplined(c, s1, acts) ==> FinishLast(Run(c, s1, acts).0.log)
  {
    var s := Run(c, INITIAL, run).0;
    var call := Call(w, env, now);
    var s1 := Do(c, s, call).0;
    RunKeeps(c, INITIAL, run);
    RunFinishes(c, INITIAL, run);
    if Disciplined(c, s.log, env.meta) {
      DoKeeps(c, s, call);
      DoFinishes(c, s, call);
      forall acts | AllDisciplined(c, s1, acts) ensures FinishLast(Run(c, s1, acts).0.log) {
        RunFinishes(c, s1, acts);
      }
    } else {
      var acts := UndisciplinedCanBreak(c, s, w, env, now);
    }
  }

  // The trigger does not make every TraceFinished the last event of its trace: here two of them stand in one.
  lemma FinishLastFails(sha: string -> string) returns (acts: seq<Action>)
    ensures !FinishLast(Run(Config(sha, true), INITIAL, acts).0.log)
  {
    var c := Config(sha, true);
    var env := Filler("t", 2, true, "p");
    FillerPrepares(sha, "t", 2, true, "p", "");
    var rest := UndisciplinedCanBreak(c, INITIAL, 0, env, "");
    RunCons(c, INITIAL, Call(0, env, ""), rest);
    acts := [Call(0, env, "")] + rest;
  }

  // DecisionGraph numbers an envelope with the next trace_seq it has just read, so its calls are disciplined
  // whatever other writers have appended in between.
  lemma ApiCallsAreDisciplined(c: Config, log: seq<Row>, later: seq<Row>, m: Meta)
    requires log <= later && m.traceSeq == NextSeq(log, m.traceId)
    ensures Disciplined(c, later, m)
  {
    NextSeqGrows(later, |log|, m.traceId);
    assert later[..|log|] == log;
  }
}
