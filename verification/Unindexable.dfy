// A log append_event accepts and no projector gets past: the schema check does not look at the system of a
// trace's primary entity, and a list there cannot be bound to the precedent index's TEXT column.
module Unindexable {
  import opened Events
  import opened FinishLock
  import opened Json
  import opened Log
  import opened Projection
  import opened Replay
  import opened Totality
  import opened Wrappers
  import opened Writers

  // One payload for TraceStarted, PolicyEvaluated and TraceFinished alike.
  const PARTY := [Field("entity_type", Str("e")), Field("entity_id", Str("i")), Field("system", List([]))]
  const POLICY := [Field("policy_id", Str("p")), Field("policy_version", Str("1"))]
  const DETAILS := [
    Field("workflow", Str("w")), Field("title", Str("t")), Field("primary_entity", Dict(PARTY)),
    Field("policy", Dict(POLICY)), Field("inputs", List([])), Field("decision", Str("allow")),
    Field("outcome", Str("success"))]

  lemma DetailsDistinct()
    ensures DistinctFields(PARTY) && DistinctFields(POLICY) && DistinctFields(DETAILS)
    ensures FloatFree(Dict(DETAILS))
  {
    assert |"entity_type"| == 11 && |"entity_id"| == 9 && |"system"| == 6;
    assert |"policy_id"| == 9 && |"policy_version"| == 14;
    assert |"workflow"| == 8 && |"title"| == 5 && |"primary_entity"| == 14 && |"policy"| == 6;
    assert "inputs"[0] == 'i' && "policy"[0] == 'p' && |"inputs"| == 6;
    assert "decision"[0] == 'd' && "workflow"[0] == 'w' && |"decision"| == 8 && |"outcome"| == 7;
    assert FloatFree(Dict(PARTY)) && FloatFree(Dict(POLICY));
  }

  lemma DetailsRead()
    ensures var p := Dict(DETAILS);
      && Get(p, "workflow") == Some(Str("w")) && Get(p, "title") == Some(Str("t"))
      && Get(p, "primary_entity") == Some(Dict(PARTY)) && Get(p, "policy") == Some(Dict(POLICY))
      && Get(p, "inputs") == Some(List([])) && Get(p, "decision") == Some(Str("allow"))
      && Get(p, "outcome") == Some(Str("success"))
  {
    DetailsDistinct();
    GetAt(DETAILS, 0); GetAt(DETAILS, 1); GetAt(DETAILS, 2); GetAt(DETAILS, 3);
    GetAt(DETAILS, 4); GetAt(DETAILS, 5); GetAt(DETAILS, 6);
  }

  lemma PartsRead()
    ensures Get(Dict(PARTY), "entity_type") == Some(Str("e")) && Get(Dict(PARTY), "entity_id") == Some(Str("i"))
    ensures Get(Dict(PARTY), "system") == Some(List([]))
    ensures Get(Dict(POLICY), "policy_id") == Some(Str("p")) && Get(Dict(POLICY), "policy_version") == Some(Str("1"))
  {
    DetailsDistinct();
    GetAt(PARTY, 0); GetAt(PARTY, 1); GetAt(PARTY, 2);
    GetAt(POLICY, 0); GetAt(POLICY, 1);
  }

  function Kind(n: nat): EventType {
    if n == 0 then TraceStarted else if n == 1 then PolicyEvaluated else TraceFinished
  }

  lemma SchemaFrom(n: nat, p: Value, entity: Value, policy: Value)
    requires p.Dict? && entity.Dict? && policy.Dict?
    requires Get(p, "workflow") == Some(Str("w")) && Get(p, "title") == Some(Str("t"))
    requires Get(p, "primary_entity") == Some(entity) && Get(p, "policy") == Some(policy)
    requires Get(p, "inputs") == Some(List([])) && Get(p, "decision") == Some(Str("allow"))
    requires Get(p, "outcome") == Some(Str("success"))
    requires Get(entity, "entity_type") == Some(Str("e")) && Get(entity, "entity_id") == Some(Str("i"))
    requires Get(policy, "policy_id") == Some(Str("p")) && Get(policy, "policy_version") == Some(Str("1"))
    ensures SchemaOk(Kind(n), p)
  {
    assert HasRecord(p, "primary_entity", ["entity_type", "entity_id"]);
    assert HasRecord(p, "policy", ["policy_id", "policy_version"]);
  }

  lemma DetailsSchema(n: nat)
    ensures SchemaOk(Kind(n), Dict(DETAILS))
  {
    DetailsRead();
    PartsRead();
    SchemaFrom(n, Dict(DETAILS), Dict(PARTY), Dict(POLICY));
  }

  // Event n of the trace; name tells the three apart.
  function Event(n: nat, name: string): Envelope {
    Envelope(Meta(name, "t", n, Kind(n), "", SourceRef(name, "", None), ActorRef("", ""), "k", None, None, 1),
      Dict(DETAILS), [])
  }

  lemma EventPrepares(sha: string -> string, n: nat, name: string)
    ensures Prepare(sha, Event(n, name), "").Ok?
  {
    DetailsSchema(n);
    DetailsDistinct();
    CanonicalizeAccepts(Dict(DETAILS));
    PrepareAccepts(sha, Event(n, name), "");
  }

  // What the row of such an event says.
  ghost predicate Says(row: Row, n: nat, name: string) {
    && row.meta == Event(n, name).meta
    && PayloadAt(row) == Norm(Dict(DETAILS))
  }

  ghost function Name(n: nat): string {
    if n == 0 then "a" else if n == 1 then "b" else "c"
  }

  ghost predicate Told(log: seq<Row>) {
    |log| <= 3 && forall i :: 0 <= i < |log| ==> Says(log[i], i, Name(i))
  }

  lemma NextOf(log: seq<Row>, m: Meta)
    requires NextSeq(log, m.traceId) == m.traceSeq == |log|
    requires m.eventType.TraceStarted? <==> log == []
    requires forall i :: 0 <= i < |log| ==> log[i].meta.eventId != m.eventId
    requires forall i :: 0 <= i < |log| ==> log[i].meta.source.producerId != m.source.producerId
    requires forall i :: 0 <= i < |log| ==> !log[i].meta.eventType.TraceFinished?
    ensures Appendable(log, m)
  {
  }

  lemma NamesDiffer(i: nat, n: nat)
    requires i < n < 3
    ensures Name(i) != Name(n) && Kind(i) != TraceFinished
  {
    assert "a"[0] != "b"[0] && "b"[0] != "c"[0] && "a"[0] != "c"[0];
  }

  lemma ToldNext(log: seq<Row>, n: nat)
    requires Told(log) && n == |log| < 3 && Sequenced(log)
    ensures Appendable(log, Event(n, Name(n)).meta)
  {
    forall i | 0 <= i < |log|
      ensures log[i].meta.traceId == "t" && log[i].meta.eventId == log[i].meta.source.producerId != Name(n)
      ensures !log[i].meta.eventType.TraceFinished?
    {
      assert Says(log[i], i, Name(i));
      NamesDiffer(i, n);
    }
    OneTrace(log, "t");
    NextSeqCounts(log, "t");
    NextOf(log, Event(n, Name(n)).meta);
  }

  lemma {:induction false} OneTrace(log: seq<Row>, t: string)
    requires forall i :: 0 <= i < |log| ==> log[i].meta.traceId == t
    ensures TraceEvents(log, t) == log
  {
    if log != [] {
      var n := |log| - 1;
      OneTrace(log[..n], t);
      TraceEventsSnoc(log[..n], log[n], t);
      assert log == log[..n] + [log[n]];
    }
  }

  // The row event n becomes.
  lemma EventRow(c: Config, n: nat, name: string) returns (row: Row)
    ensures Prepare(c.sha, Event(n, name), "").Ok?
    ensures row == ToRow(Event(n, name), Prepare(c.sha, Event(n, name), "").value, n + 1) && Says(row, n, name)
  {
    var e := Event(n, name);
    EventPrepares(c.sha, n, name);
    row := ToRow(e, Prepare(c.sha, e, "").value, n + 1);
    RowReadsBack(c.sha, e, "", n + 1);
    RowSound(c.sha, row);
  }

  lemma ToldSnoc(log: seq<Row>, row: Row)
    requires Told(log) && |log| < 3 && Says(row, |log|, Name(|log|))
    ensures Told(log + [row])
  {
  }

  lemma EventAppends(c: Config, s: State, n: nat) returns (s': State)
    requires Inv(c, s) && s.phases == map[] && Told(s.log) && n == |s.log| < 3
    ensures s' == Run(c, s, Alone(0, Event(n, Name(n)), "")).0
    ensures Inv(c, s') && s'.phases == map[] && Told(s'.log) && |s'.log| == n + 1
  {
    var e := Event(n, Name(n));
    var row := EventRow(c, n, Name(n));
    ToldNext(s.log, n);
    AloneAppends(c, s, 0, e, "");
    RunKeeps(c, s, Alone(0, e, ""));
    ToldSnoc(s.log, row);
    s' := Run(c, s, Alone(0, e, "")).0;
  }

  lemma ListSystem(log: seq<Row>, t: string, p: Value, entity: Value, j: nat)
    requires TraceEvents(log, t) != [] && PayloadAt(TraceEvents(log, t)[0]) == p
    requires j < |log| && log[j].meta.traceId == t && log[j].meta.eventType.PolicyEvaluated?
    requires Get(p, "primary_entity") == Some(entity) && Get(entity, "system") == Some(List([]))
    ensures !Indexable(log, t)
  {
    assert SystemValue(log, t) == Some(List([]));
    assert HasIndexed(log, t);
  }

  lemma DetailsNorm()
    ensures Get(Norm(Dict(DETAILS)), "primary_entity") == Some(Norm(Dict(PARTY)))
    ensures Get(Norm(Dict(PARTY)), "system") == Some(List([]))
  {
    DetailsRead();
    PartsRead();
    NormGet(Dict(DETAILS), "primary_entity");
    NormGet(Dict(PARTY), "system");
    EmptyNorm();
  }

  lemma EmptyNorm()
    ensures Norm(List([])) == List([])
  {
  }

  lemma ToldUnindexable(log: seq<Row>)
    requires Told(log) && |log| == 3
    ensures !Indexable(log, "t")
  {
    forall i | 0 <= i < |log| ensures log[i].meta.traceId == "t" { assert Says(log[i], i, Name(i)); }
    OneTrace(log, "t");
    DetailsNorm();
    assert Says(log[0], 0, Name(0)) && Says(log[1], 1, Name(1));
    ListSystem(log, "t", Norm(Dict(DETAILS)), Norm(Dict(PARTY)), 1);
  }

  // Projection can raise on a log whose events all went through append_event.
  lemma ProjectionCanRaise(c: Config) returns (acts: seq<Action>)
    requires c.finishLock
    ensures var log := Run(c, INITIAL, acts).0.log;
      StoreLog(c, log) && Readable(log) && Single(c, log, |log|).Err?
  {
    assert Told(INITIAL.log);
    EveryRunKeepsShape(c, []);
    var a0, a1, a2 := Alone(0, Event(0, "a"), ""), Alone(0, Event(1, "b"), ""), Alone(0, Event(2, "c"), "");
    var s1 := EventAppends(c, INITIAL, 0);
    var s2 := EventAppends(c, s1, 1);
    var s3 := EventAppends(c, s2, 2);
    RunAppend(c, INITIAL, a0, a1);
    RunAppend(c, INITIAL, a0 + a1, a2);
    acts := a0 + a1 + a2;
    var log := Run(c, INITIAL, acts).0.log;
    StoreLogReadable(c, log);
    ToldUnindexable(log);
    assert Says(log[2], 2, "c");
    ProjectsExactlyWhenIndexable(c, log, 3);
  }

  // And once it does, it goes on raising at the same event whatever is appended afterwards.
  lemma NeverRecovers(c: Config, log: seq<Row>, later: seq<Row>, n: nat, k: nat)
    requires StoreLog(c, log) && StoreLog(c, later) && log <= later && Readable(log) && Readable(later)
    requires n <= |log| && n <= k <= |later| && Single(c, log, n).Err?
    ensures Single(c, later, k) == Single(c, log, n)
  {
    SingleStable(c, log, later, n);
    assert Load(later)[..k][..n] == Load(later)[..n];
    StepsFailPrefix(c.sha, EMPTY, later, Load(later), n, k, {});
  }

  // Whatever is appended, retried, restarted or rebuilt, the cursor never gets past the end of a trace that
  // cannot be indexed.
  lemma NeverPasses(c: Config, moves: seq<Move>, i: nat)
    requires c.finishLock
    requires var log := PerformAll(c, moves).log;
      i < |log| && log[i].meta.eventType.TraceFinished? && !Indexable(log, log[i].meta.traceId)
    ensures PerformAll(c, moves).proj.cursor <= i
  {
    var s := PerformAll(c, moves);
    ProjectsExactlyWhenIndexable(c, s.log, s.proj.cursor);
  }
}
