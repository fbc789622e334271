// What the policy evaluation index holds, in terms of the events projected so far.
module PolicyIndex {
  import opened Events
  import opened GraphShape
  import opened Log
  import opened Projection
  import opened Replay
  import opened Totality
  import opened Wrappers
  import opened Writers

  // The row of a PolicyEvaluated event and its key.
  ghost function IndexId(ev: StoredEvent): string {
    var policy := RecordAt(ev.payload, "policy");
    ev.meta.traceId + ":" + TextAt(policy, "policy_id") + ":" + TextAt(policy, "policy_version") + ":" + ev.meta.eventId
  }

  ghost function IndexRow(ev: StoredEvent): PolicyEval {
    var policy := RecordAt(ev.payload, "policy");
    PolicyEval(ev.meta.traceId, TextAt(policy, "policy_id"), TextAt(policy, "policy_version"), ev.logSeq,
               ev.meta.occurredAt)
  }

  ghost predicate Evaluates(ev: StoredEvent) {
    ev.meta.eventType.PolicyEvaluated?
  }

  // INSERT OR IGNORE
  ghost function WithRow(evals: map<string, PolicyEval>, ev: StoredEvent): map<string, PolicyEval> {
    if Evaluates(ev) && IndexId(ev) !in evals then evals[IndexId(ev) := IndexRow(ev)] else evals
  }

  // ----- one step -----

  lemma {:induction false} InsertKeepsPolicies(tb: Tables, es: seq<Entry>, t: string)
    ensures var r := InsertEntries(tb, es, t); r.Ok? ==> r.value.policyEvals == tb.policyEvals
    decreases |es|
  {
    if es != [] && BindEntry(es[0], t).Ok? {
      InsertKeepsPolicies(tb.(precedents := tb.precedents[es[0].sourceEventId := BindEntry(es[0], t).value]),
                          es[1..], t);
    }
  }

  lemma BuildKeepsPolicies(tb: Tables, log: seq<Row>, t: string) returns (r: Result<Tables, Code>)
    ensures r == BuildPrecedents(tb, log, t) && (r.Ok? ==> r.value.policyEvals == tb.policyEvals)
  {
    r := BuildPrecedents(tb, log, t);
    var es := Entries(TraceEvents(log, t), NO_ENTITY);
    if es.Ok? { InsertKeepsPolicies(DeletePrecedents(tb, t), es.value, t); }
  }

  lemma FinishKeepsPolicies(tb: Tables, log: seq<Row>, ev: StoredEvent) returns (r: Result<Tables, Code>)
    ensures r == OnTraceFinished(tb, log, ev) && (r.Ok? ==> r.value.policyEvals == tb.policyEvals)
  {
    r := OnTraceFinished(tb, log, ev);
    forall tb' ensures var b := BuildPrecedents(tb', log, ev.meta.traceId); b.Ok? ==>
      b.value.policyEvals == tb'.policyEvals {
      var b := BuildKeepsPolicies(tb', log, ev.meta.traceId);
    }
  }

  lemma StartKeepsPolicies(tb: Tables, ev: StoredEvent) returns (r: Result<Tables, Code>)
    ensures r == OnTraceStarted(tb, ev) && (r.Ok? ==> r.value.policyEvals == tb.policyEvals)
  {
    r := OnTraceStarted(tb, ev);
  }

  lemma EvaluationIndexes(tb: Tables, ev: StoredEvent) returns (r: Result<Tables, Code>)
    requires SchemaOk(PolicyEvaluated, ev.payload) && Evaluates(ev)
    ensures r == OnPolicyEvaluated(tb, ev) && (r.Ok? ==> r.value.policyEvals == WithRow(tb.policyEvals, ev))
  {
    r := OnPolicyEvaluated(tb, ev);
    RecordTexts(ev.payload, "policy", "policy_id", "policy_version");
    BindTextAt(RecordAt(ev.payload, "policy"), "policy_id");
    BindTextAt(RecordAt(ev.payload, "policy"), "policy_version");
  }

  lemma HandleIndexes(tb: Tables, log: seq<Row>, ev: StoredEvent) returns (r: Result<Tables, Code>)
    requires SchemaOk(ev.meta.eventType, ev.payload)
    ensures r == Handle(tb, log, ev) && (r.Ok? ==> r.value.policyEvals == WithRow(tb.policyEvals, ev))
  {
    match ev.meta.eventType
    case TraceStarted => r := StartKeepsPolicies(tb, ev);
    case PolicyEvaluated => r := EvaluationIndexes(tb, ev);
    case TraceFinished => r := FinishKeepsPolicies(tb, log, ev);
    case _ => r := Ok(tb);
  }

  lemma StepIndexes(c: Config, p: Proj, log: seq<Row>, ev: StoredEvent, p': Proj)
    requires ProjectInTx(c.sha, p, log, ev, {}) == Ok(p') && SchemaOk(ev.meta.eventType, ev.payload)
    ensures p'.tables.policyEvals == WithRow(p.tables.policyEvals, ev)
  {
    EmissionKeeps(p.tables, ev);
    var r := HandleIndexes(AddEmission(p.tables, ev), log, ev);
  }

  // ----- the whole index -----

  ghost function Evaluations(evs: seq<StoredEvent>): seq<StoredEvent> {
    if evs == [] then [] else
      Evaluations(evs[..|evs| - 1]) + if Evaluates(evs[|evs| - 1]) then [evs[|evs| - 1]] else []
  }

  // A table with exactly these rows under these keys.
  ghost predicate Holds<R>(table: map<string, R>, keys: seq<string>, rows: seq<R>) {
    && |table| == |keys| == |rows|
    && (forall i :: 0 <= i < |keys| ==> keys[i] in table && table[keys[i]] == rows[i])
    && (forall k :: k in table ==> k in keys)
  }

  lemma HoldsMore<R>(table: map<string, R>, keys: seq<string>, rows: seq<R>, k: string, row: R)
    requires Holds(table, keys, rows) && k !in table
    ensures Holds(table[k := row], keys + [k], rows + [row])
  {
    assert table[k := row].Keys == table.Keys + {k};
  }

  ghost function IdsOf(evs: seq<StoredEvent>): seq<string> {
    seq(|evs|, i requires 0 <= i < |evs| => IndexId(evs[i]))
  }

  ghost function RowsOf(evs: seq<StoredEvent>): seq<PolicyEval> {
    seq(|evs|, i requires 0 <= i < |evs| => IndexRow(evs[i]))
  }

  // One row for each evaluation, none for anything else, and none lost.
  ghost predicate IndexOk(evs: seq<StoredEvent>, evals: map<string, PolicyEval>) {
    Holds(evals, IdsOf(Evaluations(evs)), RowsOf(Evaluations(evs)))
  }

  lemma {:induction false} EvaluationsAmong(evs: seq<StoredEvent>)
    ensures forall e :: e in Evaluations(evs) ==> e in evs && Evaluates(e)
  {
    if evs != [] { EvaluationsAmong(evs[..|evs| - 1]); }
  }

  lemma EvaluationsSnoc(evs: seq<StoredEvent>, ev: StoredEvent)
    ensures Evaluations(evs + [ev]) == Evaluations(evs) + if Evaluates(ev) then [ev] else []
  {
    assert (evs + [ev])[..|evs|] == evs;
  }

  lemma IdTellsEvent(ev: StoredEvent)
    requires ColonFree(ev)
    ensures Tail(IndexId(ev)) == ev.meta.eventId
  {
    var policy := RecordAt(ev.payload, "policy");
    var a := ev.meta.traceId + ":" + TextAt(policy, "policy_id") + ":" + TextAt(policy, "policy_version");
    assert IndexId(ev) == a + ":" + ev.meta.eventId;
    TailOf(a, ev.meta.eventId);
  }

  lemma IdIsNew(evs: seq<StoredEvent>, ev: StoredEvent, evals: map<string, PolicyEval>)
    requires Distinct(evs + [ev]) && IndexOk(evs, evals)
    ensures IndexId(ev) !in evals
  {
    var evs', all := evs + [ev], Evaluations(evs);
    if IndexId(ev) in evals {
      var i :| 0 <= i < |all| && IndexId(ev) == IdsOf(all)[i];
      EvaluationsAmong(evs);
      assert all[i] in all;
      var j :| 0 <= j < |evs| && evs[j] == all[i];
      assert evs'[j] == evs[j] && evs'[|evs|] == ev;
      IdTellsEvent(ev);
      IdTellsEvent(evs[j]);
    }
  }

  lemma IndexSnoc(evs: seq<StoredEvent>, ev: StoredEvent, evals: map<string, PolicyEval>)
    requires Distinct(evs + [ev]) && IndexOk(evs, evals)
    ensures IndexOk(evs + [ev], WithRow(evals, ev))
  {
    EvaluationsSnoc(evs, ev);
    if Evaluates(ev) {
      IdIsNew(evs, ev, evals);
      var all := Evaluations(evs);
      HoldsMore(evals, IdsOf(all), RowsOf(all), IndexId(ev), IndexRow(ev));
      assert IdsOf(all + [ev]) == IdsOf(all) + [IndexId(ev)] && RowsOf(all + [ev]) == RowsOf(all) + [IndexRow(ev)];
    } else {
      assert Evaluations(evs) + [] == Evaluations(evs);
    }
  }

  lemma DistinctPrefix(evs: seq<StoredEvent>, n: nat)
    requires Distinct(evs) && n <= |evs|
    ensures Distinct(evs[..n])
  {
  }

  // The last step of a pass, and what it adds to the index.
  lemma LastIndexes(c: Config, log: seq<Row>, n: nat, q: Proj) returns (before: Proj, ev: StoredEvent)
    requires LogOk(c, log) && Readable(log) && n < |log| && Single(c, log, n + 1) == Ok(q)
    ensures Single(c, log, n) == Ok(before) && ev == Load(log)[n]
    ensures q.tables.policyEvals == WithRow(before.tables.policyEvals, ev)
  {
    SingleSnoc(c, log, n);
    before := Single(c, log, n).value;
    ev := Load(log)[n];
    LoadedSchema(c, log, n, ev);
    StepIndexes(c, before, log, ev, q);
  }

  lemma LoadedSchema(c: Config, log: seq<Row>, n: nat, ev: StoredEvent)
    requires LogOk(c, log) && Readable(log) && n < |log| && ev == Load(log)[n]
    ensures SchemaOk(ev.meta.eventType, ev.payload)
  {
    LoadSound(c, log, n);
    StoreLogSound(c, log);
    assert Sound(log[n]);
  }

  lemma {:induction false} PassIndexes(c: Config, log: seq<Row>, n: nat, p: Proj)
    requires LogOk(c, log) && Readable(log) && n <= |log| && Single(c, log, n) == Ok(p) && Distinct(Load(log)[..n])
    ensures IndexOk(Load(log)[..n], p.tables.policyEvals)
  {
    if n == 0 {
      SingleNone(c, log);
      EmptyIndex(Load(log)[..0]);
    } else {
      var before, ev := LastIndexes(c, log, n - 1, p);
      LoadNext(log, n - 1);
      DistinctPrefix(Load(log)[..n], n - 1);
      assert Load(log)[..n][..n - 1] == Load(log)[..n - 1];
      PassIndexes(c, log, n - 1, before);
      IndexSnoc(Load(log)[..n - 1], ev, before.tables.policyEvals);
    }
  }

  lemma EmptyIndex(evs: seq<StoredEvent>)
    requires evs == []
    ensures IndexOk(evs, map[])
  {
  }

  // In every reachable state the policy index has exactly one row for each projected PolicyEvaluated event,
  // with that event's policy: no insert has been ignored.
  lemma EveryReachableIndex(c: Config, moves: seq<Move>)
    requires c.finishLock
    requires var s := PerformAll(c, moves); forall i :: 0 <= i < |s.log| ==> ':' !in s.log[i].meta.eventId
    ensures var s := PerformAll(c, moves); IndexOk(Load(s.log)[..s.proj.cursor], s.proj.tables.policyEvals)
  {
    var s := PerformAll(c, moves);
    StoreLogReadable(c, s.log);
    PassIndexes(c, s.log, s.proj.cursor, s.proj);
  }
}
