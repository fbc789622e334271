// What the node and edge tables hold, in terms of the events projected so far.
module GraphShape {
  import opened ContextGraph
  import opened Events
  import opened Log
  import opened Projection
  import opened Replay
  import opened Wrappers
  import opened Writers

  // ----- nodes -----

  ghost function NodeIds(ns: seq<Node>): set<string> {
    set k | 0 <= k < |ns| :: ns[k].nodeId
  }

  ghost function Ends(es: seq<Edge>): set<string> {
    (set k | 0 <= k < |es| :: es[k].fromNodeId) + (set k | 0 <= k < |es| :: es[k].toNodeId)
  }

  // The ids an event mentions: of the nodes it emits and of its edges' endpoints.
  ghost function Mentions(ev: StoredEvent): set<string> {
    NodeIds(Emit(ev).nodes) + Ends(Emit(ev).edges)
  }

  // after is before with rows for the ids it lacked.
  ghost predicate Touched(before: map<string, Node>, after: map<string, Node>, ids: set<string>, ev: StoredEvent) {
    && after.Keys == before.Keys + ids
    && (forall id :: id in before ==> after[id] == before[id])
    && (forall id :: id in ids && id !in before ==> after[id] == RowFor(id, ev))
  }

  lemma TouchedTwice(a: map<string, Node>, b: map<string, Node>, c: map<string, Node>, s: set<string>, t: set<string>,
                     ev: StoredEvent)
    requires Touched(a, b, s, ev) && Touched(b, c, t, ev)
    ensures Touched(a, c, s + t, ev)
  {
  }

  lemma {:induction false} NodesTouch(nodes: map<string, Node>, ns: seq<Node>, ev: StoredEvent)
    requires forall k :: 0 <= k < |ns| ==> IsRow(ev, ns[k])
    ensures Touched(nodes, AddNodes(nodes, ns), NodeIds(ns), ev)
    decreases |ns|
  {
    if ns != [] {
      var nodes1 := AddNode(nodes, ns[0]);
      NodesTouch(nodes1, ns[1..], ev);
      assert IsRow(ev, ns[0]);
      assert Touched(nodes, nodes1, {ns[0].nodeId}, ev);
      TouchedTwice(nodes, nodes1, AddNodes(nodes1, ns[1..]), {ns[0].nodeId}, NodeIds(ns[1..]), ev);
      assert NodeIds(ns) == {ns[0].nodeId} + NodeIds(ns[1..]) by {
        forall id | id in NodeIds(ns) ensures id in {ns[0].nodeId} + NodeIds(ns[1..]) {
          var k :| 0 <= k < |ns| && ns[k].nodeId == id;
          if k > 0 { assert ns[1..][k - 1] == ns[k]; }
        }
      }
    }
  }

  lemma EdgeTouches(tb: Tables, e: Edge, ev: StoredEvent)
    ensures Touched(tb.nodes, AddEdge(tb, e, ev).nodes, {e.fromNodeId, e.toNodeId}, ev)
  {
  }

  lemma EndsCons(es: seq<Edge>)
    requires es != []
    ensures Ends(es) == {es[0].fromNodeId, es[0].toNodeId} + Ends(es[1..])
  {
    forall id | id in Ends(es) ensures id in {es[0].fromNodeId, es[0].toNodeId} + Ends(es[1..]) {
      var k :| 0 <= k < |es| && (es[k].fromNodeId == id || es[k].toNodeId == id);
      if k > 0 { assert es[1..][k - 1] == es[k]; }
    }
    forall id | id in Ends(es[1..]) ensures id in Ends(es) {
      var k :| 0 <= k < |es[1..]| && (es[1..][k].fromNodeId == id || es[1..][k].toNodeId == id);
      assert es[1..][k] == es[k + 1];
    }
  }

  lemma {:induction false} EdgesTouch(tb: Tables, es: seq<Edge>, ev: StoredEvent)
    ensures Touched(tb.nodes, AddEdges(tb, es, ev).nodes, Ends(es), ev)
    decreases |es|
  {
    if es != [] {
      var tb1 := AddEdge(tb, es[0], ev);
      EdgeTouches(tb, es[0], ev);
      EdgesTouch(tb1, es[1..], ev);
      EndsCons(es);
      TouchedTwice(tb.nodes, tb1.nodes, AddEdges(tb1, es[1..], ev).nodes,
        {es[0].fromNodeId, es[0].toNodeId}, Ends(es[1..]), ev);
    }
  }

  lemma EmissionTouches(tb: Tables, ev: StoredEvent)
    ensures Touched(tb.nodes, AddEmission(tb, ev).nodes, Mentions(ev), ev)
  {
    EmittedNodesAreRows(ev);
    var nodes := AddNodes(tb.nodes, Emit(ev).nodes);
    NodesTouch(tb.nodes, Emit(ev).nodes, ev);
    EdgesTouch(tb.(nodes := nodes), Emit(ev).edges, ev);
    TouchedTwice(tb.nodes, nodes, AddEmission(tb, ev).nodes, NodeIds(Emit(ev).nodes), Ends(Emit(ev).edges), ev);
  }

  ghost function Mentioned(evs: seq<StoredEvent>): seq<set<string>> {
    seq(|evs|, i requires 0 <= i < |evs| => Mentions(evs[i]))
  }

  // The first of the sets that has id.
  ghost function First(ms: seq<set<string>>, id: string): (r: Option<nat>)
    ensures r.Some? ==> r.value < |ms| && id in ms[r.value]
    ensures forall i :: 0 <= i < (if r.Some? then r.value else |ms|) ==> id !in ms[i]
  {
    if ms == [] then None else
      var n := |ms| - 1;
      var r := First(ms[..n], id);
      if r.Some? then r else if id in ms[n] then Some(n) else None
  }

  // The first event that mentions an id.
  ghost function FirstMention(evs: seq<StoredEvent>, id: string): (r: Option<nat>)
    ensures r.Some? ==> r.value < |evs|
  {
    First(Mentioned(evs), id)
  }

  // There is a node for exactly the ids that have been mentioned, and its row is the one the first event to
  // mention it gives it: a placeholder is indistinguishable from an emitted node.
  ghost predicate NodesOk(evs: seq<StoredEvent>, nodes: map<string, Node>) {
    forall id :: if FirstMention(evs, id).None? then id !in nodes
      else id in nodes && nodes[id] == RowFor(id, evs[FirstMention(evs, id).value])
  }

  lemma FirstSnoc(ms: seq<set<string>>, m: set<string>, id: string)
    ensures First(ms + [m], id) ==
      if First(ms, id).Some? then First(ms, id) else if id in m then Some(|ms|) else None
  {
    assert (ms + [m])[..|ms|] == ms;
  }

  lemma MentionedSnoc(evs: seq<StoredEvent>, ev: StoredEvent)
    ensures Mentioned(evs + [ev]) == Mentioned(evs) + [Mentions(ev)]
  {
  }

  lemma NodesSnoc(evs: seq<StoredEvent>, ev: StoredEvent, ids: set<string>, before: map<string, Node>,
                  after: map<string, Node>)
    requires ids == Mentions(ev) && NodesOk(evs, before) && Touched(before, after, ids, ev)
    ensures NodesOk(evs + [ev], after)
  {
    MentionedSnoc(evs, ev);
    forall id ensures if FirstMention(evs + [ev], id).None? then id !in after
      else id in after && after[id] == RowFor(id, (evs + [ev])[FirstMention(evs + [ev], id).value])
    {
      FirstSnoc(Mentioned(evs), ids, id);
    }
  }

  // A trace node carries its own trace id, whichever event it comes from.
  lemma TraceNodesCarryTheirTrace(evs: seq<StoredEvent>, nodes: map<string, Node>, t: string)
    requires NodesOk(evs, nodes) && MakeNodeId("trace", t) in nodes
    ensures nodes[MakeNodeId("trace", t)].traceId == t && nodes[MakeNodeId("trace", t)].nodeType == "trace"
  {
    SplitNodeId("trace", t);
  }

  // ----- edges -----

  ghost predicate EmittedBy(evs: seq<StoredEvent>, e: Edge) {
    exists i :: 0 <= i < |evs| && e in Emit(evs[i]).edges
  }

  // Every row is an edge some event emitted; every emitted edge has its id in the table, and its ends among the
  // nodes.
  ghost predicate EdgesOk(evs: seq<StoredEvent>, tb: Tables) {
    && (forall id :: id in tb.edges ==> tb.edges[id].edgeId == id && EmittedBy(evs, tb.edges[id]))
    && (forall e :: EmittedBy(evs, e) ==> e.edgeId in tb.edges)
    && (forall id :: id in tb.edges ==> tb.edges[id].fromNodeId in tb.nodes && tb.edges[id].toNodeId in tb.nodes)
  }

  // after is before with the edges whose ids it lacked.
  ghost predicate EdgesAdded(before: map<string, Edge>, after: map<string, Edge>, es: seq<Edge>) {
    && (forall id :: id in before ==> id in after && after[id] == before[id])
    && (forall e :: e in es ==> e.edgeId in after)
    && (forall id :: id in after && id !in before ==> after[id] in es && after[id].edgeId == id)
  }

  lemma {:induction false} EdgesAdd(tb: Tables, es: seq<Edge>, ev: StoredEvent)
    ensures EdgesAdded(tb.edges, AddEdges(tb, es, ev).edges, es)
    decreases |es|
  {
    if es != [] { EdgesAdd(AddEdge(tb, es[0], ev), es[1..], ev); }
  }

  lemma EmittedBySnoc(evs: seq<StoredEvent>, ev: StoredEvent, e: Edge)
    ensures EmittedBy(evs + [ev], e) <==> EmittedBy(evs, e) || e in Emit(ev).edges
  {
    var evs' := evs + [ev];
    if EmittedBy(evs, e) {
      var i :| 0 <= i < |evs| && e in Emit(evs[i]).edges;
      assert evs'[i] == evs[i];
    }
    assert evs'[|evs|] == ev;
  }

  lemma EdgesSnoc(evs: seq<StoredEvent>, ev: StoredEvent, tb: Tables, after: Tables)
    requires EdgesOk(evs, tb) && EdgesAdded(tb.edges, after.edges, Emit(ev).edges)
    requires Touched(tb.nodes, after.nodes, Mentions(ev), ev)
    ensures EdgesOk(evs + [ev], after)
  {
    forall e { EmittedBySnoc(evs, ev, e); }
    forall id | id in after.edges
      ensures after.edges[id].fromNodeId in after.nodes && after.edges[id].toNodeId in after.nodes
    {
      if id !in tb.edges {
        var k :| 0 <= k < |Emit(ev).edges| && Emit(ev).edges[k] == after.edges[id];
        assert Emit(ev).edges[k].fromNodeId in Ends(Emit(ev).edges);
        assert Emit(ev).edges[k].toNodeId in Ends(Emit(ev).edges);
      }
    }
  }

  // ----- conservation -----

  ghost function Emitted(evs: seq<StoredEvent>): seq<Edge> {
    if evs == [] then [] else Emitted(evs[..|evs| - 1]) + Emit(evs[|evs| - 1]).edges
  }

  lemma {:induction false} EmittedByIsEmitted(evs: seq<StoredEvent>, e: Edge)
    requires EmittedBy(evs, e)
    ensures e in Emitted(evs)
  {
    var i :| 0 <= i < |evs| && e in Emit(evs[i]).edges;
    if i < |evs| - 1 {
      assert e in Emit(evs[..|evs| - 1][i]).edges;
      EmittedByIsEmitted(evs[..|evs| - 1], e);
    }
  }

  ghost predicate ColonFree(ev: StoredEvent) {
    ':' !in ev.meta.eventId
  }

  // The part after the last colon.
  function Tail(s: string): string {
    if s == [] then [] else if ':' in s[1..] then Tail(s[1..]) else if s[0] == ':' then s[1..] else s
  }

  lemma {:induction false} TailOf(a: string, b: string)
    requires ':' !in b
    ensures Tail(a + ":" + b) == b
  {
    var s := a + ":" + b;
    if a == [] {
      assert s[1..] == b;
    } else {
      assert s[1..] == a[1..] + ":" + b;
      assert s[1..][|a| - 1] == ':';
      TailOf(a[1..], b);
    }
  }

  // An edge id tells its event.
  lemma EdgeTellsEvent(ev: StoredEvent, e: Edge)
    requires IsEdge(ev, e) && ColonFree(ev)
    ensures Tail(e.edgeId) == ev.meta.eventId
  {
    var a := e.edgeType + ":" + e.fromNodeId + ":" + e.toNodeId;
    assert e.edgeId == a + ":" + ev.meta.eventId;
    TailOf(a, ev.meta.eventId);
  }

  lemma TwoEdgesDiffer(ev: StoredEvent)
    requires |Emit(ev).edges| == 2
    ensures Emit(ev).edges[0].edgeId != Emit(ev).edges[1].edgeId
  {
    EmittedEdges(ev);
    var a, b := Emit(ev).edges[0], Emit(ev).edges[1];
    assert IsEdge(ev, a) && IsEdge(ev, b);
    assert a.edgeId[0] == "trace_proposed_action"[0] && b.edgeId[0] == "action_targets_entity"[0];
  }

  // Each emitted edge is in the table as it is, and the table holds as many edges as were emitted.
  ghost predicate Conserved(evs: seq<StoredEvent>, edges: map<string, Edge>) {
    && |edges| == |Emitted(evs)|
    && (forall e :: e in Emitted(evs) ==> e.edgeId in edges && edges[e.edgeId] == e)
    && (forall id :: id in edges ==> exists i :: 0 <= i < |evs| && Tail(id) == evs[i].meta.eventId)
  }

  // after is before with all of es added.
  ghost predicate AllAdded(before: map<string, Edge>, es: seq<Edge>, after: map<string, Edge>) {
    && |after| == |before| + |es|
    && (forall e :: e in es ==> e.edgeId in after && after[e.edgeId] == e)
    && (forall id :: id in before ==> id in after && after[id] == before[id])
    && (forall id :: id in after ==> id in before || exists e :: e in es && e.edgeId == id)
  }

  lemma AddOne(before: map<string, Edge>, es: seq<Edge>, after: map<string, Edge>)
    requires es != [] && es[0].edgeId !in before
    requires AllAdded(before[es[0].edgeId := es[0]], es[1..], after)
    ensures AllAdded(before, es, after)
  {
    assert before[es[0].edgeId := es[0]].Keys == before.Keys + {es[0].edgeId};
    forall id | id in after && id !in before ensures exists e :: e in es && e.edgeId == id {
      if id == es[0].edgeId { assert es[0] in es; }
    }
    forall e | e in es ensures e.edgeId in after && after[e.edgeId] == e {
      if e !in es[1..] { assert e == es[0] && e.edgeId in before[es[0].edgeId := es[0]]; }
    }
  }

  lemma {:induction false} AddEdgesAll(tb: Tables, es: seq<Edge>, ev: StoredEvent)
    requires forall i, j :: 0 <= i < j < |es| ==> es[i].edgeId != es[j].edgeId
    requires forall i :: 0 <= i < |es| ==> es[i].edgeId !in tb.edges
    ensures AllAdded(tb.edges, es, AddEdges(tb, es, ev).edges)
    decreases |es|
  {
    if es != [] {
      AddEdgesAll(AddEdge(tb, es[0], ev), es[1..], ev);
      AddOne(tb.edges, es, AddEdges(tb, es, ev).edges);
    }
  }

  lemma KeepsConserved(evs: seq<StoredEvent>, ev: StoredEvent, es: seq<Edge>, before: map<string, Edge>,
                       after: map<string, Edge>)
    requires Conserved(evs, before) && es == Emit(ev).edges && AllAdded(before, es, after)
    requires forall e :: e in es ==> Tail(e.edgeId) == ev.meta.eventId
    ensures Conserved(evs + [ev], after)
  {
    var evs' := evs + [ev];
    assert evs'[..|evs|] == evs && evs'[|evs|] == ev;
    forall id | id in after ensures exists i :: 0 <= i < |evs'| && Tail(id) == evs'[i].meta.eventId {
      if id in before {
        var i :| 0 <= i < |evs| && Tail(id) == evs[i].meta.eventId;
        assert evs'[i] == evs[i];
      }
    }
  }

  lemma EmittedTell(ev: StoredEvent, es: seq<Edge>)
    requires es == Emit(ev).edges && ColonFree(ev)
    ensures forall e :: e in es ==> Tail(e.edgeId) == ev.meta.eventId
  {
    EmittedEdges(ev);
    forall e | e in es ensures Tail(e.edgeId) == ev.meta.eventId {
      var k :| 0 <= k < |es| && es[k] == e;
      assert IsEdge(ev, es[k]);
      EdgeTellsEvent(ev, e);
    }
  }

  lemma EmittedDiffer(ev: StoredEvent, es: seq<Edge>)
    requires es == Emit(ev).edges
    ensures forall i, j :: 0 <= i < j < |es| ==> es[i].edgeId != es[j].edgeId
  {
    EmittedEdges(ev);
    if |es| == 2 { TwoEdgesDiffer(ev); }
  }

  lemma ConservedSnoc(evs: seq<StoredEvent>, ev: StoredEvent, tb: Tables)
    requires Conserved(evs, tb.edges) && ColonFree(ev)
    requires forall i :: 0 <= i < |evs| ==> evs[i].meta.eventId != ev.meta.eventId
    ensures Conserved(evs + [ev], AddEmission(tb, ev).edges)
  {
    var es := Emit(ev).edges;
    EmittedTell(ev, es);
    EmittedDiffer(ev, es);
    forall i | 0 <= i < |es| ensures es[i].edgeId !in tb.edges { assert es[i] in es; }
    AddEdgesAll(tb.(nodes := AddNodes(tb.nodes, Emit(ev).nodes)), es, ev);
    KeepsConserved(evs, ev, es, tb.edges, AddEmission(tb, ev).edges);
  }

  // ----- the whole projection -----

  ghost predicate GraphOk(evs: seq<StoredEvent>, tb: Tables) {
    NodesOk(evs, tb.nodes) && EdgesOk(evs, tb)
  }

  lemma {:induction false} InsertKeepsGraph(tb: Tables, es: seq<Entry>, t: string)
    ensures var r := InsertEntries(tb, es, t); r.Ok? ==> r.value.nodes == tb.nodes && r.value.edges == tb.edges
    decreases |es|
  {
    if es != [] && BindEntry(es[0], t).Ok? {
      InsertKeepsGraph(tb.(precedents := tb.precedents[es[0].sourceEventId := BindEntry(es[0], t).value]), es[1..], t);
    }
  }

  ghost predicate KeepsGraph(tb: Tables, r: Result<Tables, Code>) {
    r.Ok? ==> r.value.nodes == tb.nodes && r.value.edges == tb.edges
  }

  lemma BuildKeepsGraph(tb: Tables, log: seq<Row>, t: string)
    ensures KeepsGraph(tb, BuildPrecedents(tb, log, t))
  {
    var es := Entries(TraceEvents(log, t), NO_ENTITY);
    if es.Ok? { InsertKeepsGraph(DeletePrecedents(tb, t), es.value, t); }
  }

  lemma FinishKeepsGraph(tb: Tables, log: seq<Row>, ev: StoredEvent)
    ensures KeepsGraph(tb, OnTraceFinished(tb, log, ev))
  {
    forall tb' { BuildKeepsGraph(tb', log, ev.meta.traceId); }
  }

  lemma StartKeepsGraph(tb: Tables, ev: StoredEvent) returns (r: Result<Tables, Code>)
    ensures r == OnTraceStarted(tb, ev) && KeepsGraph(tb, r)
  {
    r := OnTraceStarted(tb, ev);
  }

  lemma PolicyKeepsGraph(tb: Tables, ev: StoredEvent) returns (r: Result<Tables, Code>)
    ensures r == OnPolicyEvaluated(tb, ev) && KeepsGraph(tb, r)
  {
    r := OnPolicyEvaluated(tb, ev);
  }

  // Only the emission touches the graph.
  lemma HandleKeepsGraph(tb: Tables, log: seq<Row>, ev: StoredEvent) returns (r: Result<Tables, Code>)
    ensures r == Handle(tb, log, ev) && KeepsGraph(tb, r)
  {
    match ev.meta.eventType
    case TraceStarted => r := StartKeepsGraph(tb, ev);
    case PolicyEvaluated => r := PolicyKeepsGraph(tb, ev);
    case TraceFinished =>
      FinishKeepsGraph(tb, log, ev);
      r := OnTraceFinished(tb, log, ev);
    case _ => r := Ok(tb);
  }

  lemma GraphSnoc(evs: seq<StoredEvent>, ev: StoredEvent, tb: Tables)
    requires GraphOk(evs, tb)
    ensures GraphOk(evs + [ev], AddEmission(tb, ev))
  {
    EmissionTouches(tb, ev);
    NodesSnoc(evs, ev, Mentions(ev), tb.nodes, AddEmission(tb, ev).nodes);
    EdgesAdd(tb.(nodes := AddNodes(tb.nodes, Emit(ev).nodes)), Emit(ev).edges, ev);
    EdgesSnoc(evs, ev, tb, AddEmission(tb, ev));
  }

  lemma SameGraph(evs: seq<StoredEvent>, a: Tables, b: Tables)
    requires GraphOk(evs, a) && a.nodes == b.nodes && a.edges == b.edges
    ensures GraphOk(evs, b)
  {
  }

  // ----- a pass, seen as a chain of tables -----

  ghost predicate NextTables(tb: Tables, ev: StoredEvent, tb': Tables) {
    tb'.nodes == AddEmission(tb, ev).nodes && tb'.edges == AddEmission(tb, ev).edges
  }

  ghost predicate Chain(evs: seq<StoredEvent>, tbs: seq<Tables>) {
    && |tbs| == |evs| + 1
    && tbs[0] == EMPTY_TABLES
    && forall k {:trigger evs[k]} :: 0 <= k < |evs| ==> NextTables(tbs[k], evs[k], tbs[k + 1])
  }

  lemma ChainPrefix(evs: seq<StoredEvent>, tbs: seq<Tables>)
    requires Chain(evs, tbs) && evs != []
    ensures Chain(evs[..|evs| - 1], tbs[..|evs|])
    ensures NextTables(tbs[|evs| - 1], evs[|evs| - 1], tbs[|evs|])
  {
    var n := |evs| - 1;
    assert NextTables(tbs[n], evs[n], tbs[n + 1]);
    forall k | 0 <= k < n ensures NextTables(tbs[k], evs[k], tbs[k + 1]) {}
  }

  lemma ChainSnoc(evs: seq<StoredEvent>, tbs: seq<Tables>, ev: StoredEvent, tb: Tables)
    requires Chain(evs, tbs) && NextTables(tbs[|evs|], ev, tb)
    ensures Chain(evs + [ev], tbs + [tb])
  {
    var evs', tbs' := evs + [ev], tbs + [tb];
    forall k | 0 <= k < |evs'| ensures NextTables(tbs'[k], evs'[k], tbs'[k + 1]) {
      if k < |evs| { assert NextTables(tbs[k], evs[k], tbs[k + 1]); }
    }
  }

  lemma StepGraph(c: Config, p: Proj, log: seq<Row>, ev: StoredEvent, p': Proj)
    requires ProjectInTx(c.sha, p, log, ev, {}) == Ok(p')
    ensures NextTables(p.tables, ev, p'.tables)
  {
    var r := HandleKeepsGraph(AddEmission(p.tables, ev), log, ev);
  }

  lemma LastStep(c: Config, log: seq<Row>, n: nat, q: Proj) returns (before: Proj)
    requires Readable(log) && n < |log| && Single(c, log, n + 1) == Ok(q)
    ensures Single(c, log, n) == Ok(before) && NextTables(before.tables, Load(log)[n], q.tables)
  {
    SingleSnoc(c, log, n);
    before := Single(c, log, n).value;
    StepGraph(c, before, log, Load(log)[n], q);
  }

  // The tables a pass over the first n events goes through, those after a events among them.
  lemma {:induction false} ChainOf(c: Config, log: seq<Row>, a: nat, n: nat, p: Proj, q: Proj)
    returns (tbs: seq<Tables>)
    requires Readable(log) && a <= n <= |log| && Single(c, log, a) == Ok(p) && Single(c, log, n) == Ok(q)
    ensures Chain(Load(log)[..n], tbs) && tbs[a] == p.tables && tbs[n] == q.tables
  {
    if n == 0 {
      assert Load(log)[..0] == [];
      tbs := [EMPTY_TABLES];
    } else {
      var m := n - 1;
      var before := LastStep(c, log, m, q);
      var mid := if a == n then before else p;
      tbs := ChainOf(c, log, if a == n then m else a, m, mid, before);
      LoadNext(log, m);
      ChainSnoc(Load(log)[..m], tbs, Load(log)[m], q.tables);
      tbs := tbs + [q.tables];
    }
  }

  lemma EmptyGraph()
    ensures GraphOk([], EMPTY_TABLES)
  {
  }

  lemma GraphNext(evs: seq<StoredEvent>, n: nat, tb: Tables, tb': Tables)
    requires |evs| == n + 1 && GraphOk(evs[..n], tb) && NextTables(tb, evs[n], tb')
    ensures GraphOk(evs, tb')
  {
    GraphSnoc(evs[..n], evs[n], tb);
    assert evs == evs[..n] + [evs[n]];
    SameGraph(evs, AddEmission(tb, evs[n]), tb');
  }

  // Projecting events in order leaves the graph these events determine.
  lemma {:induction false} ChainGraph(evs: seq<StoredEvent>, tbs: seq<Tables>) returns (tb: Tables)
    requires Chain(evs, tbs)
    ensures tb == tbs[|evs|] && GraphOk(evs, tb)
  {
    tb := tbs[|evs|];
    if evs == [] {
      EmptyGraph();
    } else {
      var n := |evs| - 1;
      ChainPrefix(evs, tbs);
      var before := ChainGraph(evs[..n], tbs[..|evs|]);
      GraphNext(evs, n, before, tb);
    }
  }

  // In every reachable state, whatever the schedule, the graph is the one the projected events determine.
  lemma EveryReachableGraph(c: Config, moves: seq<Move>)
    requires c.finishLock
    ensures var s := PerformAll(c, moves); GraphOk(Load(s.log)[..s.proj.cursor], s.proj.tables)
  {
    var s := PerformAll(c, moves);
    var n := s.proj.cursor;
    var tbs := ChainOf(c, s.log, n, n, s.proj, s.proj);
    var tb := ChainGraph(Load(s.log)[..n], tbs);
  }

  ghost predicate Distinct(evs: seq<StoredEvent>) {
    && DistinctIds(evs)
    && forall i :: 0 <= i < |evs| ==> ColonFree(evs[i])
  }

  // With distinct colon-free event ids no edge is lost: none of the inserts is ever ignored.
  lemma {:induction false} ChainConserves(evs: seq<StoredEvent>, tbs: seq<Tables>)
    requires Chain(evs, tbs) && Distinct(evs)
    ensures Conserved(evs, tbs[|evs|].edges)
  {
    if evs != [] {
      var n := |evs| - 1;
      ChainPrefix(evs, tbs);
      ChainConserves(evs[..n], tbs[..|evs|]);
      ConservedSnoc(evs[..n], evs[n], tbs[n]);
      assert evs == evs[..n] + [evs[n]];
    }
  }

  lemma EveryReachableConserves(c: Config, moves: seq<Move>)
    requires c.finishLock
    requires var s := PerformAll(c, moves); forall i :: 0 <= i < |s.log| ==> ':' !in s.log[i].meta.eventId
    ensures var s := PerformAll(c, moves); Conserved(Load(s.log)[..s.proj.cursor], s.proj.tables.edges)
  {
    var s := PerformAll(c, moves);
    var n := s.proj.cursor;
    var tbs := ChainOf(c, s.log, n, n, s.proj, s.proj);
    StoreLogReadable(c, s.log);
    ChainConserves(Load(s.log)[..n], tbs);
  }

  // ----- counting -----

  ghost function AllDue(evs: seq<StoredEvent>): nat {
    if evs == [] then 0 else AllDue(evs[..|evs| - 1]) + EdgesDue(evs[|evs| - 1])
  }

  ghost predicate Checked(evs: seq<StoredEvent>) {
    forall i :: 0 <= i < |evs| ==> SchemaOk(evs[i].meta.eventType, evs[i].payload)
  }

  lemma {:induction false} EmittedDue(evs: seq<StoredEvent>)
    requires Checked(evs)
    ensures |Emitted(evs)| == AllDue(evs)
  {
    if evs != [] {
      EmittedDue(evs[..|evs| - 1]);
      EdgesAreDue(evs[|evs| - 1]);
    }
  }

  lemma LoadChecked(c: Config, log: seq<Row>, n: nat)
    requires LogOk(c, log) && Readable(log) && n <= |log|
    ensures Checked(Load(log)[..n])
  {
    forall i | 0 <= i < n
      ensures SchemaOk(Load(log)[i].meta.eventType, Load(log)[i].payload)
    {
      assert RowOk(c.sha, log[i]) && Load(log)[i] == FromRow(log[i]).value;
    }
  }

  // In every reachable state the table has as many edges as the projected events owe: two for a proposed
  // action, none for a finish or an approval of anything but an exception, one for any other event.
  lemma EveryReachableCount(c: Config, moves: seq<Move>)
    requires c.finishLock
    requires var s := PerformAll(c, moves); forall i :: 0 <= i < |s.log| ==> ':' !in s.log[i].meta.eventId
    ensures var s := PerformAll(c, moves); |s.proj.tables.edges| == AllDue(Load(s.log)[..s.proj.cursor])
  {
    var s := PerformAll(c, moves);
    EveryReachableConserves(c, moves);
    LoadChecked(c, s.log, s.proj.cursor);
    EmittedDue(Load(s.log)[..s.proj.cursor]);
  }

  // ----- growth -----

  // later has every edge of before, and what it has more carries a log_seq beyond n.
  ghost predicate EdgesGrown(before: map<string, Edge>, later: map<string, Edge>, n: int) {
    && (forall id :: id in before ==> id in later && later[id] == before[id] && before[id].logSeq <= n)
    && (forall id :: id in later && id !in before ==> later[id].logSeq > n)
    && (forall id :: id in later ==> later[id].edgeId == id)
  }

  lemma EmittedSeq(ev: StoredEvent, e: Edge)
    requires e in Emit(ev).edges
    ensures e.logSeq == ev.logSeq
  {
    EmittedEdges(ev);
    var k :| 0 <= k < |Emit(ev).edges| && Emit(ev).edges[k] == e;
    assert IsEdge(ev, Emit(ev).edges[k]);
  }

  lemma TableSeqs(evs: seq<StoredEvent>, tb: Tables, a: int)
    requires EdgesOk(evs, tb) && forall i :: 0 <= i < |evs| ==> evs[i].logSeq <= a
    ensures forall id :: id in tb.edges ==> tb.edges[id].logSeq <= a
  {
    forall id | id in tb.edges ensures tb.edges[id].logSeq <= a {
      var i :| 0 <= i < |evs| && tb.edges[id] in Emit(evs[i]).edges;
      EmittedSeq(evs[i], tb.edges[id]);
    }
  }

  lemma StepGrows(first: map<string, Edge>, tb: Tables, ev: StoredEvent, n: int)
    requires EdgesGrown(first, tb.edges, n) && ev.logSeq > n
    ensures EdgesGrown(first, AddEmission(tb, ev).edges, n)
  {
    EdgesAdd(tb.(nodes := AddNodes(tb.nodes, Emit(ev).nodes)), Emit(ev).edges, ev);
    forall e | e in Emit(ev).edges ensures e.logSeq > n { EmittedSeq(ev, e); }
  }

  lemma {:induction false} ChainGrows(evs: seq<StoredEvent>, tbs: seq<Tables>, a: nat)
    requires Chain(evs, tbs) && a <= |evs| && Numbered(evs)
    ensures EdgesGrown(tbs[a].edges, tbs[|evs|].edges, a)
  {
    if a == |evs| {
      var tb := ChainGraph(evs, tbs);
      TableSeqs(evs, tbs[a], a);
    } else {
      var n := |evs| - 1;
      ChainPrefix(evs, tbs);
      ChainGrows(evs[..n], tbs[..|evs|], a);
      StepGrows(tbs[a].edges, tbs[n], evs[n], a);
    }
  }

  // Projecting further only adds edges, and only edges beyond every edge there is.
  lemma EdgesGrow(c: Config, log: seq<Row>, a: nat, b: nat, p: Proj, q: Proj)
    requires LogOk(c, log) && Readable(log) && a <= b <= |log|
    requires Single(c, log, a) == Ok(p) && Single(c, log, b) == Ok(q)
    ensures EdgesGrown(p.tables.edges, q.tables.edges, a)
  {
    var tbs := ChainOf(c, log, a, b, p, q);
    StoreLogReadable(c, log);
    ChainGrows(Load(log)[..b], tbs, a);
  }
}
