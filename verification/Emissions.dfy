// What each kind of event draws in the context graph, field by field, and that the graph of every reachable state
// consists of exactly that.
module Emissions {
  import opened ContextGraph
  import opened Events
  import opened GraphShape
  import opened Json
  import opened Projection
  import opened Replay
  import opened Totality
  import opened Wrappers
  import opened Writers

  // ----- one event -----

  ghost function Both(d: Value, a: string, b: string): string {
    TextAt(d, a) + ":" + TextAt(d, b)
  }

  ghost function Drawn(ev: StoredEvent, kind: string, from: string, to: string): Edge {
    Edge(kind + ":" + from + ":" + to + ":" + ev.meta.eventId, kind, from, to,
         ev.meta.traceId, ev.logSeq, ev.meta.occurredAt)
  }

  ghost function Placed(ev: StoredEvent, kind: string, identifier: string): Node {
    Node(kind + ":" + identifier, kind, ev.meta.traceId, ev.logSeq, ev.meta.occurredAt)
  }

  ghost function DrawnNodes(ev: StoredEvent): seq<Node> {
    var p := ev.payload;
    match ev.meta.eventType
    case TraceStarted =>
      [Placed(ev, "trace", ev.meta.traceId),
       Placed(ev, "actor", ev.meta.actor.actorType + ":" + ev.meta.actor.actorId),
       Placed(ev, "entity", Both(RecordAt(p, "primary_entity"), "entity_type", "entity_id"))]
    case InputObserved => [Placed(ev, "input", TextAt(p, "input_id"))]
    case EntityObserved => [Placed(ev, "entity", Both(RecordAt(p, "entity"), "entity_type", "entity_id"))]
    case PolicyEvaluated => [Placed(ev, "policy", Both(RecordAt(p, "policy"), "policy_id", "policy_version"))]
    case ExceptionRequested => [Placed(ev, "exception", TextAt(p, "exception_id"))]
    case ApprovalRecorded => [Placed(ev, "actor", Both(RecordAt(p, "approver"), "actor_type", "actor_id"))]
    case ActionProposed => [Placed(ev, "action", TextAt(p, "action_id"))]
    case _ => []
  }

  ghost function DrawnEdges(ev: StoredEvent): seq<Edge> {
    var p := ev.payload;
    var trace := "trace" + ":" + ev.meta.traceId;
    match ev.meta.eventType
    case TraceStarted =>
      var entity := "entity" + ":" + Both(RecordAt(p, "primary_entity"), "entity_type", "entity_id");
      [Drawn(ev, "trace_involves_entity", trace, entity)]
    case InputObserved =>
      [Drawn(ev, "trace_observed_input", trace, "input" + ":" + TextAt(p, "input_id"))]
    case EntityObserved =>
      var entity := "entity" + ":" + Both(RecordAt(p, "entity"), "entity_type", "entity_id");
      [Drawn(ev, "trace_involves_entity", trace, entity)]
    case PolicyEvaluated =>
      var policy := "policy" + ":" + Both(RecordAt(p, "policy"), "policy_id", "policy_version");
      [Drawn(ev, "trace_evaluated_policy", trace, policy)]
    case ExceptionRequested =>
      [Drawn(ev, "trace_requested_exception", trace, "exception" + ":" + TextAt(p, "exception_id"))]
    case ApprovalRecorded =>
      var subject := RecordAt(p, "subject");
      var approver := "actor" + ":" + Both(RecordAt(p, "approver"), "actor_type", "actor_id");
      if TextAt(subject, "subject_type") == "exception" then
        [Drawn(ev, "exception_approved_by", "exception" + ":" + TextAt(subject, "subject_id"), approver)]
      else []
    case PrecedentCited =>
      [Drawn(ev, "trace_cited_precedent", trace, "trace" + ":" + TextAt(p, "cited_trace_id"))]
    case ActionProposed =>
      var action := "action" + ":" + TextAt(p, "action_id");
      var target := "entity" + ":" + Both(RecordAt(p, "target_entity"), "entity_type", "entity_id");
      [Drawn(ev, "trace_proposed_action", trace, action), Drawn(ev, "action_targets_entity", action, target)]
    case ActionCommitted =>
      [Drawn(ev, "trace_committed_action", trace, "action" + ":" + TextAt(p, "action_id"))]
    case TraceFinished => []
    case Unknown(_) => []
  }

  lemma TextIs(d: Value, k: string, default: string)
    requires HasText(d, k)
    ensures Text(d, k, default) == TruthyText(d, k) == TextAt(d, k)
  {
  }

  lemma PairIs(p: Value, k: string, a: string, b: string)
    requires HasRecord(p, k, [a, b])
    ensures var d := RecordAt(p, k);
      && Sub(p, k) == d && Get(p, k) == Some(d) && Truthy(d) && HasText(d, a) && HasText(d, b)
  {
    RecordTexts(p, k, a, b);
  }

  lemma EntityIs(p: Value, k: string)
    requires HasRecord(p, k, ["entity_type", "entity_id"])
    ensures Get(p, k).Some? && Truthy(Sub(p, k)) && Sub(p, k) == Get(p, k).value
    ensures EntityIdent(Sub(p, k)) == Both(RecordAt(p, k), "entity_type", "entity_id")
  {
    PairIs(p, k, "entity_type", "entity_id");
    TextIs(RecordAt(p, k), "entity_type", "unknown");
    TextIs(RecordAt(p, k), "entity_id", "unknown");
  }

  lemma PolicyIs(ev: StoredEvent)
    requires HasRecord(ev.payload, "policy", ["policy_id", "policy_version"])
    ensures PolicyIdent(ev) == Both(RecordAt(ev.payload, "policy"), "policy_id", "policy_version")
  {
    PairIs(ev.payload, "policy", "policy_id", "policy_version");
    var d := RecordAt(ev.payload, "policy");
    TextIs(d, "policy_id", "unknown:" + ev.meta.eventId);
    TextIs(d, "policy_version", "");
  }

  // ContextGraphEmitter.emit on a payload that passed the schema check.
  lemma EmitsDrawn(ev: StoredEvent)
    requires SchemaOk(ev.meta.eventType, ev.payload)
    ensures Emit(ev).nodes == DrawnNodes(ev) && Emit(ev).edges == DrawnEdges(ev)
  {
    var p := ev.payload;
    match ev.meta.eventType
    case TraceStarted => EntityIs(p, "primary_entity");
    case InputObserved => TextIs(p, "input_id", ev.meta.eventId);
    case EntityObserved => EntityIs(p, "entity");
    case PolicyEvaluated => PolicyIs(ev);
    case ExceptionRequested => TextIs(p, "exception_id", ev.meta.eventId);
    case ApprovalRecorded =>
      PairIs(p, "subject", "subject_type", "subject_id");
      PairIs(p, "approver", "actor_type", "actor_id");
      TextIs(RecordAt(p, "subject"), "subject_type", "");
      TextIs(RecordAt(p, "subject"), "subject_id", "");
      TextIs(RecordAt(p, "approver"), "actor_type", "person");
      TextIs(RecordAt(p, "approver"), "actor_id", "unknown");
    case PrecedentCited => TextIs(p, "cited_trace_id", "");
    case ActionProposed =>
      TextIs(p, "action_id", ev.meta.eventId);
      EntityIs(p, "target_entity");
    case ActionCommitted => TextIs(p, "action_id", "");
    case TraceFinished =>
  }

  // ----- the graph of every reachable state -----

  // An event names a node that it places, or that an edge of its joins.
  ghost predicate Names(ev: StoredEvent, id: string) {
    Within(DrawnNodes(ev), DrawnEdges(ev), id)
  }

  ghost predicate Within(ns: seq<Node>, es: seq<Edge>, id: string) {
    || (exists k :: 0 <= k < |ns| && ns[k].nodeId == id)
    || (exists k :: 0 <= k < |es| && Joined(es[k], id))
  }

  predicate Joined(e: Edge, id: string) {
    e.fromNodeId == id || e.toNodeId == id
  }

  ghost predicate FirstToName(evs: seq<StoredEvent>, i: nat, id: string) {
    i < |evs| && Names(evs[i], id) && forall j :: 0 <= j < i ==> !Names(evs[j], id)
  }

  // The row a node gets from the event that names it first: its type is the part of its id before the first colon,
  // and a trace's node belongs to that trace.
  ghost predicate RowFrom(n: Node, id: string, ev: StoredEvent) {
    forall kind, rest :: id == kind + ":" + rest && ':' !in kind ==>
      n == Node(id, kind, if kind == "trace" then rest else ev.meta.traceId, ev.logSeq, ev.meta.occurredAt)
  }

  ghost predicate NodesDrawn(evs: seq<StoredEvent>, nodes: map<string, Node>) {
    && (forall id :: id in nodes <==> exists i: nat :: FirstToName(evs, i, id))
    && (forall i: nat, id :: FirstToName(evs, i, id) ==> id in nodes && RowFrom(nodes[id], id, evs[i]))
  }

  ghost predicate EdgesDrawn(evs: seq<StoredEvent>, edges: map<string, Edge>) {
    && (forall id :: id in edges ==> edges[id].edgeId == id && DrawnBy(evs, edges[id]))
    && (forall e :: DrawnBy(evs, e) ==> e.edgeId in edges)
  }

  ghost predicate DrawnBy(evs: seq<StoredEvent>, e: Edge) {
    exists i :: 0 <= i < |evs| && e in DrawnEdges(evs[i])
  }

  lemma WithinIds(ns: seq<Node>, es: seq<Edge>, id: string)
    ensures Within(ns, es, id) <==> id in NodeIds(ns) + Ends(es)
  {
    if k :| 0 <= k < |es| && Joined(es[k], id) { assert id in Ends(es); }
    if id in Ends(es) {
      var k :| 0 <= k < |es| && (es[k].fromNodeId == id || es[k].toNodeId == id);
      assert Joined(es[k], id);
    }
  }

  lemma NamesIsMentions(ev: StoredEvent, id: string) returns (mentions: set<string>)
    requires SchemaOk(ev.meta.eventType, ev.payload)
    ensures mentions == Mentions(ev) && (Names(ev, id) <==> id in mentions)
  {
    mentions := Mentions(ev);
    EmitsDrawn(ev);
    WithinIds(Emit(ev).nodes, Emit(ev).edges, id);
  }

  lemma RowForIs(id: string, ev: StoredEvent)
    ensures RowFrom(RowFor(id, ev), id, ev)
  {
    forall kind, rest | id == kind + ":" + rest && ':' !in kind ensures SplitColon(id) == Some((kind, rest)) {
      SplitNodeId(kind, rest);
    }
  }

  lemma FirstAt(ms: seq<set<string>>, id: string, i: nat)
    ensures First(ms, id) == Some(i) <==> i < |ms| && id in ms[i] && forall j :: 0 <= j < i ==> id !in ms[j]
  {
  }

  lemma NamedAt(evs: seq<StoredEvent>, ms: seq<set<string>>, id: string, i: nat)
    requires Checked(evs) && ms == Mentioned(evs) && i < |evs|
    ensures Names(evs[i], id) <==> id in ms[i]
  {
    var mentions := NamesIsMentions(evs[i], id);
  }

  lemma FirstIs(evs: seq<StoredEvent>, id: string, i: nat)
    requires Checked(evs)
    ensures FirstToName(evs, i, id) <==> FirstMention(evs, id) == Some(i)
  {
    var ms := Mentioned(evs);
    FirstAt(ms, id, i);
    if i < |evs| {
      NamedAt(evs, ms, id, i);
      forall j | 0 <= j < i ensures Names(evs[j], id) <==> id in ms[j] { NamedAt(evs, ms, id, j); }
    }
  }

  lemma NodesAreDrawn(evs: seq<StoredEvent>, nodes: map<string, Node>)
    requires Checked(evs) && NodesOk(evs, nodes)
    ensures NodesDrawn(evs, nodes)
  {
    forall id
      ensures id in nodes <==> exists i: nat :: FirstToName(evs, i, id)
      ensures forall i: nat :: FirstToName(evs, i, id) ==> id in nodes && RowFrom(nodes[id], id, evs[i])
    {
      forall i: nat ensures FirstToName(evs, i, id) <==> FirstMention(evs, id) == Some(i) { FirstIs(evs, id, i); }
      if FirstMention(evs, id).Some? {
        assert FirstToName(evs, FirstMention(evs, id).value, id);
        RowForIs(id, evs[FirstMention(evs, id).value]);
      }
    }
  }

  lemma DrawnIsEmitted(evs: seq<StoredEvent>, e: Edge)
    requires Checked(evs)
    ensures DrawnBy(evs, e) <==> EmittedBy(evs, e)
  {
    forall i | 0 <= i < |evs| ensures Emit(evs[i]).edges == DrawnEdges(evs[i]) { EmitsDrawn(evs[i]); }
  }

  lemma EdgesAreDrawn(evs: seq<StoredEvent>, tb: Tables)
    requires Checked(evs) && EdgesOk(evs, tb)
    ensures EdgesDrawn(evs, tb.edges)
  {
    forall e ensures DrawnBy(evs, e) <==> EmittedBy(evs, e) { DrawnIsEmitted(evs, e); }
  }

  ghost predicate Unchanged(evs: seq<StoredEvent>, edges: map<string, Edge>) {
    forall e :: DrawnBy(evs, e) ==> e.edgeId in edges && edges[e.edgeId] == e
  }

  lemma DrawnUnchanged(evs: seq<StoredEvent>, edges: map<string, Edge>)
    requires Checked(evs) && Conserved(evs, edges)
    ensures Unchanged(evs, edges)
  {
    forall e | DrawnBy(evs, e) ensures e.edgeId in edges && edges[e.edgeId] == e {
      DrawnIsEmitted(evs, e);
      EmittedByIsEmitted(evs, e);
    }
  }

  // In every reachable state, whatever the schedule: the nodes are those the projected events name, each with the
  // row of the first to do so; the edges are those they draw, as they were drawn if event ids hold no colon.
  lemma EveryReachableDrawing(c: Config, moves: seq<Move>) returns (evs: seq<StoredEvent>, tb: Tables)
    requires c.finishLock
    ensures var s := PerformAll(c, moves); evs == Load(s.log)[..s.proj.cursor] && tb == s.proj.tables
    ensures NodesDrawn(evs, tb.nodes) && EdgesDrawn(evs, tb.edges)
    ensures var log := PerformAll(c, moves).log;
      (forall i :: 0 <= i < |log| ==> ':' !in log[i].meta.eventId) ==> Unchanged(evs, tb.edges)
  {
    var s := PerformAll(c, moves);
    evs, tb := Load(s.log)[..s.proj.cursor], s.proj.tables;
    EveryReachableGraph(c, moves);
    LoadChecked(c, s.log, s.proj.cursor);
    NodesAreDrawn(evs, tb.nodes);
    EdgesAreDrawn(evs, tb);
    if forall i :: 0 <= i < |s.log| ==> ':' !in s.log[i].meta.eventId {
      EveryReachableConserves(c, moves);
      DrawnUnchanged(evs, tb.edges);
    }
  }
}
