// Context graph emission: the nodes and edges each kind of event gives rise to.
module ContextGraph {
  import opened Events
  import opened Json
  import opened Wrappers

  // attrs is always {} and is left out of both.
  datatype Node = Node(nodeId: string, nodeType: string, traceId: string, logSeq: int, createdAt: string)

  datatype Edge = Edge(edgeId: string, edgeType: string, fromNodeId: string, toNodeId: string,
                       traceId: string, logSeq: int, createdAt: string)

  datatype GraphEmission = GraphEmission(nodes: seq<Node>, edges: seq<Edge>)

  // ----- reading payload values -----

  // str(v) of a scalar
  function Shown(v: Value): string {
    match v
    case Str(s) => s
    case Null => "None"
    case Bool(b) => if b then "True" else "False"
    case Int(n) => Decimal(n)
    case Float(repr) => repr
    case _ => Dumps(v, SPACED)
  }

  // d.get(k, default), shown
  function Text(d: Value, k: string, default: string): string {
    match Get(d, k)
    case None => default
    case Some(v) => Shown(v)
  }

  // d.get(k, {})
  function Sub(d: Value, k: string): Value {
    match Get(d, k)
    case None => Dict([])
    case Some(v) => v
  }

  // bool(v)
  predicate Truthy(v: Value) {
    match v
    case Null => false
    case Bool(b) => b
    case Int(n) => n != 0
    case Float(repr) => repr != "0.0" && repr != "-0.0"
    case Str(s) => s != ""
    case List(xs) => xs != []
    case Tuple(xs) => xs != []
    case Dict(fs) => fs != []
  }

  // d.get(k, ""), shown, where whatever is falsy counts as ""
  function TruthyText(d: Value, k: string): string {
    match Get(d, k)
    case None => ""
    case Some(v) => if Truthy(v) then Shown(v) else ""
  }

  // ----- identifiers -----

  function MakeNodeId(nodeType: string, identifier: string): string {
    nodeType + ":" + identifier
  }

  function MakeEdgeId(edgeType: string, fromNodeId: string, toNodeId: string, eventId: string): string {
    edgeType + ":" + fromNodeId + ":" + toNodeId + ":" + eventId
  }

  // The part before the first colon and the part after it; None without a colon.
  function SplitColon(s: string): Option<(string, string)> {
    if s == [] then None
    else if s[0] == ':' then Some(("", s[1..]))
    else
      match SplitColon(s[1..])
      case None => None
      case Some((a, b)) => Some(([s[0]] + a, b))
  }

  lemma {:induction false} SplitNodeId(nodeType: string, identifier: string)
    requires ':' !in nodeType
    ensures SplitColon(MakeNodeId(nodeType, identifier)) == Some((nodeType, identifier))
  {
    var s := MakeNodeId(nodeType, identifier);
    if nodeType == [] {
      assert s[1..] == identifier;
    } else {
      assert s[1..] == MakeNodeId(nodeType[1..], identifier);
      SplitNodeId(nodeType[1..], identifier);
      assert nodeType == [nodeType[0]] + nodeType[1..];
    }
  }

  // ----- emission -----

  function NodeOf(ev: StoredEvent, nodeType: string, identifier: string): Node {
    Node(MakeNodeId(nodeType, identifier), nodeType, ev.meta.traceId, ev.logSeq, ev.meta.occurredAt)
  }

  function EdgeOf(ev: StoredEvent, edgeType: string, fromNodeId: string, toNodeId: string): Edge {
    Edge(MakeEdgeId(edgeType, fromNodeId, toNodeId, ev.meta.eventId), edgeType, fromNodeId, toNodeId,
         ev.meta.traceId, ev.logSeq, ev.meta.occurredAt)
  }

  function TraceNodeId(ev: StoredEvent): string {
    MakeNodeId("trace", ev.meta.traceId)
  }

  function EntityIdent(entity: Value): string {
    Text(entity, "entity_type", "unknown") + ":" + Text(entity, "entity_id", "unknown")
  }

  const NOTHING := GraphEmission([], [])

  // One node of the given type, and an edge to it from the trace.
  function Attached(ev: StoredEvent, nodeType: string, identifier: string, edgeType: string): GraphEmission {
    GraphEmission([NodeOf(ev, nodeType, identifier)],
                  [EdgeOf(ev, edgeType, TraceNodeId(ev), MakeNodeId(nodeType, identifier))])
  }

  function EmitTraceStarted(ev: StoredEvent): GraphEmission {
    var actor := ev.meta.actor.actorType + ":" + ev.meta.actor.actorId;
    var nodes := [NodeOf(ev, "trace", ev.meta.traceId), NodeOf(ev, "actor", actor)];
    match Get(ev.payload, "primary_entity")
    case None => GraphEmission(nodes, [])
    case Some(entity) =>
      var attached := Attached(ev, "entity", EntityIdent(entity), "trace_involves_entity");
      GraphEmission(nodes + attached.nodes, attached.edges)
  }

  function PolicyIdent(ev: StoredEvent): string {
    var policy := Sub(ev.payload, "policy");
    var id := if Get(policy, "policy_id") == Some(Null) then "unknown:" + ev.meta.eventId
      else Text(policy, "policy_id", "unknown:" + ev.meta.eventId);
    var version := TruthyText(policy, "policy_version");
    if version != "" then id + ":" + version else id
  }

  function EmitApprovalRecorded(ev: StoredEvent): GraphEmission {
    var subject := Sub(ev.payload, "subject");
    var approver := Sub(ev.payload, "approver");
    var actor := Text(approver, "actor_type", "person") + ":" + Text(approver, "actor_id", "unknown");
    var subjectId := TruthyText(subject, "subject_id");
    GraphEmission([NodeOf(ev, "actor", actor)],
      if Text(subject, "subject_type", "") == "exception" && subjectId != "" then
        [EdgeOf(ev, "exception_approved_by", MakeNodeId("exception", subjectId), MakeNodeId("actor", actor))]
      else [])
  }

  function EmitActionProposed(ev: StoredEvent): GraphEmission {
    var action := Text(ev.payload, "action_id", ev.meta.eventId);
    var attached := Attached(ev, "action", action, "trace_proposed_action");
    var target := Sub(ev.payload, "target_entity");
    GraphEmission(attached.nodes, attached.edges +
      if Truthy(target) then
        [EdgeOf(ev, "action_targets_entity", MakeNodeId("action", action), MakeNodeId("entity", EntityIdent(target)))]
      else [])
  }

  // An edge from the trace to a node that is expected to exist already.
  function Linked(ev: StoredEvent, nodeType: string, identifier: string, edgeType: string): GraphEmission {
    if identifier == "" then NOTHING
    else GraphEmission([], [EdgeOf(ev, edgeType, TraceNodeId(ev), MakeNodeId(nodeType, identifier))])
  }

  // ContextGraphEmitter.emit
  function Emit(ev: StoredEvent): GraphEmission {
    var p := ev.payload;
    match ev.meta.eventType
    case TraceStarted => EmitTraceStarted(ev)
    case InputObserved => Attached(ev, "input", Text(p, "input_id", ev.meta.eventId), "trace_observed_input")
    case EntityObserved => Attached(ev, "entity", EntityIdent(Sub(p, "entity")), "trace_involves_entity")
    case PolicyEvaluated => Attached(ev, "policy", PolicyIdent(ev), "trace_evaluated_policy")
    case ExceptionRequested =>
      Attached(ev, "exception", Text(p, "exception_id", ev.meta.eventId), "trace_requested_exception")
    case ApprovalRecorded => EmitApprovalRecorded(ev)
    case PrecedentCited => Linked(ev, "trace", TruthyText(p, "cited_trace_id"), "trace_cited_precedent")
    case ActionProposed => EmitActionProposed(ev)
    case ActionCommitted => Linked(ev, "action", TruthyText(p, "action_id"), "trace_committed_action")
    case TraceFinished => NOTHING
    case Unknown(_) => NOTHING
  }

  // ----- node rows -----

  // The row an id gets from the first event that mentions it, whether the event emits the node or only an
  // edge that touches it.
  function RowFor(id: string, ev: StoredEvent): Node {
    match SplitColon(id)
    case None => Node(id, "unknown", ev.meta.traceId, ev.logSeq, ev.meta.occurredAt)
    case Some((kind, rest)) =>
      Node(id, kind, if kind == "trace" then rest else ev.meta.traceId, ev.logSeq, ev.meta.occurredAt)
  }

  ghost predicate IsRow(ev: StoredEvent, n: Node) {
    n == RowFor(n.nodeId, ev)
  }

  lemma NodeOfIsRow(ev: StoredEvent, nodeType: string, identifier: string)
    requires ':' !in nodeType && (nodeType == "trace" ==> identifier == ev.meta.traceId)
    ensures IsRow(ev, NodeOf(ev, nodeType, identifier))
  {
    SplitNodeId(nodeType, identifier);
  }

  // A placeholder is indistinguishable from an emitted node.
  lemma EmittedNodesAreRows(ev: StoredEvent)
    ensures forall i :: 0 <= i < |Emit(ev).nodes| ==> IsRow(ev, Emit(ev).nodes[i])
  {
    var p := ev.payload;
    match ev.meta.eventType
    case TraceStarted =>
      NodeOfIsRow(ev, "trace", ev.meta.traceId);
      NodeOfIsRow(ev, "actor", ev.meta.actor.actorType + ":" + ev.meta.actor.actorId);
      if Get(p, "primary_entity").Some? { NodeOfIsRow(ev, "entity", EntityIdent(Get(p, "primary_entity").value)); }
    case InputObserved => NodeOfIsRow(ev, "input", Text(p, "input_id", ev.meta.eventId));
    case EntityObserved => NodeOfIsRow(ev, "entity", EntityIdent(Sub(p, "entity")));
    case PolicyEvaluated => NodeOfIsRow(ev, "policy", PolicyIdent(ev));
    case ExceptionRequested => NodeOfIsRow(ev, "exception", Text(p, "exception_id", ev.meta.eventId));
    case ApprovalRecorded =>
      var approver := Sub(p, "approver");
      NodeOfIsRow(ev, "actor", Text(approver, "actor_type", "person") + ":" + Text(approver, "actor_id", "unknown"));
    case ActionProposed => NodeOfIsRow(ev, "action", Text(p, "action_id", ev.meta.eventId));
    case _ =>
  }

  ghost predicate IsEdge(ev: StoredEvent, e: Edge) {
    e == EdgeOf(ev, e.edgeType, e.fromNodeId, e.toNodeId)
  }

  // Every emitted edge carries its event's place and an id built from its parts; two edges of one event
  // differ in type.
  lemma EmittedEdges(ev: StoredEvent)
    ensures forall i :: 0 <= i < |Emit(ev).edges| ==> IsEdge(ev, Emit(ev).edges[i])
    ensures |Emit(ev).edges| <= 2
    ensures |Emit(ev).edges| == 2 ==>
      Emit(ev).edges[0].edgeType == "trace_proposed_action" && Emit(ev).edges[1].edgeType == "action_targets_entity"
  {
    match ev.meta.eventType
    case ActionProposed =>
      assert |EmitActionProposed(ev).edges| <= 2;
    case _ =>
      assert |Emit(ev).edges| <= 1;
  }

  // The subject of an approval, as its payload names it.
  ghost predicate ApprovesException(ev: StoredEvent) {
    var subject := Sub(ev.payload, "subject");
    Get(subject, "subject_type") == Some(Str("exception"))
  }

  // The edges an event owes the graph.
  ghost function EdgesDue(ev: StoredEvent): nat {
    match ev.meta.eventType
    case ActionProposed => 2
    case ApprovalRecorded => if ApprovesException(ev) then 1 else 0
    case TraceFinished => 0
    case _ => 1
  }

  lemma TextGiven(d: Value, k: string)
    requires HasText(d, k)
    ensures Text(d, k, "") != "" && TruthyText(d, k) != ""
    ensures Text(d, k, "") == "exception" <==> Get(d, k) == Some(Str("exception"))
  {
    assert Get(d, k).value == Str(Get(d, k).value.text);
  }

  lemma RecordGiven(p: Value, k: string, a: string, b: string)
    requires HasRecord(p, k, [a, b])
    ensures HasText(Sub(p, k), a) && HasText(Sub(p, k), b) && Truthy(Sub(p, k))
  {
    assert [a, b][0] == a && [a, b][1] == b;
    assert HasText(Get(p, k).value, a);
  }

  // A payload that passed the schema check leaves no handler without what it needs: each event emits exactly
  // the edges due.
  lemma EdgesAreDue(ev: StoredEvent)
    requires SchemaOk(ev.meta.eventType, ev.payload)
    ensures |Emit(ev).edges| == EdgesDue(ev)
  {
    var p := ev.payload;
    match ev.meta.eventType
    case TraceStarted => assert Get(p, "primary_entity").Some?;
    case ApprovalRecorded =>
      RecordGiven(p, "subject", "subject_type", "subject_id");
      TextGiven(Sub(p, "subject"), "subject_type");
      TextGiven(Sub(p, "subject"), "subject_id");
    case PrecedentCited => TextGiven(p, "cited_trace_id");
    case ActionProposed => RecordGiven(p, "target_entity", "entity_type", "entity_id");
    case ActionCommitted => TextGiven(p, "action_id");
    case _ =>
  }

  // ----- the handlers that append to lists -----

  method BuildTraceStarted(ev: StoredEvent) returns (emission: GraphEmission)
    ensures emission == EmitTraceStarted(ev)
  {
    var nodes, edges := [], [];
    var traceNodeId := MakeNodeId("trace", ev.meta.traceId);
    nodes := nodes + [NodeOf(ev, "trace", ev.meta.traceId)];
    nodes := nodes + [NodeOf(ev, "actor", ev.meta.actor.actorType + ":" + ev.meta.actor.actorId)];
    if Get(ev.payload, "primary_entity").Some? {
      var identifier := EntityIdent(Get(ev.payload, "primary_entity").value);
      nodes := nodes + [NodeOf(ev, "entity", identifier)];
      edges := edges + [EdgeOf(ev, "trace_involves_entity", traceNodeId, MakeNodeId("entity", identifier))];
    }
    return GraphEmission(nodes, edges);
  }

  method BuildApprovalRecorded(ev: StoredEvent) returns (emission: GraphEmission)
    ensures emission == EmitApprovalRecorded(ev)
    ensures |emission.nodes| == 1 && |emission.edges| <= 1
    ensures emission.edges != [] <==>
      var subject := Sub(ev.payload, "subject");
      Text(subject, "subject_type", "") == "exception" && TruthyText(subject, "subject_id") != ""
    ensures emission.edges != [] ==> emission.edges[0].toNodeId == emission.nodes[0].nodeId
  {
    var nodes, edges := [], [];
    var subject, approver := Sub(ev.payload, "subject"), Sub(ev.payload, "approver");
    var actor := Text(approver, "actor_type", "person") + ":" + Text(approver, "actor_id", "unknown");
    nodes := nodes + [NodeOf(ev, "actor", actor)];
    var subjectId := TruthyText(subject, "subject_id");
    if Text(subject, "subject_type", "") == "exception" && subjectId != "" {
      var from, to := MakeNodeId("exception", subjectId), MakeNodeId("actor", actor);
      edges := edges + [EdgeOf(ev, "exception_approved_by", from, to)];
    }
    return GraphEmission(nodes, edges);
  }

  method BuildActionProposed(ev: StoredEvent) returns (emission: GraphEmission)
    ensures emission == EmitActionProposed(ev)
    ensures |emission.nodes| == 1
    ensures |emission.edges| == if Truthy(Sub(ev.payload, "target_entity")) then 2 else 1
    ensures emission.edges[0].fromNodeId == TraceNodeId(ev) && emission.edges[0].toNodeId == emission.nodes[0].nodeId
    ensures |emission.edges| == 2 ==> emission.edges[1].fromNodeId == emission.nodes[0].nodeId
  {
    var action := Text(ev.payload, "action_id", ev.meta.eventId);
    var actionNodeId := MakeNodeId("action", action);
    var nodes := [NodeOf(ev, "action", action)];
    var edges := [EdgeOf(ev, "trace_proposed_action", TraceNodeId(ev), actionNodeId)];
    var target := Sub(ev.payload, "target_entity");
    if Truthy(target) {
      edges := edges + [EdgeOf(ev, "action_targets_entity", actionNodeId, MakeNodeId("entity", EntityIdent(target)))];
    }
    return GraphEmission(nodes, edges);
  }

  method BuildEmission(ev: StoredEvent) returns (emission: GraphEmission)
    ensures emission == Emit(ev)
    ensures forall i :: 0 <= i < |emission.nodes| ==> IsRow(ev, emission.nodes[i])
    ensures forall i :: 0 <= i < |emission.edges| ==> IsEdge(ev, emission.edges[i])
    ensures SchemaOk(ev.meta.eventType, ev.payload) ==> |emission.edges| == EdgesDue(ev)
  {
    EmittedNodesAreRows(ev);
    EmittedEdges(ev);
    if SchemaOk(ev.meta.eventType, ev.payload) { EdgesAreDue(ev); }
    match ev.meta.eventType {
      case TraceStarted => emission := BuildTraceStarted(ev);
      case ApprovalRecorded => emission := BuildApprovalRecorded(ev);
      case ActionProposed => emission := BuildActionProposed(ev);
      case _ => emission := Emit(ev);
    }
  }
}
