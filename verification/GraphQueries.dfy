// The graph queries end to end: what they return, in terms of the edges that the log's events draw.
module GraphQueries {
  import opened ContextGraph
  import opened EdgePages
  import opened Emissions
  import opened Events
  import opened GraphShape
  import opened Order
  import opened Projection
  import opened Queries
  import opened Replay
  import opened Subgraph
  import opened Wrappers
  import opened Writers

  // A state some schedule reaches, its projection up to date, on events with colon-free ids.
  ghost predicate UpToDate(c: Config, moves: seq<Move>, s: System) {
    && c.finishLock && s == PerformAll(c, moves) && s.proj.cursor == |s.log|
    && forall i :: 0 <= i < |s.log| ==> ':' !in s.log[i].meta.eventId
  }

  // What the log's events draw.
  ghost function LogEdges(evs: seq<StoredEvent>): set<Edge> {
    set i, e | 0 <= i < |evs| && e in DrawnEdges(evs[i]) :: e
  }

  lemma DrawnHolds(evs: seq<StoredEvent>, edges: map<string, Edge>)
    requires EdgesDrawn(evs, edges) && Unchanged(evs, edges)
    ensures edges.Values == LogEdges(evs)
  {
    forall e ensures e in edges.Values <==> e in LogEdges(evs) {
      assert e in LogEdges(evs) <==> DrawnBy(evs, e);
      if DrawnBy(evs, e) { assert edges[e.edgeId] == e; }
    }
  }

  lemma UpToDateHolds(c: Config, moves: seq<Move>, s: System) returns (evs: seq<StoredEvent>)
    requires UpToDate(c, moves, s)
    ensures Readable(s.log) && evs == Load(s.log) && !Stale(s.log, s.proj.cursor)
    ensures Keyed(s.proj.tables) && s.proj.tables.edges.Values == LogEdges(evs)
  {
    EveryReachableGraph(c, moves);
    evs := Load(s.log);
    assert evs[..s.proj.cursor] == evs;
    var drawn, tb := EveryReachableDrawing(c, moves);
    DrawnHolds(evs, tb.edges);
    GraphKeyed(evs, s.proj.tables);
    LastIsLength(s.log);
  }

  // ----- the subgraph -----

  // The edges with these ids.
  ghost function EdgesWith(edges: Edges, ids: set<string>): set<Edge> {
    set id | id in ids && id in edges :: edges[id]
  }

  lemma {:induction false} AsManyEdges(edges: Edges, ids: set<string>)
    requires KeyedEdges(edges) && ids <= edges.Keys
    ensures |EdgesWith(edges, ids)| == |ids|
  {
    if ids != {} {
      var id :| id in ids;
      AsManyEdges(edges, ids - {id});
      assert EdgesWith(edges, ids) == EdgesWith(edges, ids - {id}) + {edges[id]};
    }
  }

  // The neighbourhood itself, by rows instead of ids.
  lemma RowsWithin(edges: Edges, f: GraphFilter, center: string, d: nat, all: Found) returns (rows: set<Edge>)
    requires KeyedEdges(edges) && Neighbourhood(edges, f, center, d, all)
    ensures rows == EdgesWith(edges, all.edges) && |rows| == |all.edges|
    ensures forall e :: e in rows <==> EdgeWithin(edges.Values, f, center, d, e)
  {
    rows := EdgesWith(edges, all.edges);
    forall id | id in all.edges ensures id in edges { assert IdWithin(edges, f, center, d, id); }
    AsManyEdges(edges, all.edges);
    forall e ensures e in rows <==> EdgeWithin(edges.Values, f, center, d, e) {
      if e in rows { assert IdWithin(edges, f, center, d, e.edgeId); }
      if EdgeWithin(edges.Values, f, center, d, e) { assert IdWithin(edges, f, center, d, e.edgeId); }
    }
  }

  lemma AnswerRows(tb: Tables, f: GraphFilter, center: NodeRef, r: ContextSubgraph)
    requires KeyedEdges(tb.edges) && FilterOk(f) && SubgraphOf(tb, f, center, r)
    ensures EdgesWith(tb.edges, EdgeIds(r.edges)) == set e | e in r.edges
  {
    forall e ensures e in EdgesWith(tb.edges, EdgeIds(r.edges)) <==> e in r.edges {
      if e in r.edges {
        var k :| 0 <= k < |r.edges| && r.edges[k] == e;
        assert r.edges[k].edgeId in EdgeIds(r.edges);
      }
    }
  }

  // get_context_subgraph on an up-to-date projection, against the log alone. Whatever is returned lies within
  // max_depth hops along the edges the log's events draw; unless it is truncated it is all that does; and it is
  // truncated if and only if that is more than a limit allows.
  lemma SubgraphFromTheLog(c: Config, moves: seq<Move>, s: System, f: GraphFilter, center: NodeRef, r: ContextSubgraph)
    returns (rows: set<Edge>, nodes: set<string>, within: set<Edge>)
    requires UpToDate(c, moves, s) && FilterOk(f) && SubgraphOf(s.proj.tables, f, center, r)
    ensures Readable(s.log) && rows == LogEdges(Load(s.log))
    ensures forall n :: n in nodes <==> WalksTo(rows, f, center.Key(), f.maxDepth, n)
    ensures forall e :: e in within <==> EdgeWithin(rows, f, center.Key(), f.maxDepth, e)
    ensures r.truncated <==> |nodes| > f.maxNodes || |within| > f.maxEdges
    ensures NodeIds(r.nodes) <= nodes && (set e | e in r.edges) <= within
    ensures !r.truncated ==> NodeIds(r.nodes) + {center.Key()} == nodes && (set e | e in r.edges) == within
  {
    var evs := UpToDateHolds(c, moves, s);
    rows := LogEdges(evs);
    var all := SubgraphIsExact(s.proj.tables, f, center, r);
    nodes := all.nodes;
    within := RowsWithin(s.proj.tables.edges, f, center.Key(), f.maxDepth, all);
    AnswerRows(s.proj.tables, f, center, r);
  }

  // ----- the pages -----

  ghost predicate EdgeBefore(a: Edge, b: Edge) {
    KeyLess((a.logSeq, a.edgeId), (b.logSeq, b.edgeId))
  }

  lemma MatchingRows(edges: map<string, Edge>, node: string, direction: Direction) returns (rows: seq<Edge>)
    requires KeyedEdges(edges)
    ensures rows == Matching(edges, node, direction, None)
    ensures forall e :: e in rows <==> e in edges.Values && At(e, node, direction)
    ensures forall i, j :: 0 <= i < j < |rows| ==> EdgeBefore(rows[i], rows[j])
  {
    rows := Matching(edges, node, direction, None);
    var keys := Listed(edges, node, direction, None);
    forall i | 0 <= i < |keys|
      ensures keys[i].1 in edges && rows[i] == edges[keys[i].1] && keys[i] == (rows[i].logSeq, rows[i].edgeId)
      ensures At(rows[i], node, direction)
    {
      assert keys[i] in keys;
      KeyOfRow(edges, node, direction, keys, i);
    }
    forall e | e in edges.Values && At(e, node, direction) ensures e in rows {
      assert (e.logSeq, e.edgeId) in keys;
      var i :| 0 <= i < |keys| && keys[i] == (e.logSeq, e.edgeId);
      assert rows[i] == e;
    }
  }

  // A full reading of list_node_edges whose last call sees an up-to-date projection collects exactly the edges
  // at the node that the log's events draw, each once, by log_seq and edge id.
  lemma PagesFromTheLog(c: Config, moves: seq<Move>, s: System, r: Reading, node: string, direction: Direction,
                        limit: nat)
    returns (evs: seq<StoredEvent>, rows: seq<Edge>)
    requires UpToDate(c, moves, s) && limit > 0 && Follows(r, node, direction, limit)
    requires r.last.edges == s.proj.tables.edges && r.last.page.nextCursor.None?
    ensures Readable(s.log) && evs == Load(s.log) && rows == Collected(r)
    ensures forall e :: e in rows <==> (
        && e in LogEdges(evs)
        && ((direction != Incoming && e.fromNodeId == node) || (direction != Outgoing && e.toNodeId == node)))
    ensures forall i, j :: 0 <= i < j < |rows| ==> EdgeBefore(rows[i], rows[j])
  {
    evs := UpToDateHolds(c, moves, s);
    var all, collected, next := FollowingCollectsAll(r, node, direction, limit);
    rows := MatchingRows(r.last.edges, node, direction);
    assert rows == collected;
  }
}
