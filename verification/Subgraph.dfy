// get_context_subgraph: a breadth-first search from a center, bounded in depth, nodes and edges.
module Subgraph {
  import opened ContextGraph
  import opened Events
  import opened GraphShape
  import opened Log
  import opened Order
  import opened Projection
  import opened Queries
  import opened Wrappers

  datatype GraphFilter = GraphFilter(
    edgeTypes: Option<seq<string>>, nodeTypes: Option<seq<string>>, maxDepth: int, maxNodes: int, maxEdges: int)

  datatype ContextSubgraph = ContextSubgraph(center: NodeRef, nodes: seq<Node>, edges: seq<Edge>, truncated: bool)

  const MAX_GRAPH_DEPTH := 10

  // GraphFilter.__post_init__
  predicate FilterOk(f: GraphFilter) {
    && 0 <= f.maxDepth <= MAX_GRAPH_DEPTH
    && f.maxNodes > 0 && f.maxEdges > 0
    && f.edgeTypes != Some([]) && f.nodeTypes != Some([])
  }

  // ----- the exact neighbourhood -----

  type Edges = map<string, Edge>

  predicate Passes(f: GraphFilter, e: Edge) {
    f.edgeTypes.None? || e.edgeType in f.edgeTypes.value
  }

  function KindOf(id: string): string {
    match SplitColon(id)
    case None => ""
    case Some((kind, _)) => kind
  }

  predicate Admitted(f: GraphFilter, id: string) {
    f.nodeTypes.None? || KindOf(id) in f.nodeTypes.value
  }

  // The edges that pass and have an end in nodes.
  function Touching(edges: Edges, f: GraphFilter, nodes: set<string>): set<string> {
    set id | id in edges && Passes(f, edges[id]) && (edges[id].fromNodeId in nodes || edges[id].toNodeId in nodes)
  }

  function EndsOf(edges: Edges, ids: set<string>): set<string> {
    (set id | id in ids && id in edges :: edges[id].fromNodeId)
      + (set id | id in ids && id in edges :: edges[id].toNodeId)
  }

  function AdmittedEnds(edges: Edges, f: GraphFilter, ids: set<string>): set<string> {
    set n | n in EndsOf(edges, ids) && Admitted(f, n)
  }

  datatype Found = Found(nodes: set<string>, edges: set<string>)

  // The nodes within d hops of the center, and the edges that touch a node at depth below d.
  ghost function Reach(edges: Edges, f: GraphFilter, center: string, d: nat): Found {
    if d == 0 then Found({center}, {}) else
      var inner := Reach(edges, f, center, d - 1);
      var touched := Touching(edges, f, inner.nodes);
      Found(inner.nodes + AdmittedEnds(edges, f, touched), touched)
  }

  ghost predicate Within(a: Found, b: Found) {
    a.nodes <= b.nodes && a.edges <= b.edges
  }

  lemma {:induction false} ReachDeeper(edges: Edges, f: GraphFilter, center: string, a: nat, b: nat)
    requires a <= b
    ensures Within(Reach(edges, f, center, a), Reach(edges, f, center, b))
  {
    if a < b {
      ReachDeeper(edges, f, center, a, b - 1);
    }
  }

  // Some edges of the table.
  ghost function Only(edges: Edges, ids: set<string>): Edges {
    map id | id in edges && id in ids :: edges[id]
  }

  lemma {:induction false} ReachMore(edges: Edges, f: GraphFilter, center: string, a: set<string>, b: set<string>,
                                     d: nat)
    requires a <= b
    ensures Reach(Only(edges, a), f, center, d).nodes <= Reach(Only(edges, b), f, center, d).nodes
  {
    if d > 0 {
      ReachMore(edges, f, center, a, b, d - 1);
      var ra, rb := Reach(Only(edges, a), f, center, d - 1), Reach(Only(edges, b), f, center, d - 1);
      assert Touching(Only(edges, a), f, ra.nodes) <= Touching(Only(edges, b), f, rb.nodes);
    }
  }

  // Once no edge leads out of the nodes found, searching deeper finds nothing.
  lemma {:induction false} ReachSettled(edges: Edges, f: GraphFilter, center: string, a: nat, b: nat)
    requires 0 < a <= b
    requires Touching(edges, f, Reach(edges, f, center, a).nodes) <= Reach(edges, f, center, a).edges
    ensures Reach(edges, f, center, b) == Reach(edges, f, center, a)
  {
    if a < b {
      ReachSettled(edges, f, center, a, b - 1);
      ReachDeeper(edges, f, center, a, b);
      var r := Reach(edges, f, center, a);
      assert Touching(edges, f, r.nodes) == r.edges;
      assert AdmittedEnds(edges, f, r.edges) <= r.nodes;
    }
  }

  // ----- hops -----

  // A list of types, if one is given, has the type.
  ghost predicate Lists(types: Option<seq<string>>, t: string) {
    types.Some? ==> t in types.value
  }

  // The part of a node's id before its first colon is listed; without a colon that part is empty.
  ghost predicate KindListed(f: GraphFilter, id: string) {
    && (':' !in id ==> Lists(f.nodeTypes, ""))
    && forall kind, rest :: id == kind + ":" + rest && ':' !in kind ==> Lists(f.nodeTypes, kind)
  }

  lemma {:induction false} SplitParts(id: string)
    ensures SplitColon(id).None? ==> ':' !in id
    ensures SplitColon(id).Some? ==>
      var (kind, rest) := SplitColon(id).value; id == kind + ":" + rest && ':' !in kind
  {
    if id != [] && id[0] != ':' {
      SplitParts(id[1..]);
      assert id == [id[0]] + id[1..];
    }
  }

  lemma AdmittedIsListed(f: GraphFilter, id: string)
    ensures Admitted(f, id) <==> KindListed(f, id)
  {
    SplitParts(id);
    forall kind, rest | id == kind + ":" + rest && ':' !in kind ensures SplitColon(id) == Some((kind, rest)) {
      SplitNodeId(kind, rest);
    }
  }

  // One hop along an edge of a listed type, in either direction.
  ghost predicate Adjacent(rows: set<Edge>, f: GraphFilter, a: string, b: string) {
    exists e :: e in rows && Lists(f.edgeTypes, e.edgeType) && Joins(e, a, b)
  }

  predicate Joins(e: Edge, a: string, b: string) {
    (e.fromNodeId == a && e.toNodeId == b) || (e.fromNodeId == b && e.toNodeId == a)
  }

  // A walk from the center, whose other nodes have an admitted type.
  ghost predicate Walk(rows: set<Edge>, f: GraphFilter, center: string, p: seq<string>) {
    && p != [] && p[0] == center
    && forall i :: 0 < i < |p| ==> Adjacent(rows, f, p[i - 1], p[i]) && (p[i] == center || KindListed(f, p[i]))
  }

  ghost predicate WalksTo(rows: set<Edge>, f: GraphFilter, center: string, d: nat, n: string) {
    exists p :: Walk(rows, f, center, p) && |p| <= d + 1 && p[|p| - 1] == n
  }

  lemma HopReaches(edges: Edges, f: GraphFilter, nodes: set<string>, a: string, b: string)
    requires a in nodes && Adjacent(edges.Values, f, a, b) && KindListed(f, b)
    ensures b in AdmittedEnds(edges, f, Touching(edges, f, nodes))
  {
    var id :| id in edges && Lists(f.edgeTypes, edges[id].edgeType) && Joins(edges[id], a, b);
    assert id in Touching(edges, f, nodes);
    AdmittedIsListed(f, b);
  }

  lemma LastHop(edges: Edges, f: GraphFilter, center: string, nodes: set<string>, p: seq<string>, k: nat)
    requires 0 < k < |p| && Walk(edges.Values, f, center, p) && p[k] != center && p[k - 1] in nodes
    ensures p[k] in AdmittedEnds(edges, f, Touching(edges, f, nodes))
  {
    HopReaches(edges, f, nodes, p[k - 1], p[k]);
  }

  lemma {:induction false} WalkReaches(edges: Edges, f: GraphFilter, center: string, p: seq<string>)
    requires Walk(edges.Values, f, center, p)
    ensures p[|p| - 1] in Reach(edges, f, center, |p| - 1).nodes
  {
    var k := |p| - 1;
    if p[k] == center {
      ReachDeeper(edges, f, center, 0, k);
    } else {
      var q := p[..k];
      WalkReaches(edges, f, center, q);
      LastHop(edges, f, center, Reach(edges, f, center, k - 1).nodes, p, k);
    }
  }

  lemma WalkOn(rows: set<Edge>, f: GraphFilter, center: string, p: seq<string>, n: string) returns (q: seq<string>)
    requires Walk(rows, f, center, p) && Adjacent(rows, f, p[|p| - 1], n) && KindListed(f, n)
    ensures Walk(rows, f, center, q) && |q| == |p| + 1 && q[|q| - 1] == n
  {
    q := p + [n];
  }

  // A node found at a level was there a level earlier, or was reached from one that was.
  lemma Before(edges: Edges, f: GraphFilter, center: string, d: nat, n: string) returns (m: string)
    requires d > 0 && n in Reach(edges, f, center, d).nodes
    ensures m in Reach(edges, f, center, d - 1).nodes
    ensures m != n ==> Adjacent(edges.Values, f, m, n) && KindListed(f, n)
  {
    var inner := Reach(edges, f, center, d - 1).nodes;
    if n in inner { return n; }
    m := CameFrom(edges, f, inner, n);
  }

  lemma CameFrom(edges: Edges, f: GraphFilter, nodes: set<string>, n: string) returns (m: string)
    requires n in AdmittedEnds(edges, f, Touching(edges, f, nodes)) && n !in nodes
    ensures m in nodes && Adjacent(edges.Values, f, m, n) && KindListed(f, n)
  {
    var id :| id in Touching(edges, f, nodes) && (edges[id].fromNodeId == n || edges[id].toNodeId == n);
    m := if edges[id].fromNodeId == n then edges[id].toNodeId else edges[id].fromNodeId;
    assert edges[id] in edges.Values && Joins(edges[id], m, n);
    AdmittedIsListed(f, n);
  }

  lemma {:induction false} ReachWalks(edges: Edges, f: GraphFilter, center: string, d: nat, n: string)
    returns (p: seq<string>)
    requires n in Reach(edges, f, center, d).nodes
    ensures Walk(edges.Values, f, center, p) && |p| <= d + 1 && p[|p| - 1] == n
    decreases d
  {
    if d == 0 {
      p := [center];
    } else {
      var m := Before(edges, f, center, d, n);
      p := ReachWalks(edges, f, center, d - 1, m);
      if m != n { p := WalkOn(edges.Values, f, center, p, n); }
    }
  }

  // The nodes found at depth d are those at most d hops from the center.
  lemma ReachIsHops(edges: Edges, f: GraphFilter, center: string, d: nat, n: string)
    ensures n in Reach(edges, f, center, d).nodes <==> WalksTo(edges.Values, f, center, d, n)
  {
    if n in Reach(edges, f, center, d).nodes {
      var p := ReachWalks(edges, f, center, d, n);
    }
    if WalksTo(edges.Values, f, center, d, n) {
      var p :| Walk(edges.Values, f, center, p) && |p| <= d + 1 && p[|p| - 1] == n;
      WalkReaches(edges, f, center, p);
      ReachDeeper(edges, f, center, |p| - 1, d);
    }
  }

  // ----- the search -----

  lemma {:induction false} SubsetSize<T>(a: set<T>, b: set<T>)
    requires a <= b
    ensures |a| <= |b|
  {
    if a != {} {
      var x :| x in a;
      SubsetSize(a - {x}, b - {x});
    }
  }

  ghost function AdmittedPair(f: GraphFilter, e: Edge): set<string> {
    set n | n in {e.fromNodeId, e.toNodeId} && Admitted(f, n)
  }

  lemma AdmittedEndsPlus(edges: Edges, f: GraphFilter, ids: set<string>, id: string)
    requires id in edges
    ensures AdmittedEnds(edges, f, ids + {id}) == AdmittedEnds(edges, f, ids) + AdmittedPair(f, edges[id])
  {
    assert EndsOf(edges, ids + {id}) == EndsOf(edges, ids) + {edges[id].fromNodeId, edges[id].toNodeId};
  }

  lemma AdmittedEndsMore(edges: Edges, f: GraphFilter, a: set<string>, b: set<string>)
    requires a <= b
    ensures AdmittedEnds(edges, f, a) <= AdmittedEnds(edges, f, b)
  {
  }

  // The two ends of one edge: those not yet seen join nodes and the next frontier.
  method VisitEnds(e: Edge, f: GraphFilter, seen: set<string>, queue: set<string>)
    returns (nodes: set<string>, next: set<string>, truncated: bool)
    requires |seen| <= f.maxNodes
    ensures seen <= nodes <= seen + AdmittedPair(f, e) && next == queue + (nodes - seen) && |nodes| <= f.maxNodes
    ensures !truncated ==> nodes == seen + AdmittedPair(f, e)
    ensures truncated ==> |seen + AdmittedPair(f, e)| > f.maxNodes
  {
    nodes, next, truncated := seen, queue, false;
    var ends := [e.fromNodeId, e.toNodeId];
    for k := 0 to 2
      invariant seen <= nodes <= seen + AdmittedPair(f, e) && next == queue + (nodes - seen)
      invariant |nodes| <= f.maxNodes && !truncated
      invariant forall j :: 0 <= j < k && Admitted(f, ends[j]) ==> ends[j] in nodes
    {
      var neighbor := ends[k];
      if neighbor in nodes || !Admitted(f, neighbor) { continue; }
      if |nodes| >= f.maxNodes {
        SubsetSize(nodes + {neighbor}, seen + AdmittedPair(f, e));
        return nodes, next, true;
      }
      nodes := nodes + {neighbor};
      next := next + {neighbor};
    }
    assert Admitted(f, ends[0]) ==> ends[0] in nodes;
    assert Admitted(f, ends[1]) ==> ends[1] in nodes;
  }

  // What a level holds after some of its rows: nothing but ends of the rows it has picked.
  ghost predicate LevelOk(edges: Edges, f: GraphFilter, seen: set<string>, taken: set<string>, rows: set<string>,
                          nodes: set<string>, picked: set<string>) {
    && seen <= nodes && taken <= picked <= taken + rows
    && nodes <= seen + AdmittedEnds(edges, f, rows * picked)
  }

  // And if it has not been cut short, all of them.
  ghost predicate LevelFull(edges: Edges, f: GraphFilter, seen: set<string>, taken: set<string>, rows: set<string>,
                            nodes: set<string>, picked: set<string>) {
    picked == taken + rows && nodes == seen + AdmittedEnds(edges, f, rows - taken)
  }

  ghost predicate TooMany(edges: Edges, f: GraphFilter, seen: set<string>, taken: set<string>, rows: set<string>) {
    |taken + rows| > f.maxEdges || |seen + AdmittedEnds(edges, f, rows)| > f.maxNodes
  }

  // The rows gone through are a stretch of the rows in order of their ids.
  ghost predicate Stretch(rows: seq<string>, i: nat, done: set<string>) {
    i <= |rows| && done == set k | 0 <= k < i :: rows[k]
  }

  // The edges picked at a level come before those left out.
  ghost predicate Earliest(rows: set<string>, taken: set<string>, picked: set<string>) {
    forall a, b :: a in picked && a !in taken && b in rows && b !in picked ==> TextLess(a, b)
  }

  lemma StretchEarliest(rows: seq<string>, all: set<string>, i: nat, done: set<string>, taken: set<string>)
    requires Increasing(TextLess, rows) && (forall x :: x in rows <==> x in all) && Stretch(rows, i, done)
    ensures done <= all && (i < |rows| ==> rows[i] in all && rows[i] !in done)
    ensures Earliest(all, taken, taken + done)
  {
    TextLessTotal();
  }

  lemma StretchOn(rows: seq<string>, i: nat, done: set<string>)
    requires Stretch(rows, i, done) && i < |rows|
    ensures Stretch(rows, i + 1, done + {rows[i]})
  {
  }

  lemma StillNew(seen: set<string>, before: set<string>, nodes: set<string>, queue: set<string>, next: set<string>)
    requires seen <= before <= nodes && queue == before - seen && next == queue + (nodes - before)
    ensures next == nodes - seen
  {
  }

  lemma LevelStep(edges: Edges, f: GraphFilter, seen: set<string>, taken: set<string>, all: set<string>,
                  done: set<string>, nodes: set<string>, picked: set<string>, id: string, nodes': set<string>)
    requires LevelFull(edges, f, seen, taken, done, nodes, picked) && done <= all
    requires id in all && id !in picked && id in edges
    requires nodes <= nodes' <= nodes + AdmittedPair(f, edges[id])
    ensures LevelOk(edges, f, seen, taken, all, nodes', picked + {id})
    ensures nodes + AdmittedPair(f, edges[id]) <= seen + AdmittedEnds(edges, f, all)
    ensures nodes' == nodes + AdmittedPair(f, edges[id]) ==>
      LevelFull(edges, f, seen, taken, done + {id}, nodes', picked + {id})
  {
    AdmittedEndsPlus(edges, f, done - taken, id);
    assert done + {id} - taken == done - taken + {id};
    AdmittedEndsMore(edges, f, done - taken + {id}, all * (picked + {id}));
    AdmittedEndsMore(edges, f, done - taken + {id}, all);
  }

  lemma LevelCut(edges: Edges, f: GraphFilter, seen: set<string>, taken: set<string>, all: set<string>,
                 done: set<string>, nodes: set<string>, picked: set<string>, id: string)
    requires LevelFull(edges, f, seen, taken, done, nodes, picked) && done <= all
    requires id in all && id !in picked && |picked| >= f.maxEdges
    ensures LevelOk(edges, f, seen, taken, all, nodes, picked) && TooMany(edges, f, seen, taken, all)
  {
    SubsetSize(picked + {id}, taken + all);
    LevelFullIsOk(edges, f, seen, taken, all, done, nodes, picked);
  }

  lemma NodesCut(edges: Edges, f: GraphFilter, seen: set<string>, taken: set<string>, all: set<string>,
                 some: set<string>)
    requires some <= seen + AdmittedEnds(edges, f, all) && |some| > f.maxNodes
    ensures TooMany(edges, f, seen, taken, all)
  {
    SubsetSize(some, seen + AdmittedEnds(edges, f, all));
  }

  lemma LevelSkips(edges: Edges, f: GraphFilter, seen: set<string>, taken: set<string>, done: set<string>,
                   nodes: set<string>, picked: set<string>, id: string)
    requires LevelFull(edges, f, seen, taken, done, nodes, picked) && id in picked
    ensures LevelFull(edges, f, seen, taken, done + {id}, nodes, picked)
  {
    if id !in done { assert done + {id} - taken == done - taken; } else { assert done + {id} == done; }
  }

  lemma LevelFullIsOk(edges: Edges, f: GraphFilter, seen: set<string>, taken: set<string>, all: set<string>,
                      done: set<string>, nodes: set<string>, picked: set<string>)
    requires LevelFull(edges, f, seen, taken, done, nodes, picked) && done <= all
    ensures LevelOk(edges, f, seen, taken, all, nodes, picked)
  {
    AdmittedEndsMore(edges, f, done - taken, all * picked);
  }

  // What visiting one level gives.
  ghost predicate Visited(edges: Edges, f: GraphFilter, seen: set<string>, taken: set<string>, rows: set<string>,
                          nodes: set<string>, picked: set<string>, truncated: bool) {
    && LevelOk(edges, f, seen, taken, rows, nodes, picked)
    && Earliest(rows, taken, picked)
    && (if truncated then TooMany(edges, f, seen, taken, rows)
        else LevelFull(edges, f, seen, taken, rows, nodes, picked))
    && |nodes| <= f.maxNodes && |picked| <= f.maxEdges
  }

  // One depth: the edges touching the frontier, in order of their ids, and the ends not yet seen.
  method VisitLevel(edges: Edges, f: GraphFilter, seen: set<string>, taken: set<string>, frontier: set<string>)
    returns (nodes: set<string>, picked: set<string>, next: set<string>, truncated: bool)
    requires |seen| <= f.maxNodes && |taken| <= f.maxEdges
    ensures Visited(edges, f, seen, taken, Touching(edges, f, frontier), nodes, picked, truncated)
    ensures next == nodes - seen
  {
    nodes, picked, next, truncated := seen, taken, {}, false;
    var all := Touching(edges, f, frontier);
    var rows := SortedTexts(all);
    ghost var done := {};
    LevelNone(edges, f, seen, taken);
    for i := 0 to |rows|
      invariant Stretch(rows, i, done) && picked == taken + done
      invariant LevelFull(edges, f, seen, taken, done, nodes, picked) && next == nodes - seen && !truncated
      invariant |nodes| <= f.maxNodes && |picked| <= f.maxEdges
    {
      var id := rows[i];
      StretchEarliest(rows, all, i, done, taken);
      StretchOn(rows, i, done);
      if id in picked {
        LevelSkips(edges, f, seen, taken, done, nodes, picked, id);
        done := done + {id};
        continue;
      }
      if |picked| >= f.maxEdges {
        LevelCut(edges, f, seen, taken, all, done, nodes, picked, id);
        truncated := true;
        return;
      }
      ghost var before, had, queue := nodes, picked, next;
      picked := picked + {id};
      nodes, next, truncated := VisitEnds(edges[id], f, nodes, next);
      StillNew(seen, before, nodes, queue, next);
      LevelStep(edges, f, seen, taken, all, done, before, had, id, nodes);
      done := done + {id};
      if truncated {
        StretchEarliest(rows, all, i + 1, done, taken);
        NodesCut(edges, f, seen, taken, all, before + AdmittedPair(f, edges[id]));
        return;
      }
    }
    StretchEarliest(rows, all, |rows|, done, taken);
    LevelFullIsOk(edges, f, seen, taken, all, done, nodes, picked);
    StretchAll(rows, all, done);
  }

  lemma LevelNone(edges: Edges, f: GraphFilter, seen: set<string>, taken: set<string>)
    ensures LevelFull(edges, f, seen, taken, {}, seen, taken)
  {
  }

  lemma StretchAll(rows: seq<string>, all: set<string>, done: set<string>)
    requires (forall x :: x in rows <==> x in all) && Stretch(rows, |rows|, done)
    ensures done == all
  {
  }

  // Which edges the search holds: all of the levels before some level k, and of level k the first by id.
  ghost predicate FirstByLevel(edges: Edges, f: GraphFilter, center: string, k: nat, taken: set<string>) {
    if k == 0 then taken == {} else
      && Reach(edges, f, center, k - 1).edges <= taken <= Reach(edges, f, center, k).edges
      && Earliest(Reach(edges, f, center, k).edges, Reach(edges, f, center, k - 1).edges, taken)
  }

  ghost predicate InOrder(edges: Edges, f: GraphFilter, center: string, d: nat, taken: set<string>) {
    exists k: nat :: k <= d && FirstByLevel(edges, f, center, k, taken)
  }

  // What the search holds after d levels: part of the exact neighbourhood, each node joined to the center by
  // picked edges; all of it unless it was cut short, and then the neighbourhood is over a limit.
  ghost predicate Reached(edges: Edges, f: GraphFilter, center: string, d: nat, seen: set<string>, taken: set<string>,
                          truncated: bool) {
    var r := Reach(edges, f, center, d);
    && center in seen && seen <= r.nodes && taken <= r.edges
    && |seen| <= f.maxNodes && |taken| <= f.maxEdges
    && seen <= Reach(Only(edges, taken), f, center, d).nodes
    && (if truncated then |r.edges| > f.maxEdges || |r.nodes| > f.maxNodes else seen == r.nodes && taken == r.edges)
  }

  // The frontier is where unseen edges can start.
  ghost predicate FrontierOk(edges: Edges, f: GraphFilter, seen: set<string>, taken: set<string>,
                             frontier: set<string>) {
    frontier <= seen && Touching(edges, f, seen) <= taken + Touching(edges, f, frontier)
  }

  // The next level of the exact neighbourhood, from the frontier alone.
  lemma ReachNext(edges: Edges, f: GraphFilter, center: string, d: nat, frontier: set<string>)
    requires var r := Reach(edges, f, center, d); FrontierOk(edges, f, r.nodes, r.edges, frontier)
    ensures var r, rows := Reach(edges, f, center, d), Touching(edges, f, frontier);
      && Reach(edges, f, center, d + 1).edges == r.edges + rows
      && Reach(edges, f, center, d + 1).nodes == r.nodes + AdmittedEnds(edges, f, rows - r.edges)
      && Reach(edges, f, center, d + 1).nodes == r.nodes + AdmittedEnds(edges, f, rows)
  {
    var r, rows := Reach(edges, f, center, d), Touching(edges, f, frontier);
    ReachDeeper(edges, f, center, d, d + 1);
    assert Touching(edges, f, r.nodes) == r.edges + rows;
    assert AdmittedEnds(edges, f, r.edges) <= r.nodes;
    AdmittedEndsSplit(edges, f, r.edges, rows);
  }

  lemma AdmittedEndsSplit(edges: Edges, f: GraphFilter, a: set<string>, b: set<string>)
    ensures AdmittedEnds(edges, f, a + b) == AdmittedEnds(edges, f, a) + AdmittedEnds(edges, f, b)
    ensures AdmittedEnds(edges, f, a + b) == AdmittedEnds(edges, f, a) + AdmittedEnds(edges, f, b - a)
  {
  }

  lemma JoinedNext(edges: Edges, f: GraphFilter, center: string, d: nat, seen: set<string>, taken: set<string>,
                   frontier: set<string>, nodes: set<string>, picked: set<string>)
    requires seen <= Reach(Only(edges, taken), f, center, d).nodes && frontier <= seen && taken <= picked
    requires nodes <= seen + AdmittedEnds(edges, f, Touching(edges, f, frontier) * picked)
    ensures nodes <= Reach(Only(edges, picked), f, center, d + 1).nodes
  {
    ReachMore(edges, f, center, taken, picked, d);
    var some := Only(edges, picked);
    var inner := Reach(some, f, center, d);
    var rows := Touching(edges, f, frontier) * picked;
    assert rows <= Touching(some, f, inner.nodes);
    assert AdmittedEnds(edges, f, rows) <= AdmittedEnds(some, f, Touching(some, f, inner.nodes));
  }

  lemma FrontierNext(edges: Edges, f: GraphFilter, seen: set<string>, taken: set<string>, frontier: set<string>,
                     nodes: set<string>, picked: set<string>)
    requires FrontierOk(edges, f, seen, taken, frontier) && seen <= nodes
    requires picked == taken + Touching(edges, f, frontier)
    ensures FrontierOk(edges, f, nodes, picked, nodes - seen)
  {
  }

  lemma ReachedNext(edges: Edges, f: GraphFilter, center: string, d: nat, seen: set<string>, taken: set<string>,
                    frontier: set<string>, nodes: set<string>, picked: set<string>, truncated: bool)
    requires Reached(edges, f, center, d, seen, taken, false) && FrontierOk(edges, f, seen, taken, frontier)
    requires Visited(edges, f, seen, taken, Touching(edges, f, frontier), nodes, picked, truncated)
    ensures Reached(edges, f, center, d + 1, nodes, picked, truncated)
    ensures !truncated ==> FrontierOk(edges, f, nodes, picked, nodes - seen)
  {
    var rows := Touching(edges, f, frontier);
    ReachNext(edges, f, center, d, frontier);
    AdmittedEndsMore(edges, f, rows * picked, rows);
    JoinedNext(edges, f, center, d, seen, taken, frontier, nodes, picked);
    if !truncated { FrontierNext(edges, f, seen, taken, frontier, nodes, picked); }
  }

  lemma ReachedSettles(edges: Edges, f: GraphFilter, center: string, d: nat, b: nat, seen: set<string>,
                       taken: set<string>, frontier: set<string>, truncated: bool)
    requires Reached(edges, f, center, d, seen, taken, truncated) && d <= b
    requires !truncated ==> FrontierOk(edges, f, seen, taken, frontier)
    requires truncated || d == b || (frontier == {} && d > 0)
    ensures Reached(edges, f, center, b, seen, taken, truncated)
  {
    ReachDeeper(edges, f, center, d, b);
    ReachDeeper(Only(edges, taken), f, center, d, b);
    if truncated {
      SubsetSize(Reach(edges, f, center, d).edges, Reach(edges, f, center, b).edges);
      SubsetSize(Reach(edges, f, center, d).nodes, Reach(edges, f, center, b).nodes);
    } else if d < b {
      assert Touching(edges, f, {}) == {};
      ReachSettled(edges, f, center, d, b);
    }
  }

  // The loop's invariant.
  ghost predicate Searching(edges: Edges, f: GraphFilter, center: string, d: nat, seen: set<string>, taken: set<string>,
                            frontier: set<string>, truncated: bool) {
    && Reached(edges, f, center, d, seen, taken, truncated)
    && (!truncated ==> FrontierOk(edges, f, seen, taken, frontier))
    && (d == 0 ==> frontier != {})
  }

  lemma SearchStarts(edges: Edges, f: GraphFilter, center: string)
    requires FilterOk(f)
    ensures Searching(edges, f, center, 0, {center}, {}, {center}, false)
  {
  }

  lemma SearchGoesOn(edges: Edges, f: GraphFilter, center: string, d: nat, seen: set<string>, taken: set<string>,
                     frontier: set<string>, nodes: set<string>, picked: set<string>, next: set<string>, truncated: bool)
    requires Searching(edges, f, center, d, seen, taken, frontier, false) && next == nodes - seen
    requires Visited(edges, f, seen, taken, Touching(edges, f, frontier), nodes, picked, truncated)
    ensures Searching(edges, f, center, d + 1, nodes, picked, next, truncated)
  {
    ReachedNext(edges, f, center, d, seen, taken, frontier, nodes, picked, truncated);
  }

  // The edges a level adds to all those of the levels before it.
  lemma OrderGoesOn(edges: Edges, f: GraphFilter, center: string, d: nat, r: Found, frontier: set<string>,
                    picked: set<string>, last: nat)
    requires r == Reach(edges, f, center, d) && last == d + 1 && FrontierOk(edges, f, r.nodes, r.edges, frontier)
    requires Earliest(Touching(edges, f, frontier), r.edges, picked)
    requires r.edges <= picked <= r.edges + Touching(edges, f, frontier)
    ensures FirstByLevel(edges, f, center, last, picked)
  {
    ReachNext(edges, f, center, d, frontier);
  }

  lemma SearchEnds(edges: Edges, f: GraphFilter, center: string, d: nat, seen: set<string>, taken: set<string>,
                   frontier: set<string>, truncated: bool)
    requires Searching(edges, f, center, d, seen, taken, frontier, truncated) && d <= f.maxDepth
    requires frontier == {} || truncated || d == f.maxDepth
    ensures Reached(edges, f, center, f.maxDepth, seen, taken, truncated)
  {
    ReachedSettles(edges, f, center, d, f.maxDepth, seen, taken, frontier, truncated);
  }

  // The variables of the loop, and the last level from which edges were taken.
  datatype Progress = Progress(d: nat, seen: set<string>, taken: set<string>, frontier: set<string>, truncated: bool,
                               last: nat)

  ghost predicate Going(edges: Edges, f: GraphFilter, center: string, p: Progress) {
    && Searching(edges, f, center, p.d, p.seen, p.taken, p.frontier, p.truncated)
    && p.last <= p.d && FirstByLevel(edges, f, center, p.last, p.taken)
  }

  lemma GoingStarts(edges: Edges, f: GraphFilter, center: string) returns (p: Progress)
    requires FilterOk(f)
    ensures p == Progress(0, {center}, {}, {center}, false, 0) && Going(edges, f, center, p)
  {
    p := Progress(0, {center}, {}, {center}, false, 0);
    SearchStarts(edges, f, center);
  }

  lemma GoesOn(edges: Edges, f: GraphFilter, center: string, p: Progress, nodes: set<string>, picked: set<string>,
               next: set<string>, truncated: bool) returns (q: Progress)
    requires Going(edges, f, center, p) && !p.truncated && next == nodes - p.seen
    requires Visited(edges, f, p.seen, p.taken, Touching(edges, f, p.frontier), nodes, picked, truncated)
    ensures q == Progress(p.d + 1, nodes, picked, next, truncated, p.d + 1) && Going(edges, f, center, q)
  {
    q := Progress(p.d + 1, nodes, picked, next, truncated, p.d + 1);
    SearchGoesOn(edges, f, center, p.d, p.seen, p.taken, p.frontier, nodes, picked, next, truncated);
    OrderGoesOn(edges, f, center, p.d, Reach(edges, f, center, p.d), p.frontier, picked, q.last);
  }

  lemma GoingBounded(edges: Edges, f: GraphFilter, center: string, p: Progress)
    requires Going(edges, f, center, p)
    ensures |p.seen| <= f.maxNodes && |p.taken| <= f.maxEdges
  {
  }

  lemma GoingEnds(edges: Edges, f: GraphFilter, center: string, p: Progress)
    requires Going(edges, f, center, p) && p.d <= f.maxDepth
    requires p.frontier == {} || p.truncated || p.d == f.maxDepth
    ensures Reached(edges, f, center, f.maxDepth, p.seen, p.taken, p.truncated)
    ensures InOrder(edges, f, center, f.maxDepth, p.taken)
  {
    SearchEnds(edges, f, center, p.d, p.seen, p.taken, p.frontier, p.truncated);
  }

  // The search, level by level.
  method Search(edges: Edges, f: GraphFilter, center: string)
    returns (visitedNodes: set<string>, visitedEdges: set<string>, truncated: bool)
    requires FilterOk(f)
    ensures Reached(edges, f, center, f.maxDepth, visitedNodes, visitedEdges, truncated)
    ensures InOrder(edges, f, center, f.maxDepth, visitedEdges)
  {
    visitedNodes, visitedEdges, truncated := {center}, {}, false;
    var frontier := {center};
    var currentDepth: nat := 0;
    ghost var p := GoingStarts(edges, f, center);
    while frontier != {} && !truncated && currentDepth < f.maxDepth
      invariant currentDepth <= f.maxDepth
      invariant p.d == currentDepth && p.seen == visitedNodes && p.taken == visitedEdges
      invariant p.frontier == frontier && p.truncated == truncated
      invariant Going(edges, f, center, p)
      decreases f.maxDepth - currentDepth
    {
      GoingBounded(edges, f, center, p);
      var nodes, picked, next;
      nodes, picked, next, truncated := VisitLevel(edges, f, visitedNodes, visitedEdges, frontier);
      p := GoesOn(edges, f, center, p, nodes, picked, next, truncated);
      visitedNodes, visitedEdges, frontier := nodes, picked, next;
      currentDepth := currentDepth + 1;
    }
    GoingEnds(edges, f, center, p);
  }

  // ----- the query -----

  // What the projection guarantees about its graph tables.
  ghost predicate Keyed(tb: Tables) {
    && (forall id :: id in tb.nodes ==> tb.nodes[id].nodeId == id)
    && (forall id :: id in tb.edges ==> tb.edges[id].edgeId == id)
    && (forall id :: id in tb.edges ==> tb.edges[id].fromNodeId in tb.nodes && tb.edges[id].toNodeId in tb.nodes)
  }

  lemma GraphKeyed(evs: seq<StoredEvent>, tb: Tables)
    requires GraphOk(evs, tb)
    ensures Keyed(tb)
  {
    forall id | id in tb.nodes ensures tb.nodes[id].nodeId == id {
      assert FirstMention(evs, id).Some?;
    }
  }

  function Resolved(maxDepth: int, filterOpts: Option<GraphFilter>): GraphFilter {
    match filterOpts
    case None => GraphFilter(None, None, maxDepth, 100, 500)
    case Some(f) => if maxDepth != 1 then f.(maxDepth := maxDepth) else f
  }

  ghost function EdgeIds(es: seq<Edge>): set<string> {
    set k | 0 <= k < |es| :: es[k].edgeId
  }

  // rows are the table's rows under keys.
  ghost predicate RowsAt<R>(table: map<string, R>, keys: seq<string>, rows: seq<R>) {
    |rows| == |keys| && forall k :: 0 <= k < |keys| ==> keys[k] in table && rows[k] == table[keys[k]]
  }

  // SELECT ... WHERE id IN (...) ORDER BY id
  method Fetch<R>(table: map<string, R>, ids: set<string>) returns (rows: seq<R>, ghost keys: seq<string>)
    ensures RowsAt(table, keys, rows) && Increasing(TextLess, keys)
    ensures forall id :: id in keys <==> id in ids && id in table
  {
    var found := SortedTexts(ids * table.Keys);
    keys := found;
    rows := [];
    for k := 0 to |found|
      invariant |rows| == k
      invariant forall j :: 0 <= j < k ==> found[j] in table && rows[j] == table[found[j]]
    {
      assert found[k] in found;
      rows := rows + [table[found[k]]];
    }
  }

  lemma NodeRows(tb: Tables, ids: set<string>, keys: seq<string>, rows: seq<Node>)
    requires Keyed(tb) && RowsAt(tb.nodes, keys, rows) && forall id :: id in keys <==> id in ids && id in tb.nodes
    ensures NodeIds(rows) == ids * tb.nodes.Keys
    ensures forall k :: 0 <= k < |rows| ==> rows[k].nodeId == keys[k]
  {
    forall id | id in ids * tb.nodes.Keys ensures id in NodeIds(rows) {
      assert id in keys;
    }
  }

  lemma EdgeRows(tb: Tables, ids: set<string>, keys: seq<string>, rows: seq<Edge>)
    requires Keyed(tb) && RowsAt(tb.edges, keys, rows) && forall id :: id in keys <==> id in ids && id in tb.edges
    ensures EdgeIds(rows) == ids * tb.edges.Keys
    ensures forall k :: 0 <= k < |rows| ==> rows[k].edgeId == keys[k]
  {
    forall id | id in ids * tb.edges.Keys ensures id in EdgeIds(rows) {
      assert id in keys;
    }
  }

  // The rows of the nodes and edges found, by id. Only the center can lack a row.
  ghost predicate SubgraphOf(tb: Tables, f: GraphFilter, center: NodeRef, r: ContextSubgraph)
    requires FilterOk(f)
  {
    && r.center == center
    && (forall k :: 0 <= k < |r.nodes| ==> r.nodes[k].nodeId in tb.nodes && r.nodes[k] == tb.nodes[r.nodes[k].nodeId])
    && (forall k :: 0 <= k < |r.edges| ==> r.edges[k].edgeId in tb.edges && r.edges[k] == tb.edges[r.edges[k].edgeId])
    && (forall i, j :: 0 <= i < j < |r.nodes| ==> TextLess(r.nodes[i].nodeId, r.nodes[j].nodeId))
    && (forall i, j :: 0 <= i < j < |r.edges| ==> TextLess(r.edges[i].edgeId, r.edges[j].edgeId))
    && (center.Key() in NodeIds(r.nodes) <==> center.Key() in tb.nodes)
    && Reached(tb.edges, f, center.Key(), f.maxDepth, NodeIds(r.nodes) + {center.Key()}, EdgeIds(r.edges), r.truncated)
    && InOrder(tb.edges, f, center.Key(), f.maxDepth, EdgeIds(r.edges))
  }

  lemma {:induction false} ReachHasRows(tb: Tables, f: GraphFilter, center: string, d: nat)
    requires Keyed(tb)
    ensures Reach(tb.edges, f, center, d).nodes <= tb.nodes.Keys + {center}
    ensures Reach(tb.edges, f, center, d).edges <= tb.edges.Keys
  {
    if d > 0 { ReachHasRows(tb, f, center, d - 1); }
  }

  method GetContextSubgraph(log: seq<Row>, proj: Proj, center: NodeRef, maxDepth: int, filterOpts: Option<GraphFilter>)
    returns (r: Result<ContextSubgraph, Code>)
    requires Keyed(proj.tables) && (filterOpts.Some? ==> FilterOk(filterOpts.value))
    ensures Numbered(log) ==> (r == Err(ProjectionOutOfDate) <==> proj.cursor < |log|)
    ensures var f := match filterOpts
        case None => GraphFilter(None, None, maxDepth, 100, 500)
        case Some(given) => if maxDepth == 1 then given else given.(maxDepth := maxDepth);
      if Stale(log, proj.cursor) then r == Err(ProjectionOutOfDate)
      else if f.maxDepth < 0 || f.maxDepth > 10 then r == Err(InvalidArgument)
      else r.Ok? && SubgraphOf(proj.tables, f, center, r.value)
  {
    if Numbered(log) { StaleIsBehind(log, proj.cursor); }
    if Stale(log, proj.cursor) { return Err(ProjectionOutOfDate); }
    var f := Resolved(maxDepth, filterOpts);
    if !FilterOk(f) { return Err(InvalidArgument); }
    var visitedNodes, visitedEdges, truncated := Search(proj.tables.edges, f, center.Key());
    var nodes, nodeKeys := Fetch(proj.tables.nodes, visitedNodes);
    var edges, edgeKeys := Fetch(proj.tables.edges, visitedEdges);
    NodeRows(proj.tables, visitedNodes, nodeKeys, nodes);
    EdgeRows(proj.tables, visitedEdges, edgeKeys, edges);
    FoundRows(proj.tables, f, center.Key(), visitedNodes, visitedEdges);
    return Ok(ContextSubgraph(center, nodes, edges, truncated));
  }

  lemma FoundRows(tb: Tables, f: GraphFilter, center: string, seen: set<string>, taken: set<string>)
    requires Keyed(tb) && f.maxDepth >= 0 && center in seen
    requires seen <= Reach(tb.edges, f, center, f.maxDepth).nodes
      && taken <= Reach(tb.edges, f, center, f.maxDepth).edges
    ensures seen * tb.nodes.Keys + {center} == seen && taken * tb.edges.Keys == taken
  {
    ReachHasRows(tb, f, center, f.maxDepth);
  }

  // ----- what the answer means, in hops -----

  // An edge at less than d hops from the center.
  ghost predicate EdgeWithin(rows: set<Edge>, f: GraphFilter, center: string, d: nat, e: Edge) {
    && d > 0 && e in rows && Lists(f.edgeTypes, e.edgeType)
    && (WalksTo(rows, f, center, d - 1, e.fromNodeId) || WalksTo(rows, f, center, d - 1, e.toNodeId))
  }

  // The same, by id.
  ghost predicate IdWithin(edges: Edges, f: GraphFilter, center: string, d: nat, id: string) {
    id in edges && EdgeWithin(edges.Values, f, center, d, edges[id])
  }

  lemma ReachEdgesAreWithin(edges: Edges, f: GraphFilter, center: string, d: nat, id: string)
    ensures id in Reach(edges, f, center, d).edges <==> IdWithin(edges, f, center, d, id)
  {
    if d > 0 && id in edges {
      var inner := ReachedNodes(edges, f, center, d - 1, edges[id].fromNodeId, edges[id].toNodeId);
      assert Reach(edges, f, center, d).edges == Touching(edges, f, inner);
    }
  }

  lemma ReachedNodes(edges: Edges, f: GraphFilter, center: string, d: nat, a: string, b: string)
    returns (nodes: set<string>)
    ensures nodes == Reach(edges, f, center, d).nodes
    ensures a in nodes <==> WalksTo(edges.Values, f, center, d, a)
    ensures b in nodes <==> WalksTo(edges.Values, f, center, d, b)
  {
    nodes := Reach(edges, f, center, d).nodes;
    ReachIsHops(edges, f, center, d, a);
    ReachIsHops(edges, f, center, d, b);
  }

  // The exact neighbourhood, in hops.
  ghost predicate Neighbourhood(edges: Edges, f: GraphFilter, center: string, d: nat, all: Found) {
    && (forall n :: n in all.nodes <==> WalksTo(edges.Values, f, center, d, n))
    && (forall id :: id in all.edges <==> IdWithin(edges, f, center, d, id))
  }

  lemma ReachIsNeighbourhood(edges: Edges, f: GraphFilter, center: string, d: nat) returns (all: Found)
    ensures all == Reach(edges, f, center, d) && Neighbourhood(edges, f, center, d, all)
  {
    all := Reach(edges, f, center, d);
    forall n ensures n in all.nodes <==> WalksTo(edges.Values, f, center, d, n) {
      ReachIsHops(edges, f, center, d, n);
    }
    forall id ensures id in all.edges <==> IdWithin(edges, f, center, d, id) {
      ReachEdgesAreWithin(edges, f, center, d, id);
    }
  }

  // An answer that is not truncated is exact: the nodes within max_depth hops, the edges touching a node at
  // depth below max_depth. It is truncated if and only if that is more than max_nodes nodes or max_edges edges.
  // In every case its nodes and edges are among those.
  lemma SubgraphIsExact(tb: Tables, f: GraphFilter, center: NodeRef, r: ContextSubgraph) returns (all: Found)
    requires FilterOk(f) && SubgraphOf(tb, f, center, r)
    ensures Neighbourhood(tb.edges, f, center.Key(), f.maxDepth, all)
    ensures r.truncated <==> |all.nodes| > f.maxNodes || |all.edges| > f.maxEdges
    ensures !r.truncated ==> NodeIds(r.nodes) + {center.Key()} == all.nodes && EdgeIds(r.edges) == all.edges
    ensures NodeIds(r.nodes) <= all.nodes && EdgeIds(r.edges) <= all.edges
  {
    all := ReachIsNeighbourhood(tb.edges, f, center.Key(), f.maxDepth);
    AnswerOfReach(tb, f, center, r, all);
  }

  lemma AnswerOfReach(tb: Tables, f: GraphFilter, center: NodeRef, r: ContextSubgraph, all: Found)
    requires FilterOk(f) && SubgraphOf(tb, f, center, r) && all == Reach(tb.edges, f, center.Key(), f.maxDepth)
    ensures r.truncated <==> |all.nodes| > f.maxNodes || |all.edges| > f.maxEdges
    ensures !r.truncated ==> NodeIds(r.nodes) + {center.Key()} == all.nodes && EdgeIds(r.edges) == all.edges
    ensures NodeIds(r.nodes) <= all.nodes && EdgeIds(r.edges) <= all.edges
  {
  }

  // And its own edges lead from the center to each of its nodes within max_depth hops.
  lemma SubgraphIsJoined(tb: Tables, f: GraphFilter, center: NodeRef, r: ContextSubgraph, n: string)
    requires FilterOk(f) && SubgraphOf(tb, f, center, r) && n in NodeIds(r.nodes)
    ensures WalksTo(Only(tb.edges, EdgeIds(r.edges)).Values, f, center.Key(), f.maxDepth, n)
  {
    ReachIsHops(Only(tb.edges, EdgeIds(r.edges)), f, center.Key(), f.maxDepth, n);
  }
}
