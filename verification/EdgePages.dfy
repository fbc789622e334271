// list_node_edges: keyset pagination over the edges at a node, in (log_seq, edge_id) order, while the
// projection grows between pages.
module EdgePages {
  import opened ContextGraph
  import opened Events
  import opened Folding
  import opened GraphShape
  import opened Log
  import opened Order
  import opened Projection
  import opened Queries
  import opened Replay
  import opened Wrappers
  import opened Writers

  datatype Direction = Outgoing | Incoming | Both

  datatype GraphEdgeCursor = GraphEdgeCursor(edgeKey: string, direction: Direction, logSeq: Option<int>)

  datatype GraphEdgePage = GraphEdgePage(edges: seq<Edge>, nextCursor: Option<GraphEdgeCursor>)

  type Edges = map<string, Edge>

  type Key = (int, string)

  // ----- rows in order -----

  predicate At(e: Edge, node: string, direction: Direction) {
    match direction
    case Outgoing => e.fromNodeId == node
    case Incoming => e.toNodeId == node
    case Both => e.fromNodeId == node || e.toNodeId == node
  }

  predicate Beyond(k: Key, after: Option<Key>) {
    after.None? || KeyLess(after.value, k)
  }

  function KeysAt(edges: Edges, node: string, direction: Direction, after: Option<Key>): set<Key> {
    set id | id in edges && At(edges[id], node, direction) && Beyond((edges[id].logSeq, id), after)
      :: (edges[id].logSeq, id)
  }

  predicate InTable(edges: Edges, keys: seq<Key>) {
    forall i :: 0 <= i < |keys| ==> keys[i].1 in edges
  }

  function RowsOf(edges: Edges, keys: seq<Key>): seq<Edge>
    requires InTable(edges, keys)
  {
    seq(|keys|, i requires 0 <= i < |keys| => edges[keys[i].1])
  }

  function Listed(edges: Edges, node: string, direction: Direction, after: Option<Key>): (keys: seq<Key>)
    ensures InTable(edges, keys)
    ensures Increasing(KeyLess, keys) && forall k :: k in keys <==> k in KeysAt(edges, node, direction, after)
  {
    var keys := SortedPairs(KeysAt(edges, node, direction, after));
    assert forall i :: 0 <= i < |keys| ==> keys[i] in keys;
    keys
  }

  // The matching edges beyond a key, in order.
  function Matching(edges: Edges, node: string, direction: Direction, after: Option<Key>): seq<Edge> {
    RowsOf(edges, Listed(edges, node, direction, after))
  }

  // The first limit of the rows, and a cursor at the last of them if there are more.
  ghost function Cut(rows: seq<Edge>, direction: Direction, limit: nat): GraphEdgePage
    requires limit > 0
  {
    if |rows| <= limit then GraphEdgePage(rows, None)
    else
      var last := rows[limit - 1];
      GraphEdgePage(rows[..limit], Some(GraphEdgeCursor(last.edgeId, direction, Some(last.logSeq))))
  }

  ghost function Page(edges: Edges, node: string, direction: Direction, after: Option<Key>, limit: nat): GraphEdgePage
    requires limit > 0
  {
    Cut(Matching(edges, node, direction, after), direction, limit)
  }

  // Where a cursor stands; one without a log_seq is looked up.
  ghost function Position(edges: Edges, cursor: Option<GraphEdgeCursor>): Result<Option<Key>, Code> {
    match cursor
    case None => Ok(None)
    case Some(c) =>
      if c.logSeq.Some? then Ok(Some((c.logSeq.value, c.edgeKey)))
      else if c.edgeKey in edges then Ok(Some((edges[c.edgeKey].logSeq, c.edgeKey)))
      else Err(InvalidArgument)
  }

  // ----- the query -----

  method ListNodeEdges(log: seq<Row>, proj: Proj, node: NodeRef, direction: Direction,
                       cursor: Option<GraphEdgeCursor>, limit: int)
    returns (r: Result<GraphEdgePage, Code>)
    ensures Numbered(log) ==> (r == Err(ProjectionOutOfDate) <==> proj.cursor < |log|)
    ensures var edges := proj.tables.edges;
      if Stale(log, proj.cursor) then r == Err(ProjectionOutOfDate)
      else if limit <= 0 || (cursor.Some? && cursor.value.direction != direction) then r == Err(InvalidArgument)
      else if Position(edges, cursor).Err? then r == Err(InvalidArgument)
      else r == Ok(Page(edges, node.Key(), direction, Position(edges, cursor).value, limit))
  {
    if Numbered(log) { StaleIsBehind(log, proj.cursor); }
    var table := proj.tables.edges;
    if Stale(log, proj.cursor) { return Err(ProjectionOutOfDate); }
    if limit <= 0 { return Err(InvalidArgument); }
    if cursor.Some? && cursor.value.direction != direction { return Err(InvalidArgument); }
    var after: Option<Key> := None;
    if cursor.Some? {
      if cursor.value.logSeq.Some? {
        after := Some((cursor.value.logSeq.value, cursor.value.edgeKey));
      } else {
        if cursor.value.edgeKey !in table { return Err(InvalidArgument); }
        after := Some((table[cursor.value.edgeKey].logSeq, cursor.value.edgeKey));
      }
    }
    var page := MakePage(Matching(table, node.Key(), direction, after), direction, limit);
    return Ok(page);
  }

  // ... LIMIT limit + 1: one row more than the page holds tells whether there is a next page.
  method MakePage(found: seq<Edge>, direction: Direction, limit: nat) returns (page: GraphEdgePage)
    requires limit > 0
    ensures page == Cut(found, direction, limit)
  {
    var rows := if limit + 1 < |found| then found[..limit + 1] else found;
    var edges := [];
    for i := 0 to if limit < |rows| then limit else |rows|
      invariant edges == rows[..i]
    {
      edges := edges + [rows[i]];
    }
    var nextCursor := None;
    if |rows| > limit {
      var last := edges[|edges| - 1];
      nextCursor := Some(GraphEdgeCursor(last.edgeId, direction, Some(last.logSeq)));
    }
    return GraphEdgePage(edges, nextCursor);
  }

  // ----- following the cursor -----

  ghost predicate KeyedEdges(edges: Edges) {
    forall id :: id in edges ==> edges[id].edgeId == id
  }

  lemma ListedUnique(edges: Edges, node: string, direction: Direction, after: Option<Key>, keys: seq<Key>)
    requires Increasing(KeyLess, keys) && forall k :: k in keys <==> k in KeysAt(edges, node, direction, after)
    ensures keys == Listed(edges, node, direction, after)
  {
    KeyLessTotal();
    IncreasingUnique(KeyLess, keys, Listed(edges, node, direction, after));
  }

  lemma Suffix(keys: seq<Key>, m: nat)
    requires Increasing(KeyLess, keys) && 0 < m <= |keys|
    ensures Increasing(KeyLess, keys[m..])
    ensures forall k :: k in keys[m..] <==> k in keys && KeyLess(keys[m - 1], k)
  {
    KeyLessTotal();
    forall k | k in keys && KeyLess(keys[m - 1], k) ensures k in keys[m..] {
      var i :| 0 <= i < |keys| && keys[i] == k;
      if i >= m { assert keys[m..][i - m] == k; }
    }
  }

  // Beyond the m-th key the listing is the rest of the whole listing.
  lemma ListedBeyond(edges: Edges, node: string, direction: Direction, m: nat)
    requires var keys := Listed(edges, node, direction, None); 0 < m <= |keys|
    ensures var keys := Listed(edges, node, direction, None);
      Listed(edges, node, direction, Some(keys[m - 1])) == keys[m..]
  {
    var keys := Listed(edges, node, direction, None);
    Suffix(keys, m);
    ListedUnique(edges, node, direction, Some(keys[m - 1]), keys[m..]);
  }

  lemma Above(a: seq<Key>, b: seq<Key>)
    requires Increasing(KeyLess, a) && Increasing(KeyLess, b)
    requires forall x, y :: x in a && y in b ==> KeyLess(x, y)
    ensures Increasing(KeyLess, a + b)
  {
  }

  // The keys a grown table has more are above those it had.
  lemma KeysGrow(before: Edges, later: Edges, n: int, node: string, direction: Direction)
    requires EdgesGrown(before, later, n)
    ensures var a, b := KeysAt(before, node, direction, None), KeysAt(later, node, direction, None);
      && a <= b
      && (forall x :: x in a ==> x.0 <= n)
      && (forall y :: y in b && y !in a ==> y.0 > n)
  {
  }

  lemma AboveAll(a: seq<Key>, b: seq<Key>, n: int)
    requires Increasing(KeyLess, a) && Increasing(KeyLess, b)
    requires (forall x :: x in a ==> x.0 <= n) && (forall y :: y in b ==> y.0 > n)
    ensures Increasing(KeyLess, a + b)
  {
    forall x, y | x in a && y in b ensures KeyLess(x, y) {
      assert x.0 < y.0;
    }
    Above(a, b);
  }

  // A grown table lists what it listed before, in the same places.
  lemma ListedGrows(before: Edges, later: Edges, n: int, node: string, direction: Direction)
    requires EdgesGrown(before, later, n)
    ensures Listed(before, node, direction, None) <= Listed(later, node, direction, None)
  {
    KeysGrow(before, later, n, node, direction);
    var a := Listed(before, node, direction, None);
    var b := SortedPairs(KeysAt(later, node, direction, None) - KeysAt(before, node, direction, None));
    AboveAll(a, b, n);
    ListedUnique(later, node, direction, None, a + b);
  }

  lemma MatchingGrows(before: Edges, later: Edges, n: int, node: string, direction: Direction)
    requires EdgesGrown(before, later, n)
    ensures Matching(before, node, direction, None) <= Matching(later, node, direction, None)
  {
    ListedGrows(before, later, n, node, direction);
    var a, b := Listed(before, node, direction, None), Listed(later, node, direction, None);
    forall i | 0 <= i < |a| ensures before[a[i].1] == later[b[i].1] {
      assert a[i] == b[i];
    }
  }

  lemma RowsOfRest(edges: Edges, keys: seq<Key>, m: nat)
    requires InTable(edges, keys) && m <= |keys|
    ensures InTable(edges, keys[m..]) && RowsOf(edges, keys[m..]) == RowsOf(edges, keys)[m..]
  {
  }

  lemma KeyOfRow(edges: Edges, node: string, direction: Direction, keys: seq<Key>, i: nat)
    requires KeyedEdges(edges) && i < |keys| && keys[i] in KeysAt(edges, node, direction, None)
    ensures keys[i].1 in edges && keys[i] == (edges[keys[i].1].logSeq, edges[keys[i].1].edgeId)
  {
  }

  // Beyond the m-th row come the rest of the rows.
  lemma MatchingBeyond(edges: Edges, node: string, direction: Direction, m: nat)
    requires KeyedEdges(edges) && var all := Matching(edges, node, direction, None); 0 < m <= |all|
    ensures var all := Matching(edges, node, direction, None);
      Matching(edges, node, direction, Some((all[m - 1].logSeq, all[m - 1].edgeId))) == all[m..]
  {
    var keys := Listed(edges, node, direction, None);
    ListedBeyond(edges, node, direction, m);
    assert keys[m - 1] in keys;
    KeyOfRow(edges, node, direction, keys, m - 1);
    RowsOfRest(edges, keys, m);
  }

  // One call: the edge table as it was then, and the page returned.
  datatype Visit = Visit(edges: Edges, page: GraphEdgePage)

  ghost predicate Grew(before: Edges, later: Edges) {
    exists n :: EdgesGrown(before, later, n)
  }

  ghost predicate FirstCall(v: Visit, node: string, direction: Direction, limit: nat)
    requires limit > 0
  {
    KeyedEdges(v.edges) && v.page == Page(v.edges, node, direction, None, limit)
  }

  // The second call passes the cursor the first returned, after more events may have been projected.
  ghost predicate NextCall(u: Visit, v: Visit, node: string, direction: Direction, limit: nat)
    requires limit > 0
  {
    && KeyedEdges(v.edges) && Grew(u.edges, v.edges)
    && u.page.nextCursor.Some? && u.page.nextCursor.value.logSeq.Some?
    && var c := u.page.nextCursor.value;
       v.page == Page(v.edges, node, direction, Some((c.logSeq.value, c.edgeKey)), limit)
  }

  // A reader's calls, the latest outermost.
  datatype Reading = First(last: Visit) | More(before: Reading, last: Visit)

  ghost predicate Follows(r: Reading, node: string, direction: Direction, limit: nat)
    requires limit > 0
  {
    match r
    case First(v) => FirstCall(v, node, direction, limit)
    case More(b, v) => Follows(b, node, direction, limit) && NextCall(b.last, v, node, direction, limit)
  }

  ghost function Collected(r: Reading): seq<Edge> {
    match r
    case First(v) => v.page.edges
    case More(b, v) => Collected(b) + v.page.edges
  }

  ghost function Calls(r: Reading): nat {
    match r
    case First(_) => 1
    case More(b, _) => Calls(b) + 1
  }

  // Where the pages read so far, c in all, stand in the rows of the last call.
  ghost predicate Standing(c: seq<Edge>, all: seq<Edge>, direction: Direction, next: Option<GraphEdgeCursor>) {
    && c <= all
    && (next.None? ==> c == all)
    && (next.Some? ==> (
          && c != [] && |c| < |all|
          && next.value == GraphEdgeCursor(c[|c| - 1].edgeId, direction, Some(c[|c| - 1].logSeq))))
  }

  lemma StandingMoves(c: seq<Edge>, all: seq<Edge>, direction: Direction, limit: nat, page: GraphEdgePage)
    requires limit > 0 && c <= all && page == Cut(all[|c|..], direction, limit)
    ensures Standing(c + page.edges, all, direction, page.nextCursor)
    ensures page.nextCursor.Some? ==> |page.edges| == limit
    ensures page.nextCursor.None? ==> |page.edges| <= limit && |page.edges| == |all| - |c|
  {
    assert all == c + all[|c|..];
  }

  lemma GrewMatching(before: Edges, later: Edges, node: string, direction: Direction)
    returns (a: seq<Edge>, b: seq<Edge>)
    requires Grew(before, later)
    ensures a == Matching(before, node, direction, None) && b == Matching(later, node, direction, None) && a <= b
  {
    a, b := Matching(before, node, direction, None), Matching(later, node, direction, None);
    var n :| EdgesGrown(before, later, n);
    MatchingGrows(before, later, n, node, direction);
  }

  lemma PageBeyond(v: Visit, node: string, direction: Direction, limit: nat, all: seq<Edge>, m: nat, after: Key)
    requires limit > 0 && KeyedEdges(v.edges) && all == Matching(v.edges, node, direction, None) && 0 < m <= |all|
    requires after == (all[m - 1].logSeq, all[m - 1].edgeId)
    ensures Page(v.edges, node, direction, Some(after), limit) == Cut(all[m..], direction, limit)
  {
    MatchingBeyond(v.edges, node, direction, m);
  }

  lemma CursorStays(c: seq<Edge>, before: seq<Edge>, all: seq<Edge>, direction: Direction, next: GraphEdgeCursor)
    requires Standing(c, before, direction, Some(next)) && before <= all
    ensures c <= all && 0 < |c| < |all| && next.logSeq.Some?
    ensures (next.logSeq.value, next.edgeKey) == (all[|c| - 1].logSeq, all[|c| - 1].edgeId)
  {
  }

  // Reading on from a cursor is cutting the rest of the rows as they are now.
  lemma NextPage(c: seq<Edge>, u: Visit, v: Visit, node: string, direction: Direction, limit: nat,
                 before: seq<Edge>)
    returns (all: seq<Edge>)
    requires limit > 0 && NextCall(u, v, node, direction, limit)
    requires before == Matching(u.edges, node, direction, None) && Standing(c, before, direction, u.page.nextCursor)
    ensures all == Matching(v.edges, node, direction, None)
    ensures c <= all && |c| < |all| && v.page == Cut(all[|c|..], direction, limit)
  {
    var a;
    a, all := GrewMatching(u.edges, v.edges, node, direction);
    var next := u.page.nextCursor.value;
    CursorStays(c, before, all, direction, next);
    PageBeyond(v, node, direction, limit, all, |c|, (next.logSeq.value, next.edgeKey));
  }

  // The rows of k full pages.
  function Full(k: nat, limit: nat): nat {
    if k == 0 then 0 else Full(k - 1, limit) + limit
  }

  // After some calls: rows collected, whether there is a cursor to more, and rows in all.
  ghost predicate Counted(calls: nat, collected: nat, more: bool, n: nat, limit: nat) {
    && calls > 0
    && (if more then collected == Full(calls, limit) else collected == n <= Full(calls, limit))
    && (calls > 1 ==> Full(calls - 1, limit) < n)
  }

  // One page, cut from the rows not collected yet.
  lemma OnePage(c: seq<Edge>, all: seq<Edge>, direction: Direction, limit: nat, page: GraphEdgePage, calls: nat)
    requires limit > 0 && c <= all && page == Cut(all[|c|..], direction, limit)
    requires |c| == Full(calls, limit) && (calls > 0 ==> |c| < |all|)
    ensures Standing(c + page.edges, all, direction, page.nextCursor)
    ensures Counted(calls + 1, |c + page.edges|, page.nextCursor.Some?, |all|, limit)
  {
    StandingMoves(c, all, direction, limit, page);
  }

  lemma FirstPage(v: Visit, node: string, direction: Direction, limit: nat) returns (all: seq<Edge>)
    requires limit > 0 && FirstCall(v, node, direction, limit)
    ensures all == Matching(v.edges, node, direction, None)
    ensures Standing(v.page.edges, all, direction, v.page.nextCursor)
    ensures Counted(1, |v.page.edges|, v.page.nextCursor.Some?, |all|, limit)
  {
    all := Matching(v.edges, node, direction, None);
    assert all[0..] == all && [] + v.page.edges == v.page.edges;
    OnePage([], all, direction, limit, v.page, 0);
  }

  // Following next_cursor while the graph grows between the pages collects, once it is None, exactly the
  // matching edges present at the last call, each once, in (log_seq, edge_id) order; until then, the first of
  // them, limit to a page.
  lemma {:induction false} FollowingCollectsAll(r: Reading, node: string, direction: Direction, limit: nat)
    returns (all: seq<Edge>, c: seq<Edge>, next: Option<GraphEdgeCursor>)
    requires limit > 0 && Follows(r, node, direction, limit)
    ensures all == Matching(r.last.edges, node, direction, None) && c == Collected(r) && next == r.last.page.nextCursor
    ensures Standing(c, all, direction, next) && Counted(Calls(r), |c|, next.Some?, |all|, limit)
  {
    next := r.last.page.nextCursor;
    match r
    case First(v) =>
      all := FirstPage(v, node, direction, limit);
      c := v.page.edges;
    case More(b, v) =>
      var before, c0, next0 := FollowingCollectsAll(b, node, direction, limit);
      all := NextPage(c0, b.last, v, node, direction, limit, before);
      OnePage(c0, all, direction, limit, v.page, Calls(b));
      c := c0 + v.page.edges;
  }

  // n matching edges at the last call took exactly max(1, ceil(n / limit)) pages.
  lemma PageCount(r: Reading, node: string, direction: Direction, limit: nat) returns (n: nat)
    requires limit > 0 && Follows(r, node, direction, limit) && r.last.page.nextCursor.None?
    ensures n == |Matching(r.last.edges, node, direction, None)|
    ensures Calls(r) == if n == 0 then 1 else (n + limit - 1) / limit
  {
    var all, c, next := FollowingCollectsAll(r, node, direction, limit);
    n := |all|;
    CeilingIs(n, limit, Calls(r));
  }

  lemma {:induction false} FullIsProduct(k: nat, limit: nat)
    ensures Full(k, limit) == k * limit
  {
    if k > 0 {
      FullIsProduct(k - 1, limit);
      assert k * limit == (k - 1) * limit + limit;
    }
  }

  // k is the quotient: the remainder fits.
  lemma QuotientIs(x: nat, limit: nat, k: nat)
    requires limit > 0 && k * limit <= x < k * limit + limit
    ensures k == x / limit
  {
    QuotientUnique(limit, k, x - k * limit, x / limit, x % limit);
  }

  lemma CeilingIs(n: nat, limit: nat, k: nat)
    requires limit > 0 && k > 0 && n <= Full(k, limit) && (k > 1 ==> Full(k - 1, limit) < n)
    ensures k == if n == 0 then 1 else (n + limit - 1) / limit
  {
    if n > 0 {
      FullIsProduct(k, limit);
      assert Full(k, limit) == Full(k - 1, limit) + limit;
      QuotientIs(n + limit - 1, limit, k);
    }
  }

  // A projection that has caught up further, on a log that may have grown meanwhile, has grown in this sense.
  lemma ProgressGrows(c: Config, before: System, later: System)
    requires Synced(c, before) && Synced(c, later)
    requires before.log <= later.log && before.proj.cursor <= later.proj.cursor
    ensures Grew(before.proj.tables.edges, later.proj.tables.edges)
    ensures KeyedEdges(before.proj.tables.edges)
  {
    var n := before.proj.cursor;
    SingleStable(c, before.log, later.log, n);
    EdgesGrow(c, later.log, n, later.proj.cursor, before.proj, later.proj);
    EdgesGrow(c, before.log, n, n, before.proj, before.proj);
  }
}
