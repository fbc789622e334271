// The digests over the projection tables. sha stands for sha256_prefixed over the bytes of a text.
module Digests {
  import opened CanonicalText
  import opened ContextGraph
  import opened Json
  import opened JsonParse
  import opened Order
  import opened Projection
  import opened Subgraph
  import opened Wrappers

  // ----- one row as a dict -----

  function Record(keys: seq<string>, values: seq<Value>): Value
    requires |keys| == |values|
  {
    Dict(seq(|keys|, i requires 0 <= i < |keys| => Field(keys[i], values[i])))
  }

  function Nullable(v: Option<string>): Value {
    match v
    case None => Null
    case Some(s) => Str(s)
  }

  const NODE_KEYS := ["node_id", "node_type", "trace_id", "log_seq", "created_at", "attrs"]
  const EDGE_KEYS := ["edge_id", "edge_type", "from_node_id", "to_node_id", "trace_id", "log_seq", "created_at",
                      "attrs"]
  const SUMMARY_KEYS := [
    "trace_id", "workflow", "title", "primary_entity_type", "primary_entity_id", "outcome", "started_at",
    "finished_at", "event_count", "last_log_seq"]
  const PRECEDENT_KEYS := [
    "source_event_id", "log_seq", "trace_id", "policy_id", "policy_version", "exception_id", "primary_entity_type",
    "primary_entity_system", "primary_entity_id"]

  function NodeValues(id: string, n: Node): seq<Value> {
    [Str(id), Str(n.nodeType), Str(n.traceId), Int(n.logSeq), Str(n.createdAt), Dict([])]
  }

  function EdgeValues(id: string, e: Edge): seq<Value> {
    [Str(id), Str(e.edgeType), Str(e.fromNodeId), Str(e.toNodeId), Str(e.traceId), Int(e.logSeq), Str(e.createdAt),
     Dict([])]
  }

  function SummaryValues(t: string, s: Summary): seq<Value> {
    [Str(t), Str(s.workflow), Str(s.title), Nullable(s.primaryEntityType), Nullable(s.primaryEntityId),
     Nullable(s.outcome), Str(s.startedAt), Nullable(s.finishedAt), Int(s.eventCount), Int(s.lastLogSeq)]
  }

  function PrecedentValues(id: string, p: Precedent): seq<Value> {
    [Str(id), Int(p.logSeq), Str(p.traceId), Str(p.policyId), Str(p.policyVersion), Nullable(p.exceptionId),
     Nullable(p.primaryEntityType), Nullable(p.primaryEntitySystem), Nullable(p.primaryEntityId)]
  }

  // How a table's rows are written.
  datatype Layout<!R> = Layout(keys: seq<string>, values: (string, R) -> seq<Value>)

  ghost predicate Fits<R(!new)>(l: Layout<R>) {
    forall k, r :: |l.values(k, r)| == |l.keys|
  }

  // ----- a table as a list of rows -----

  // The rows by key: what the list is after it has been sorted.
  function Listing<R(!new)>(table: map<string, R>, l: Layout<R>): Value
    requires Fits(l)
  {
    var ks := SortedTexts(table.Keys);
    List(seq(|ks|, i requires 0 <= i < |ks| => Record(l.keys, l.values(ks[i], table[ks[i]]))))
  }

  ghost function RowAt<R(!new)>(table: map<string, R>, l: Layout<R>, k: string): Value
    requires Fits(l) && k in table
  {
    Record(l.keys, l.values(k, table[k]))
  }

  // A query's rows: those of the table, each once, in whatever order the database returns them.
  ghost predicate Lists<R(!new)>(rows: seq<(string, R)>, table: map<string, R>) {
    && (forall i, j :: 0 <= i < j < |rows| ==> rows[i].0 != rows[j].0)
    && (forall i :: 0 <= i < |rows| ==> rows[i].0 in table && table[rows[i].0] == rows[i].1)
    && (forall k :: k in table ==> exists i :: 0 <= i < |rows| && rows[i].0 == k)
  }

  // list.sort(key=...): stable, by insertion.
  function InsertByKey(x: (string, Value), s: seq<(string, Value)>): (r: seq<(string, Value)>)
    ensures multiset(r) == multiset(s) + multiset{x}
  {
    if s == [] then [x]
    else if TextLess(x.0, s[0].0) then [x] + s
    else
      assert s == [s[0]] + s[1..];
      [s[0]] + InsertByKey(x, s[1..])
  }

  function SortByKey(s: seq<(string, Value)>): (r: seq<(string, Value)>)
    ensures multiset(r) == multiset(s)
  {
    if s == [] then [] else
      var n := |s| - 1;
      assert s == s[..n] + [s[n]];
      InsertByKey(s[n], SortByKey(s[..n]))
  }

  ghost function KeysOf(s: seq<(string, Value)>): seq<string> {
    seq(|s|, i requires 0 <= i < |s| => s[i].0)
  }

  ghost predicate DistinctKeys(s: seq<(string, Value)>) {
    forall i, j :: 0 <= i < j < |s| ==> s[i].0 != s[j].0
  }

  lemma InsertHas(x: (string, Value), s: seq<(string, Value)>)
    ensures forall y :: y in InsertByKey(x, s) <==> y in s || y == x
  {
    forall y ensures y in InsertByKey(x, s) <==> y in s || y == x {
      assert y in multiset(InsertByKey(x, s)) <==> y in InsertByKey(x, s);
    }
  }

  lemma SortHas(s: seq<(string, Value)>)
    ensures forall y :: y in SortByKey(s) <==> y in s
    ensures |SortByKey(s)| == |s|
  {
    forall y ensures y in SortByKey(s) <==> y in s {
      assert y in multiset(SortByKey(s)) <==> y in SortByKey(s);
    }
    assert |multiset(SortByKey(s))| == |multiset(s)|;
  }

  ghost predicate KeysIncrease(s: seq<(string, Value)>) {
    forall i, j :: 0 <= i < j < |s| ==> TextLess(s[i].0, s[j].0)
  }

  lemma {:induction false} InsertIncreases(x: (string, Value), s: seq<(string, Value)>)
    requires KeysIncrease(s) && forall i :: 0 <= i < |s| ==> s[i].0 != x.0
    ensures KeysIncrease(InsertByKey(x, s))
  {
    if s != [] {
      if TextLess(x.0, s[0].0) {
        forall i | 0 < i < |s| ensures TextLess(x.0, s[i].0) { TextLessTransitive(x.0, s[0].0, s[i].0); }
      } else {
        TextLessConnected(x.0, s[0].0);
        InsertIncreases(x, s[1..]);
        InsertHas(x, s[1..]);
        var r := InsertByKey(x, s[1..]);
        forall i | 0 <= i < |r| ensures TextLess(s[0].0, r[i].0) {
          assert r[i] in r;
          if r[i] != x {
            var k :| 0 <= k < |s[1..]| && s[1..][k] == r[i];
            assert s[k + 1] == r[i];
          }
        }
      }
    }
  }

  lemma {:induction false} SortIncreases(s: seq<(string, Value)>)
    requires DistinctKeys(s)
    ensures KeysIncrease(SortByKey(s))
  {
    if s != [] {
      var n := |s| - 1;
      SortIncreases(s[..n]);
      SortHas(s[..n]);
      var r := SortByKey(s[..n]);
      forall i | 0 <= i < |r| ensures r[i].0 != s[n].0 { assert r[i] in r; }
      InsertIncreases(s[n], r);
    }
  }

  // for row in rows: data.append({...})
  method CollectRows<R(!new)>(rows: seq<(string, R)>, l: Layout<R>) returns (data: seq<(string, Value)>)
    requires Fits(l)
    ensures Collected(rows, l, data)
  {
    data := [];
    for i := 0 to |rows|
      invariant Collected(rows[..i], l, data)
    {
      data := data + [(rows[i].0, Record(l.keys, l.values(rows[i].0, rows[i].1)))];
    }
    assert rows[..|rows|] == rows;
  }

  ghost predicate Collected<R(!new)>(rows: seq<(string, R)>, l: Layout<R>, data: seq<(string, Value)>)
    requires Fits(l)
  {
    && |data| == |rows|
    && forall j :: 0 <= j < |rows| ==> data[j] == (rows[j].0, Record(l.keys, l.values(rows[j].0, rows[j].1)))
  }

  // The rows are collected in the order the query returns them and then sorted; the result depends on the
  // table alone.
  method Collect<R(!new)>(rows: seq<(string, R)>, l: Layout<R>, ghost table: map<string, R>) returns (v: Value)
    requires Fits(l) && Lists(rows, table)
    ensures v == Listing(table, l)
  {
    var data := CollectRows(rows, l);
    SortedIsListing(rows, data, table, l);
    data := SortByKey(data);
    return List(seq(|data|, i requires 0 <= i < |data| => data[i].1));
  }

  // Each dict collected is that of the table's row under its key.
  ghost predicate Written<R(!new)>(data: seq<(string, Value)>, table: map<string, R>, l: Layout<R>)
    requires Fits(l)
  {
    && (forall i :: 0 <= i < |data| ==> data[i].0 in table && data[i].1 == RowAt(table, l, data[i].0))
    && (forall k :: k in table ==> exists i :: 0 <= i < |data| && data[i].0 == k)
  }

  lemma CollectedIsWritten<R(!new)>(rows: seq<(string, R)>, data: seq<(string, Value)>, table: map<string, R>,
                                    l: Layout<R>)
    requires Fits(l) && Lists(rows, table) && Collected(rows, l, data)
    ensures Written(data, table, l) && DistinctKeys(data)
  {
    forall k | k in table ensures exists i :: 0 <= i < |data| && data[i].0 == k {
      var i :| 0 <= i < |rows| && rows[i].0 == k;
      assert data[i].0 == k;
    }
  }

  lemma SortKeepsWritten<R(!new)>(data: seq<(string, Value)>, table: map<string, R>, l: Layout<R>)
    requires Fits(l) && Written(data, table, l)
    ensures Written(SortByKey(data), table, l)
  {
    SortHas(data);
    var sorted := SortByKey(data);
    forall i | 0 <= i < |sorted|
      ensures sorted[i].0 in table && sorted[i].1 == Record(l.keys, l.values(sorted[i].0, table[sorted[i].0]))
    {
      assert sorted[i] in data;
    }
    forall k | k in table ensures exists i :: 0 <= i < |sorted| && sorted[i].0 == k {
      var i :| 0 <= i < |data| && data[i].0 == k;
      assert data[i] in sorted;
    }
  }

  lemma SortedIsListing<R(!new)>(rows: seq<(string, R)>, data: seq<(string, Value)>, table: map<string, R>,
                                 l: Layout<R>)
    requires Fits(l) && Lists(rows, table) && Collected(rows, l, data)
    ensures var sorted := SortByKey(data);
      List(seq(|sorted|, i requires 0 <= i < |sorted| => sorted[i].1)) == Listing(table, l)
  {
    CollectedIsWritten(rows, data, table, l);
    SortKeepsWritten(data, table, l);
    SortIncreases(data);
    IncreasingIsListing(SortByKey(data), table, l);
  }

  lemma KeysAreTheTables<R(!new)>(sorted: seq<(string, Value)>, table: map<string, R>, l: Layout<R>)
    requires Fits(l) && Written(sorted, table, l)
    ensures forall k :: k in KeysOf(sorted) <==> k in table.Keys
  {
    var ks := KeysOf(sorted);
    forall k | k in table.Keys ensures k in ks {
      var i :| 0 <= i < |sorted| && sorted[i].0 == k;
      assert ks[i] == k;
    }
  }

  // There is only one increasing listing of a table's keys.
  lemma IncreasingIsListing<R(!new)>(sorted: seq<(string, Value)>, table: map<string, R>, l: Layout<R>)
    requires Fits(l) && Written(sorted, table, l) && KeysIncrease(sorted)
    ensures List(seq(|sorted|, i requires 0 <= i < |sorted| => sorted[i].1)) == Listing(table, l)
  {
    var ks := KeysOf(sorted);
    KeysAreTheTables(sorted, table, l);
    SortedTextsUnique(ks, table.Keys);
    var xs := seq(|sorted|, i requires 0 <= i < |sorted| => sorted[i].1);
    var ys := Listing(table, l).items;
    forall i | 0 <= i < |ks| ensures xs[i] == ys[i] {
      assert ys[i] == Record(l.keys, l.values(ks[i], table[ks[i]]));
    }
    assert xs == ys;
  }

  // ----- the four digests -----

  function NodeLayout(): Layout<Node> { Layout(NODE_KEYS, NodeValues) }
  function EdgeLayout(): Layout<Edge> { Layout(EDGE_KEYS, EdgeValues) }
  function SummaryLayout(): Layout<Summary> { Layout(SUMMARY_KEYS, SummaryValues) }
  function PrecedentLayout(): Layout<Precedent> { Layout(PRECEDENT_KEYS, PrecedentValues) }

  // What is hashed, from the tables alone: json.dumps with sorted keys, compact separators and ASCII escapes.

  function GraphInput(tb: Tables): Value {
    Record(["nodes", "edges"], [Listing(tb.nodes, NodeLayout()), Listing(tb.edges, EdgeLayout())])
  }

  function GraphText(tb: Tables): string {
    Dumps(GraphInput(tb), COMPACT_ASCII)
  }

  function SummaryText(tb: Tables): string {
    Dumps(Listing(tb.summaries, SummaryLayout()), COMPACT_ASCII)
  }

  function PrecedentText(tb: Tables): string {
    Dumps(Listing(tb.precedents, PrecedentLayout()), COMPACT_ASCII)
  }

  method ComputeContextGraphDigest(sha: string -> string, nodeRows: seq<(string, Node)>, edgeRows: seq<(string, Edge)>,
                                   ghost tb: Tables) returns (digest: string)
    requires Lists(nodeRows, tb.nodes) && Lists(edgeRows, tb.edges)
    ensures digest == sha(GraphText(tb))
  {
    var nodesData := Collect(nodeRows, NodeLayout(), tb.nodes);
    var edgesData := Collect(edgeRows, EdgeLayout(), tb.edges);
    return sha(Dumps(Record(["nodes", "edges"], [nodesData, edgesData]), COMPACT_ASCII));
  }

  method ComputeTraceSummaryDigest(sha: string -> string, rows: seq<(string, Summary)>, ghost tb: Tables)
    returns (digest: string)
    requires Lists(rows, tb.summaries)
    ensures digest == sha(SummaryText(tb))
  {
    var summaries := Collect(rows, SummaryLayout(), tb.summaries);
    return sha(Dumps(summaries, COMPACT_ASCII));
  }

  method ComputePrecedentIndexDigest(sha: string -> string, rows: seq<(string, Precedent)>, ghost tb: Tables)
    returns (digest: string)
    requires Lists(rows, tb.precedents)
    ensures digest == sha(PrecedentText(tb))
  {
    var entries := Collect(rows, PrecedentLayout(), tb.precedents);
    return sha(Dumps(entries, COMPACT_ASCII));
  }

  method ComputeFullProjectionDigest(sha: string -> string, nodeRows: seq<(string, Node)>,
                                     edgeRows: seq<(string, Edge)>, summaryRows: seq<(string, Summary)>,
                                     precedentRows: seq<(string, Precedent)>, ghost tb: Tables) returns (digest: string)
    requires Lists(nodeRows, tb.nodes) && Lists(edgeRows, tb.edges)
    requires Lists(summaryRows, tb.summaries) && Lists(precedentRows, tb.precedents)
    ensures digest == sha(sha(GraphText(tb)) + ":" + sha(SummaryText(tb)) + ":" + sha(PrecedentText(tb)))
  {
    var graph := ComputeContextGraphDigest(sha, nodeRows, edgeRows, tb);
    var summary := ComputeTraceSummaryDigest(sha, summaryRows, tb);
    var precedent := ComputePrecedentIndexDigest(sha, precedentRows, tb);
    return sha(graph + ":" + summary + ":" + precedent);
  }

  // ----- the input of a digest tells the table -----

  ghost predicate DistinctTexts(keys: seq<string>) {
    forall i, j :: 0 <= i < j < |keys| ==> keys[i] != keys[j]
  }

  lemma SameRecords(keys: seq<string>, a: seq<Value>, b: seq<Value>, i: nat)
    requires DistinctTexts(keys) && |keys| == |a| == |b| && i < |keys| && Same(Record(keys, a), Record(keys, b))
    ensures Same(a[i], b[i])
  {
    GetAt(Record(keys, a).fields, i);
    GetAt(Record(keys, b).fields, i);
  }

  // Rows written alike are alike.
  ghost predicate Tells<R(!new)>(l: Layout<R>, table: map<string, R>, other: map<string, R>)
    requires Fits(l)
  {
    && DistinctTexts(l.keys)
    && forall j, k :: j in table && k in other && Same(RowAt(table, l, j), RowAt(other, l, k)) ==>
         j == k && table[j] == other[k]
  }

  lemma ListingAt<R(!new)>(table: map<string, R>, l: Layout<R>, i: nat)
    requires Fits(l) && i < |table.Keys|
    ensures var ks := SortedTexts(table.Keys);
      ks[i] in table && i < |Listing(table, l).items| && Listing(table, l).items[i] == RowAt(table, l, ks[i])
  {
    assert SortedTexts(table.Keys)[i] in SortedTexts(table.Keys);
  }

  lemma RowsAlike<R(!new)>(a: map<string, R>, b: map<string, R>, l: Layout<R>, j: string, k: string)
    requires Fits(l) && Tells(l, a, b) && j in a && k in b && Same(RowAt(a, l, j), RowAt(b, l, k))
    ensures j == k && a[j] == b[k]
  {
  }

  lemma SameKeyAt<R(!new)>(a: map<string, R>, b: map<string, R>, l: Layout<R>, i: nat)
    requires Fits(l) && Tells(l, a, b) && Same(Listing(a, l), Listing(b, l)) && i < |a.Keys|
    ensures |a.Keys| == |b.Keys|
    ensures var j, k := SortedTexts(a.Keys)[i], SortedTexts(b.Keys)[i]; j == k && j in a && k in b && a[j] == b[k]
  {
    assert |Listing(a, l).items| == |Listing(b, l).items|;
    ListingAt(a, l, i);
    ListingAt(b, l, i);
    assert Same(Listing(a, l).items[i], Listing(b, l).items[i]);
    RowsAlike(a, b, l, SortedTexts(a.Keys)[i], SortedTexts(b.Keys)[i]);
  }

  lemma SameSizes<R(!new)>(a: map<string, R>, b: map<string, R>, l: Layout<R>)
    requires Fits(l) && Same(Listing(a, l), Listing(b, l))
    ensures |a.Keys| == |b.Keys|
  {
    assert |Listing(a, l).items| == |Listing(b, l).items|;
  }

  lemma SameKeys<R(!new)>(a: map<string, R>, b: map<string, R>, l: Layout<R>)
    requires Fits(l) && Tells(l, a, b) && Same(Listing(a, l), Listing(b, l))
    ensures SortedTexts(a.Keys) == SortedTexts(b.Keys)
  {
    var ka, kb := SortedTexts(a.Keys), SortedTexts(b.Keys);
    SameSizes(a, b, l);
    forall i | 0 <= i < |ka| ensures ka[i] == kb[i] { SameKeyAt(a, b, l, i); }
  }

  lemma SameValue<R(!new)>(a: map<string, R>, b: map<string, R>, l: Layout<R>, k: string)
    requires Fits(l) && Tells(l, a, b) && Same(Listing(a, l), Listing(b, l)) && k in a && k in b
    ensures a[k] == b[k]
  {
    var ks := SortedTexts(a.Keys);
    assert k in ks;
    var i :| 0 <= i < |ks| && ks[i] == k;
    SameKeyAt(a, b, l, i);
  }

  // Two tables with the same digest input, up to key order, are the same table.
  lemma SameListings<R(!new)>(a: map<string, R>, b: map<string, R>, l: Layout<R>)
    requires Fits(l) && Tells(l, a, b) && Same(Listing(a, l), Listing(b, l))
    ensures a == b
  {
    SameKeys(a, b, l);
    SameSets(a.Keys, b.Keys);
    forall k | k in a && k in b ensures a[k] == b[k] { SameValue(a, b, l, k); }
  }

  lemma SameSets(a: set<string>, b: set<string>)
    requires SortedTexts(a) == SortedTexts(b)
    ensures a == b
  {
    forall x ensures x in a <==> x in b {
      assert x in a <==> x in SortedTexts(a);
    }
  }

  // Texts that differ in length or in their first character.
  ghost predicate Apart(keys: seq<string>) {
    && (forall i :: 0 <= i < |keys| ==> keys[i] != "")
    && forall i, j :: 0 <= i < j < |keys| ==> |keys[i]| != |keys[j]| || keys[i][0] != keys[j][0]
  }

  lemma KeysApart()
    ensures Apart(NODE_KEYS) && Apart(EDGE_KEYS) && Apart(SUMMARY_KEYS) && Apart(PRECEDENT_KEYS)
  {
  }

  lemma ApartIsDistinct(keys: seq<string>)
    requires Apart(keys)
    ensures DistinctTexts(keys)
  {
  }

  lemma SameNullable(a: Option<string>, b: Option<string>)
    requires Same(Nullable(a), Nullable(b))
    ensures a == b
  {
  }

  lemma SameColumns(keys: seq<string>, a: seq<Value>, b: seq<Value>)
    requires Apart(keys) && |keys| == |a| == |b| && Same(Record(keys, a), Record(keys, b))
    ensures forall i :: 0 <= i < |a| ==> Same(a[i], b[i])
  {
    ApartIsDistinct(keys);
    forall i | 0 <= i < |a| ensures Same(a[i], b[i]) { SameRecords(keys, a, b, i); }
  }

  lemma SameNode(j: string, m: Node, k: string, n: Node)
    requires Same(Record(NODE_KEYS, NodeValues(j, m)), Record(NODE_KEYS, NodeValues(k, n)))
    requires m.nodeId == j && n.nodeId == k
    ensures j == k && m == n
  {
    KeysApart();
    var a, b := NodeValues(j, m), NodeValues(k, n);
    SameColumns(NODE_KEYS, a, b);
    assert Same(a[0], b[0]) && Same(a[1], b[1]) && Same(a[2], b[2]) && Same(a[3], b[3]) && Same(a[4], b[4]);
  }

  lemma SameEdge(j: string, m: Edge, k: string, n: Edge)
    requires Same(Record(EDGE_KEYS, EdgeValues(j, m)), Record(EDGE_KEYS, EdgeValues(k, n)))
    requires m.edgeId == j && n.edgeId == k
    ensures j == k && m == n
  {
    KeysApart();
    var a, b := EdgeValues(j, m), EdgeValues(k, n);
    SameColumns(EDGE_KEYS, a, b);
    assert Same(a[0], b[0]) && Same(a[1], b[1]) && Same(a[2], b[2]) && Same(a[3], b[3]);
    assert Same(a[4], b[4]) && Same(a[5], b[5]) && Same(a[6], b[6]);
  }

  lemma SameSummary(j: string, m: Summary, k: string, n: Summary)
    requires Same(Record(SUMMARY_KEYS, SummaryValues(j, m)), Record(SUMMARY_KEYS, SummaryValues(k, n)))
    ensures j == k && m == n
  {
    KeysApart();
    var a, b := SummaryValues(j, m), SummaryValues(k, n);
    SameColumns(SUMMARY_KEYS, a, b);
    assert Same(a[0], b[0]) && Same(a[1], b[1]) && Same(a[2], b[2]) && Same(a[3], b[3]) && Same(a[4], b[4]);
    assert Same(a[5], b[5]) && Same(a[6], b[6]) && Same(a[7], b[7]) && Same(a[8], b[8]) && Same(a[9], b[9]);
    SameNullable(m.primaryEntityType, n.primaryEntityType);
    SameNullable(m.primaryEntityId, n.primaryEntityId);
    SameNullable(m.outcome, n.outcome);
    SameNullable(m.finishedAt, n.finishedAt);
  }

  lemma SamePrecedent(j: string, m: Precedent, k: string, n: Precedent)
    requires Same(Record(PRECEDENT_KEYS, PrecedentValues(j, m)), Record(PRECEDENT_KEYS, PrecedentValues(k, n)))
    ensures j == k && m == n
  {
    KeysApart();
    var a, b := PrecedentValues(j, m), PrecedentValues(k, n);
    SameColumns(PRECEDENT_KEYS, a, b);
    assert Same(a[0], b[0]) && Same(a[1], b[1]) && Same(a[2], b[2]) && Same(a[3], b[3]) && Same(a[4], b[4]);
    assert Same(a[5], b[5]) && Same(a[6], b[6]) && Same(a[7], b[7]) && Same(a[8], b[8]);
    SameNullable(m.exceptionId, n.exceptionId);
    SameNullable(m.primaryEntityType, n.primaryEntityType);
    SameNullable(m.primaryEntitySystem, n.primaryEntitySystem);
    SameNullable(m.primaryEntityId, n.primaryEntityId);
  }

  lemma NodesTell(a: Tables, b: Tables)
    requires Keyed(a) && Keyed(b) && Same(Listing(a.nodes, NodeLayout()), Listing(b.nodes, NodeLayout()))
    ensures a.nodes == b.nodes
  {
    KeysApart();
    ApartIsDistinct(NODE_KEYS);
    forall j, k | j in a.nodes && k in b.nodes
        && Same(RowAt(a.nodes, NodeLayout(), j), RowAt(b.nodes, NodeLayout(), k))
      ensures j == k && a.nodes[j] == b.nodes[k]
    {
      SameNode(j, a.nodes[j], k, b.nodes[k]);
    }
    SameListings(a.nodes, b.nodes, NodeLayout());
  }

  lemma EdgesTell(a: Tables, b: Tables)
    requires Keyed(a) && Keyed(b) && Same(Listing(a.edges, EdgeLayout()), Listing(b.edges, EdgeLayout()))
    ensures a.edges == b.edges
  {
    KeysApart();
    ApartIsDistinct(EDGE_KEYS);
    forall j, k | j in a.edges && k in b.edges
        && Same(RowAt(a.edges, EdgeLayout(), j), RowAt(b.edges, EdgeLayout(), k))
      ensures j == k && a.edges[j] == b.edges[k]
    {
      SameEdge(j, a.edges[j], k, b.edges[k]);
    }
    SameListings(a.edges, b.edges, EdgeLayout());
  }

  lemma PartsSame(keys: seq<string>, nodes: Value, edges: Value, nodes': Value, edges': Value)
    requires |keys| == 2 && Apart(keys) && Same(Record(keys, [nodes, edges]), Record(keys, [nodes', edges']))
    ensures Same(nodes, nodes') && Same(edges, edges')
  {
    var xs, ys := [nodes, edges], [nodes', edges'];
    SameColumns(keys, xs, ys);
    assert Same(xs[0], ys[0]) && Same(xs[1], ys[1]);
  }

  lemma GraphPairs(tb: Tables) returns (keys: seq<string>, nodes: Value, edges: Value)
    ensures keys == ["nodes", "edges"] && Apart(keys) && |keys| == 2
    ensures nodes == Listing(tb.nodes, NodeLayout()) && edges == Listing(tb.edges, EdgeLayout())
    ensures GraphInput(tb) == Record(keys, [nodes, edges])
  {
    keys, nodes, edges := ["nodes", "edges"], Listing(tb.nodes, NodeLayout()), Listing(tb.edges, EdgeLayout());
  }

  lemma GraphInputTells(a: Tables, b: Tables)
    requires Keyed(a) && Keyed(b) && Same(GraphInput(a), GraphInput(b))
    ensures a.nodes == b.nodes && a.edges == b.edges
  {
    var keys, nodes, edges := GraphPairs(a);
    var keys', nodes', edges' := GraphPairs(b);
    PartsSame(keys, nodes, edges, nodes', edges');
    NodesTell(a, b);
    EdgesTell(a, b);
  }

  lemma SummaryInputTells(a: Tables, b: Tables)
    requires Same(Listing(a.summaries, SummaryLayout()), Listing(b.summaries, SummaryLayout()))
    ensures a.summaries == b.summaries
  {
    KeysApart();
    ApartIsDistinct(SUMMARY_KEYS);
    forall j, k | j in a.summaries && k in b.summaries
        && Same(RowAt(a.summaries, SummaryLayout(), j), RowAt(b.summaries, SummaryLayout(), k))
      ensures j == k && a.summaries[j] == b.summaries[k]
    {
      SameSummary(j, a.summaries[j], k, b.summaries[k]);
    }
    SameListings(a.summaries, b.summaries, SummaryLayout());
  }

  lemma PrecedentInputTells(a: Tables, b: Tables)
    requires Same(Listing(a.precedents, PrecedentLayout()), Listing(b.precedents, PrecedentLayout()))
    ensures a.precedents == b.precedents
  {
    KeysApart();
    ApartIsDistinct(PRECEDENT_KEYS);
    forall j, k | j in a.precedents && k in b.precedents
        && Same(RowAt(a.precedents, PrecedentLayout(), j), RowAt(b.precedents, PrecedentLayout(), k))
      ensures j == k && a.precedents[j] == b.precedents[k]
    {
      SamePrecedent(j, a.precedents[j], k, b.precedents[k]);
    }
    SameListings(a.precedents, b.precedents, PrecedentLayout());
  }

  // ----- the text hashed tells the table -----

  ghost predicate NoFloats<R(!new)>(l: Layout<R>)
    requires Fits(l)
  {
    forall k, r, i :: 0 <= i < |l.keys| ==> FloatFree(l.values(k, r)[i])
  }

  lemma ListingFloatFree<R(!new)>(table: map<string, R>, l: Layout<R>)
    requires Fits(l) && NoFloats(l)
    ensures FloatFree(Listing(table, l))
  {
    var rows := Listing(table, l).items;
    forall i | 0 <= i < |rows| ensures FloatFree(rows[i]) {
      ListingAt(table, l, i);
      RecordFloatFree(l, SortedTexts(table.Keys)[i], table[SortedTexts(table.Keys)[i]]);
    }
  }

  lemma RecordFloatFree<R(!new)>(l: Layout<R>, k: string, r: R)
    requires Fits(l) && NoFloats(l)
    ensures FloatFree(Record(l.keys, l.values(k, r)))
  {
    var fs := Record(l.keys, l.values(k, r)).fields;
    forall i | 0 <= i < |fs| ensures FloatFree(fs[i].value) {
      assert fs[i].value == l.values(k, r)[i];
    }
  }

  lemma LayoutsFloatFree()
    ensures NoFloats(NodeLayout()) && NoFloats(EdgeLayout())
    ensures NoFloats(SummaryLayout()) && NoFloats(PrecedentLayout())
  {
  }

  // Texts printed alike are printed from values alike.
  lemma TextsTell(a: Value, b: Value)
    requires FloatFree(a) && FloatFree(b)
    ensures Dumps(a, COMPACT_ASCII) == Dumps(b, COMPACT_ASCII) <==> Same(a, b)
  {
    LoadsDumps(a, COMPACT_ASCII);
    LoadsDumps(b, COMPACT_ASCII);
    SameIffNorm(a, b);
  }

  lemma GraphFloatFree(tb: Tables)
    ensures FloatFree(GraphInput(tb))
  {
    LayoutsFloatFree();
    ListingFloatFree(tb.nodes, NodeLayout());
    ListingFloatFree(tb.edges, EdgeLayout());
  }

  // Two graphs are hashed from the same text if and only if their node and edge tables are the same.
  lemma GraphTextTells(a: Tables, b: Tables)
    requires Keyed(a) && Keyed(b)
    ensures GraphText(a) == GraphText(b) <==> a.nodes == b.nodes && a.edges == b.edges
  {
    GraphFloatFree(a);
    GraphFloatFree(b);
    TextsTell(GraphInput(a), GraphInput(b));
    if GraphText(a) == GraphText(b) { GraphInputTells(a, b); }
  }

  lemma SummaryTextTells(a: Tables, b: Tables)
    ensures SummaryText(a) == SummaryText(b) <==> a.summaries == b.summaries
  {
    LayoutsFloatFree();
    ListingFloatFree(a.summaries, SummaryLayout());
    ListingFloatFree(b.summaries, SummaryLayout());
    TextsTell(Listing(a.summaries, SummaryLayout()), Listing(b.summaries, SummaryLayout()));
    if SummaryText(a) == SummaryText(b) { SummaryInputTells(a, b); }
  }

  lemma PrecedentTextTells(a: Tables, b: Tables)
    ensures PrecedentText(a) == PrecedentText(b) <==> a.precedents == b.precedents
  {
    LayoutsFloatFree();
    ListingFloatFree(a.precedents, PrecedentLayout());
    ListingFloatFree(b.precedents, PrecedentLayout());
    TextsTell(Listing(a.precedents, PrecedentLayout()), Listing(b.precedents, PrecedentLayout()));
    if PrecedentText(a) == PrecedentText(b) { PrecedentInputTells(a, b); }
  }

  // ----- what stands under which name -----

  lemma Column(keys: seq<string>, values: seq<Value>, i: nat)
    requires Apart(keys) && |keys| == |values| && i < |keys|
    ensures Get(Record(keys, values), keys[i]) == Some(values[i])
  {
    ApartIsDistinct(keys);
    GetAt(Record(keys, values).fields, i);
  }

  ghost predicate NodeDict(v: Value, id: string, n: Node) {
    && v.Dict? && |v.fields| == 6
    && Get(v, "node_id") == Some(Str(id)) && Get(v, "node_type") == Some(Str(n.nodeType))
    && Get(v, "trace_id") == Some(Str(n.traceId)) && Get(v, "log_seq") == Some(Int(n.logSeq))
    && Get(v, "created_at") == Some(Str(n.createdAt)) && Get(v, "attrs") == Some(Dict([]))
  }

  ghost predicate EdgeDict(v: Value, id: string, e: Edge) {
    && v.Dict? && |v.fields| == 8
    && Get(v, "edge_id") == Some(Str(id)) && Get(v, "edge_type") == Some(Str(e.edgeType))
    && Get(v, "from_node_id") == Some(Str(e.fromNodeId)) && Get(v, "to_node_id") == Some(Str(e.toNodeId))
    && Get(v, "trace_id") == Some(Str(e.traceId)) && Get(v, "log_seq") == Some(Int(e.logSeq))
    && Get(v, "created_at") == Some(Str(e.createdAt)) && Get(v, "attrs") == Some(Dict([]))
  }

  ghost predicate SummaryDict(v: Value, t: string, s: Summary) {
    && v.Dict? && |v.fields| == 10
    && Get(v, "trace_id") == Some(Str(t))
    && Get(v, "workflow") == Some(Str(s.workflow)) && Get(v, "title") == Some(Str(s.title))
    && Get(v, "primary_entity_type") == Some(OrNull(s.primaryEntityType))
    && Get(v, "primary_entity_id") == Some(OrNull(s.primaryEntityId))
    && Get(v, "outcome") == Some(OrNull(s.outcome))
    && Get(v, "started_at") == Some(Str(s.startedAt)) && Get(v, "finished_at") == Some(OrNull(s.finishedAt))
    && Get(v, "event_count") == Some(Int(s.eventCount)) && Get(v, "last_log_seq") == Some(Int(s.lastLogSeq))
  }

  ghost predicate PrecedentDict(v: Value, id: string, p: Precedent) {
    && v.Dict? && |v.fields| == 9
    && Get(v, "source_event_id") == Some(Str(id)) && Get(v, "log_seq") == Some(Int(p.logSeq))
    && Get(v, "trace_id") == Some(Str(p.traceId))
    && Get(v, "policy_id") == Some(Str(p.policyId)) && Get(v, "policy_version") == Some(Str(p.policyVersion))
    && Get(v, "exception_id") == Some(OrNull(p.exceptionId))
    && Get(v, "primary_entity_type") == Some(OrNull(p.primaryEntityType))
    && Get(v, "primary_entity_system") == Some(OrNull(p.primaryEntitySystem))
    && Get(v, "primary_entity_id") == Some(OrNull(p.primaryEntityId))
  }

  ghost function OrNull(v: Option<string>): Value {
    if v.None? then Null else Str(v.value)
  }

  // A list of dicts: one for each row of the table, in code-point order of the keys.
  ghost predicate Tabulates<R(!new)>(v: Value, table: map<string, R>, isDict: (Value, string, R) -> bool) {
    v.List? && |v.items| == |table| && exists ks :: InOrder(ks) && DictsUnder(v.items, ks, table, isDict)
  }

  ghost predicate DictsUnder<R(!new)>(vs: seq<Value>, ks: seq<string>, table: map<string, R>,
                                      isDict: (Value, string, R) -> bool) {
    && |ks| == |vs| && (forall k :: k in table ==> k in ks)
    && forall i :: 0 <= i < |ks| ==> ks[i] in table && isDict(vs[i], ks[i], table[ks[i]])
  }

  ghost predicate InOrder(ks: seq<string>) {
    forall i, j :: 0 <= i < j < |ks| ==> Precedes(ks[i], ks[j])
  }

  lemma ListingTabulates<R(!new)>(table: map<string, R>, l: Layout<R>, isDict: (Value, string, R) -> bool)
    requires Fits(l) && forall k :: k in table ==> isDict(RowAt(table, l, k), k, table[k])
    ensures Tabulates(Listing(table, l), table, isDict)
  {
    var ks := SortedTexts(table.Keys);
    forall i, j | 0 <= i < j < |ks| ensures Precedes(ks[i], ks[j]) { TextLessPrecedes(ks[i], ks[j]); }
    forall i | 0 <= i < |ks| ensures ks[i] in table && isDict(Listing(table, l).items[i], ks[i], table[ks[i]]) {
      ListingAt(table, l, i);
    }
    assert InOrder(ks) && DictsUnder(Listing(table, l).items, ks, table, isDict);
  }

  lemma AllColumns(keys: seq<string>, values: seq<Value>)
    requires Apart(keys) && |keys| == |values|
    ensures forall i :: 0 <= i < |keys| ==> Get(Record(keys, values), keys[i]) == Some(values[i])
  {
    forall i | 0 <= i < |keys| { Column(keys, values, i); }
  }

  lemma NodeColumns(id: string, n: Node)
    ensures NodeDict(Record(NODE_KEYS, NodeValues(id, n)), id, n)
  {
    KeysApart();
    AllColumns(NODE_KEYS, NodeValues(id, n));
    var k := NODE_KEYS;
    assert k[0] == "node_id" && k[1] == "node_type" && k[2] == "trace_id" && k[3] == "log_seq"
        && k[4] == "created_at" && k[5] == "attrs";
  }

  lemma EdgeColumns(id: string, e: Edge)
    ensures EdgeDict(Record(EDGE_KEYS, EdgeValues(id, e)), id, e)
  {
    KeysApart();
    AllColumns(EDGE_KEYS, EdgeValues(id, e));
    var k := EDGE_KEYS;
    assert k[0] == "edge_id" && k[1] == "edge_type" && k[2] == "from_node_id" && k[3] == "to_node_id"
        && k[4] == "trace_id" && k[5] == "log_seq" && k[6] == "created_at" && k[7] == "attrs";
  }

  lemma SummaryColumns(t: string, s: Summary)
    ensures SummaryDict(Record(SUMMARY_KEYS, SummaryValues(t, s)), t, s)
  {
    KeysApart();
    AllColumns(SUMMARY_KEYS, SummaryValues(t, s));
    var k := SUMMARY_KEYS;
    assert k[0] == "trace_id" && k[1] == "workflow" && k[2] == "title" && k[3] == "primary_entity_type"
        && k[4] == "primary_entity_id" && k[5] == "outcome" && k[6] == "started_at" && k[7] == "finished_at"
        && k[8] == "event_count" && k[9] == "last_log_seq";
  }

  lemma PrecedentColumns(id: string, p: Precedent)
    ensures PrecedentDict(Record(PRECEDENT_KEYS, PrecedentValues(id, p)), id, p)
  {
    KeysApart();
    AllColumns(PRECEDENT_KEYS, PrecedentValues(id, p));
    var k := PRECEDENT_KEYS;
    assert k[0] == "source_event_id" && k[1] == "log_seq" && k[2] == "trace_id" && k[3] == "policy_id"
        && k[4] == "policy_version" && k[5] == "exception_id" && k[6] == "primary_entity_type"
        && k[7] == "primary_entity_system" && k[8] == "primary_entity_id";
  }

  // A text hashed is that of a value, in ASCII.
  ghost predicate TextOf(text: string, v: Value) {
    Canonicalize(v).Ok? && text == Ascii(Canonicalize(v).value)
  }

  lemma GraphParts(tb: Tables, v: Value)
    requires v == GraphInput(tb)
    ensures v.Dict? && |v.fields| == 2
    ensures Get(v, "nodes") == Some(Listing(tb.nodes, NodeLayout()))
    ensures Get(v, "edges") == Some(Listing(tb.edges, EdgeLayout()))
  {
    var keys, values := ["nodes", "edges"], [Listing(tb.nodes, NodeLayout()), Listing(tb.edges, EdgeLayout())];
    assert keys[0] == "nodes" && keys[1] == "edges";
    AllColumns(keys, values);
  }

  // What the graph digest is taken of.
  lemma GraphDigested(tb: Tables) returns (v: Value)
    ensures TextOf(GraphText(tb), v) && v.Dict? && |v.fields| == 2
    ensures Get(v, "nodes").Some? && Tabulates(Get(v, "nodes").value, tb.nodes, NodeDict)
    ensures Get(v, "edges").Some? && Tabulates(Get(v, "edges").value, tb.edges, EdgeDict)
  {
    v := GraphInput(tb);
    GraphFloatFree(tb);
    AsciiText(v);
    GraphParts(tb, v);
    forall k | k in tb.nodes ensures NodeDict(RowAt(tb.nodes, NodeLayout(), k), k, tb.nodes[k]) {
      NodeColumns(k, tb.nodes[k]);
    }
    forall k | k in tb.edges ensures EdgeDict(RowAt(tb.edges, EdgeLayout(), k), k, tb.edges[k]) {
      EdgeColumns(k, tb.edges[k]);
    }
    ListingTabulates(tb.nodes, NodeLayout(), NodeDict);
    ListingTabulates(tb.edges, EdgeLayout(), EdgeDict);
  }

  lemma SummariesDigested(tb: Tables) returns (v: Value)
    ensures TextOf(SummaryText(tb), v) && Tabulates(v, tb.summaries, SummaryDict)
  {
    v := Listing(tb.summaries, SummaryLayout());
    LayoutsFloatFree();
    ListingFloatFree(tb.summaries, SummaryLayout());
    AsciiText(v);
    forall k | k in tb.summaries ensures SummaryDict(RowAt(tb.summaries, SummaryLayout(), k), k, tb.summaries[k]) {
      SummaryColumns(k, tb.summaries[k]);
    }
    ListingTabulates(tb.summaries, SummaryLayout(), SummaryDict);
  }

  lemma PrecedentsDigested(tb: Tables) returns (v: Value)
    ensures TextOf(PrecedentText(tb), v) && Tabulates(v, tb.precedents, PrecedentDict)
  {
    v := Listing(tb.precedents, PrecedentLayout());
    LayoutsFloatFree();
    ListingFloatFree(tb.precedents, PrecedentLayout());
    AsciiText(v);
    forall k | k in tb.precedents
      ensures PrecedentDict(RowAt(tb.precedents, PrecedentLayout(), k), k, tb.precedents[k])
    {
      PrecedentColumns(k, tb.precedents[k]);
    }
    ListingTabulates(tb.precedents, PrecedentLayout(), PrecedentDict);
  }
}
