// What the three queries share: the node reference and the staleness check.
module Queries {
  import opened ContextGraph
  import opened Events
  import opened Log

  datatype NodeRef = NodeRef(nodeType: string, nodeId: string) {
    function Key(): string {
      MakeNodeId(nodeType, nodeId)
    }
  }

  // SELECT MAX(log_seq), or 0
  function LastLogSeq<P, T>(log: seq<Stored<P, T>>): int {
    if |log| == 0 then 0
    else if |log| == 1 then log[0].logSeq
    else
      var rest := LastLogSeq(log[..|log| - 1]);
      if log[|log| - 1].logSeq > rest then log[|log| - 1].logSeq else rest
  }

  lemma {:induction false} LastIsLength<P, T>(log: seq<Stored<P, T>>)
    requires Numbered(log)
    ensures LastLogSeq(log) == |log|
  {
    if |log| > 1 { LastIsLength(log[..|log| - 1]); }
  }

  // _check_staleness
  predicate Stale<P, T>(log: seq<Stored<P, T>>, cursor: int) {
    cursor < LastLogSeq(log)
  }

  // A projection is stale exactly when there are events beyond its cursor.
  lemma StaleIsBehind<P, T>(log: seq<Stored<P, T>>, cursor: int)
    requires Numbered(log)
    ensures Stale(log, cursor) <==> cursor < |log|
  {
    LastIsLength(log);
  }
}
