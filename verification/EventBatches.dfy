// iter_event_batches of the in-memory store: a generator that asks the store anew before each yield, while
// other callers go on appending.
module EventBatches {
  import opened Events
  import opened Log
  import opened MemoryStore
  import opened Wrappers

  function Capped(f: Filter, c: int): Filter {
    f.(until := if f.until.Some? && f.until.value < c then f.until else Some(c))
  }

  // The matching events up to the cursor.
  function Upto(log: seq<StoredEvent>, f: Filter, cursor: Option<int>): seq<StoredEvent> {
    if cursor.Some? then Select(log, Capped(f, cursor.value)) else []
  }

  function Beyond(log: seq<StoredEvent>, f: Filter, cursor: Option<int>): seq<StoredEvent> {
    Select(log, f.(since := cursor))
  }

  // The cursor has moved forward from the filter's own lower bound.
  predicate Forward(f: Filter, cursor: Option<int>) {
    f.since.Some? ==> cursor.Some? && f.since.value <= cursor.value
  }

  lemma {:induction false} SelectNone(log: seq<StoredEvent>, f: Filter)
    requires forall i :: 0 <= i < |log| ==> !Matches(f, log[i])
    ensures Select(log, f) == []
  {
    if log != [] { SelectNone(log[..|log| - 1], f); }
  }

  // The cursor splits the selection in two.
  lemma {:induction false} CursorSplits(log: seq<StoredEvent>, f: Filter, cursor: Option<int>)
    requires Numbered(log) && Forward(f, cursor)
    ensures Select(log, f) == Upto(log, f, cursor) + Beyond(log, f, cursor)
  {
    if cursor.None? {
      assert f.(since := cursor) == f;
    } else if log != [] {
      var n := |log| - 1;
      CursorSplits(log[..n], f, cursor);
      if log[n].logSeq <= cursor.value {
        SelectNone(log, f.(since := cursor));
        SelectNone(log[..n], f.(since := cursor));
      }
    }
  }

  function NearCount(es: seq<StoredEvent>, c: int): nat {
    if es != [] && es[0].logSeq <= c then 1 + NearCount(es[1..], c) else 0
  }

  lemma {:induction false} NearCountSplit(a: seq<StoredEvent>, b: seq<StoredEvent>, c: int)
    requires forall i :: 0 <= i < |a| ==> a[i].logSeq <= c
    requires forall i :: 0 <= i < |b| ==> b[i].logSeq > c
    ensures NearCount(a + b, c) == |a|
  {
    if a == [] {
      assert a + b == b;
    } else {
      assert (a + b)[1..] == a[1..] + b;
      NearCountSplit(a[1..], b, c);
    }
  }

  lemma SplitUnique(a: seq<StoredEvent>, b: seq<StoredEvent>, a': seq<StoredEvent>, b': seq<StoredEvent>, c: int)
    requires a + b == a' + b'
    requires forall i :: 0 <= i < |a| ==> a[i].logSeq <= c
    requires forall i :: 0 <= i < |a'| ==> a'[i].logSeq <= c
    requires forall i :: 0 <= i < |b| ==> b[i].logSeq > c
    requires forall i :: 0 <= i < |b'| ==> b'[i].logSeq > c
    ensures a == a' && b == b'
  {
    var whole := a + b;
    NearCountSplit(a, b, c);
    NearCountSplit(a', b', c);
    assert a == whole[..|a|] && a' == whole[..|a'|] && b == whole[|a|..] && b' == whole[|a'|..];
  }

  lemma SplitAt(near: seq<StoredEvent>, beyond: seq<StoredEvent>, n: nat, near': seq<StoredEvent>,
                beyond': seq<StoredEvent>, c: int)
    requires n <= |beyond| && near + beyond == near' + beyond'
    requires forall i :: 0 <= i < |near| ==> near[i].logSeq <= c
    requires forall i :: 0 <= i < n ==> beyond[i].logSeq <= c
    requires forall i :: n <= i < |beyond| ==> beyond[i].logSeq > c
    requires forall i :: 0 <= i < |near'| ==> near'[i].logSeq <= c
    requires forall i :: 0 <= i < |beyond'| ==> beyond'[i].logSeq > c
    ensures near' == near + beyond[..n]
  {
    assert near + beyond[..n] + beyond[n..] == near + beyond;
    SplitUnique(near + beyond[..n], beyond[n..], near', beyond', c);
  }

  // Taking a batch from beyond the cursor moves exactly that batch to the near side.
  lemma BatchMoves(log: seq<StoredEvent>, f: Filter, cursor: Option<int>, n: nat)
    requires Numbered(log) && Forward(f, cursor)
    requires 0 < n <= |Beyond(log, f, cursor)|
    ensures var next := Some(Beyond(log, f, cursor)[n - 1].logSeq);
      && Upto(log, f, next) == Upto(log, f, cursor) + Beyond(log, f, cursor)[..n]
      && Forward(f, next) && 1 <= next.value <= |log|
      && (cursor.Some? ==> next.value > cursor.value) && (f.until.Some? ==> next.value <= f.until.value)
  {
    var beyond := Beyond(log, f, cursor);
    var c := beyond[n - 1].logSeq;
    SelectOrdered(log, f.(since := cursor));
    SelectElements(log, f.(since := cursor));
    CursorSplits(log, f, cursor);
    CursorSplits(log, f, Some(c));
    SelectElements(log, Capped(f, c));
    SelectElements(log, f.(since := Some(c)));
    if cursor.Some? { SelectElements(log, Capped(f, cursor.value)); }
    var near := Upto(log, f, cursor);
    SplitAt(near, beyond, n, Upto(log, f, Some(c)), Beyond(log, f, Some(c)), c);
  }

  // An append leaves the near side of the cursor alone.
  lemma UptoStays(log: seq<StoredEvent>, e: StoredEvent, f: Filter, cursor: Option<int>)
    requires cursor.Some? ==> cursor.value <= |log| || cursor == f.since
    requires e.logSeq == |log| + 1
    ensures Upto(log + [e], f, cursor) == Upto(log, f, cursor)
  {
    if cursor.Some? {
      SelectSnoc(log, e, Capped(f, cursor.value));
    }
  }

  // Where a generator stands: until it stops, what it has yielded is what the log holds up to its cursor.
  ghost predicate Standing(log: seq<StoredEvent>, f: Filter, cursor: Option<int>, started: bool, done: bool,
                           yielded: seq<StoredEvent>) {
    && Forward(f, cursor)
    && (cursor.Some? ==> if started then 1 <= cursor.value <= |log| else cursor == f.since)
    && (!done ==> yielded == Upto(log, f, cursor))
  }

  lemma StandingStays(log: seq<StoredEvent>, e: StoredEvent, f: Filter, cursor: Option<int>, started: bool,
                      done: bool, yielded: seq<StoredEvent>)
    requires Standing(log, f, cursor, started, done, yielded) && e.logSeq == |log| + 1
    ensures Standing(log + [e], f, cursor, started, done, yielded)
  {
    UptoStays(log, e, f, cursor);
  }

  lemma StandingMoves(log: seq<StoredEvent>, f: Filter, cursor: Option<int>, started: bool, n: nat,
                      yielded: seq<StoredEvent>)
    requires Numbered(log) && Standing(log, f, cursor, started, false, yielded)
    requires 0 < n <= |Beyond(log, f, cursor)|
    ensures var batch := Beyond(log, f, cursor)[..n];
      var next := Some(batch[n - 1].logSeq);
      && Standing(log, f, next, true, false, yielded + batch)
      && (cursor.Some? ==> next.value > cursor.value) && (f.until.Some? ==> next.value <= f.until.value)
  {
    BatchMoves(log, f, cursor, n);
  }

  lemma StandingEnds(log: seq<StoredEvent>, f: Filter, cursor: Option<int>, started: bool,
                     yielded: seq<StoredEvent>)
    requires Numbered(log) && Standing(log, f, cursor, started, false, yielded)
    requires Beyond(log, f, cursor) == [] ||
      (cursor.Some? && f.until.Some? && cursor.value >= f.until.value)
    ensures yielded == Select(log, f)
  {
    CursorSplits(log, f, cursor);
    if cursor.Some? && f.until.Some? && cursor.value >= f.until.value {
      SelectNone(log, f.(since := cursor));
    }
  }

  class EventBatches {
    const store: InMemoryEventStore
    const filter: Filter
    const batchSize: int
    var cursor: Option<int>
    var started: bool
    var done: bool
    ghost var yielded: seq<StoredEvent>

    ghost predicate Valid()
      reads this, store
    {
      Standing(store.events, filter, cursor, started, done, yielded)
    }

    constructor (store: InMemoryEventStore, filter: Filter, batchSize: int)
      requires store.Valid()
      ensures Valid() && this.store == store && this.filter == filter && this.batchSize == batchSize
      ensures !done && yielded == [] && cursor == filter.since
    {
      this.store, this.filter, this.batchSize := store, filter, batchSize;
      cursor, started, done := filter.since, false, false;
      yielded := [];
      new;
      if filter.since.Some? {
        SelectNone(store.events, Capped(filter, filter.since.value));
      }
    }

    // next() on the generator. The batch size is checked when it first runs, and an exception ends it.
    method Resume() returns (r: Result<Option<seq<StoredEvent>>, Code>)
      requires store.Valid() && Valid()
      modifies this
      ensures Valid()
      ensures batchSize <= 0 ==> r == if old(done) then Ok(None) else Err(InvalidArgument)
      ensures batchSize <= 0 ==> done && yielded == old(yielded)
      ensures batchSize > 0 ==> r.Ok? && (r.value.None? ==> done && yielded == old(yielded))
      ensures r.Ok? && r.value.Some? ==> 0 < |r.value.value| <= batchSize && yielded == old(yielded) + r.value.value
      ensures batchSize > 0 && !old(done) && r == Ok(None) ==> yielded == Select(store.events, filter)
    {
      if batchSize <= 0 {
        r := if done then Ok(None) else Err(InvalidArgument);
        done := true;
        return;
      }
      var batch := Next();
      return Ok(batch);
    }

    // The next batch, or None when the generator returns.
    method Next() returns (batch: Option<seq<StoredEvent>>)
      requires store.Valid() && Valid() && batchSize > 0
      modifies this
      ensures Valid()
      ensures batch.Some? ==>
        && !old(done) && !done
        && 0 < |batch.value| <= batchSize
        && yielded == old(yielded) + batch.value
        && cursor.Some? && (old(cursor).Some? ==> cursor.value > old(cursor).value)
        && (filter.until.Some? ==> cursor.value <= filter.until.value)
      ensures batch.None? ==>
        && done && yielded == old(yielded)
        && (!old(done) ==> yielded == Select(store.events, filter))
    {
      if done { return None; }
      if started && cursor.Some? && filter.until.Some? && cursor.value >= filter.until.value {
        StandingEnds(store.events, filter, cursor, started, yielded);
        done := true;
        return None;
      }
      var events := ListEvents(store.events, filter.(since := cursor), Some(batchSize));
      if events == [] {
        StandingEnds(store.events, filter, cursor, started, yielded);
        done := true;
        return None;
      }
      ghost var beyond := Beyond(store.events, filter, cursor);
      assert beyond[..|events|] == events;
      StandingMoves(store.events, filter, cursor, started, |events|, yielded);
      cursor := Some(events[|events| - 1].logSeq);
      started := true;
      yielded := yielded + events;
      return Some(events);
    }
  }

  method AppendOne(store: InMemoryEventStore, env: Envelope, now: string)
    requires store.Valid()
    modifies store
    ensures store.Valid() && Grown(old(store.events), store.events)
  {
    AppendGrows(store.sha, store.events, env, now);
    var r := store.AppendEvent(env, now);
  }

  // Other callers append while the generator is suspended; what it has yielded stays right.
  method AppendAll(it: EventBatches, store: InMemoryEventStore, envs: seq<(Envelope, string)>)
    requires store.Valid() && it.Valid() && it.store == store
    modifies store
    ensures store.Valid() && it.Valid()
    ensures old(store.events) <= store.events
  {
    for k := 0 to |envs|
      invariant store.Valid() && it.Valid()
      invariant old(store.events) <= store.events
    {
      ghost var log := store.events;
      AppendOne(store, envs[k].0, envs[k].1);
      if store.events != log {
        StandingStays(log, store.events[|log|], it.filter, it.cursor, it.started, it.done, it.yielded);
      }
    }
  }

  // With until_log_seq the generator returns, whatever is appended between its yields, and has then yielded
  // exactly the matching events of the log as it stands. script(k) is what others append after the k-th yield.
  method DrainWhileGrowing(it: EventBatches, store: InMemoryEventStore, script: nat -> seq<(Envelope, string)>)
    requires store.Valid() && it.Valid() && it.store == store && it.batchSize > 0 && !it.done && it.filter.until.Some?
    modifies it, store
    ensures it.Valid() && it.done && it.yielded == Select(store.events, it.filter)
  {
    var k := 0;
    var first := it.Next();
    if first.None? { return; }
    AppendAll(it, store, script(k));
    while true
      invariant store.Valid() && it.Valid() && !it.done
      invariant it.cursor.Some? && it.cursor.value <= it.filter.until.value
      decreases it.filter.until.value - it.cursor.value
    {
      k := k + 1;
      var batch := it.Next();
      if batch.None? { return; }
      AppendAll(it, store, script(k));
    }
  }

  // Without it the generator returns once the log has stopped growing.
  method Drain(it: EventBatches)
    requires it.store.Valid() && it.Valid() && it.batchSize > 0 && !it.done
    modifies it
    ensures it.Valid() && it.done && it.yielded == Select(it.store.events, it.filter)
  {
    while true
      invariant it.Valid() && !it.done
      decreases |Select(it.store.events, it.filter)| - |it.yielded|
    {
      CursorSplits(it.store.events, it.filter, it.cursor);
      var batch := it.Next();
      if batch.None? { return; }
      CursorSplits(it.store.events, it.filter, it.cursor);
    }
  }
}
