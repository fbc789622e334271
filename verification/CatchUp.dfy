// Catching up: reading the log page by page and projecting each page, on a log that may grow meanwhile.
module CatchUp {
  import opened Events
  import opened Log
  import opened Projection
  import opened Replay
  import opened Sqlite
  import opened Wrappers

  // The events a catch-up is to project if the log stands still.
  ghost function Pending(log: seq<Row>, since: nat, until: Option<int>): seq<StoredEvent>
    requires Readable(log)
  {
    Slice(Load(log), since, Upper(|log|, until))
  }

  // Where a page ends. An empty one means that there is nothing more to read.
  ghost predicate PageEnds(n: nat, cursor: nat, until: Option<int>, size: nat, hi: nat) {
    && cursor <= hi <= n && hi - cursor <= size
    && (if hi == cursor then Upper(n, until) <= cursor else hi <= Upper(n, until))
  }

  lemma PageRange(events: seq<StoredEvent>, cursor: nat, until: Option<int>, size: nat) returns (hi: nat)
    requires cursor <= |events| && size > 0
    ensures PageEnds(|events|, cursor, until, size, hi)
    ensures Firsts(Slice(events, cursor, Upper(|events|, until)), size) == events[cursor..hi]
  {
    hi := cursor + |Firsts(Slice(events, cursor, Upper(|events|, until)), size)|;
  }

  lemma LastSeq(log: seq<Row>, hi: nat)
    requires Readable(log) && Numbered(log) && 0 < hi <= |log|
    ensures Load(log)[hi - 1].logSeq == hi
  {
    FromRowKeeps(log[hi - 1]);
  }

  lemma FromRowKeeps(row: Row)
    ensures FromRow(row).Ok? ==> FromRow(row).value.logSeq == row.logSeq
  {
  }

  // Rows that arrive after a page has been read leave it as it is.
  lemma PageStays(log: seq<Row>, later: seq<Row>, cursor: nat, until: Option<int>, size: nat, hi: nat)
    requires log <= later && Readable(log) && Readable(later)
    requires PageEnds(|log|, cursor, until, size, hi) && cursor < hi
    ensures PageEnds(|later|, cursor, until, size, hi) && Load(later)[cursor..hi] == Load(log)[cursor..hi]
  {
  }

  // A failed catch-up stands at the start of the page that failed, and has kept nothing of it.
  ghost predicate PageFails(sha: string -> string, p: Proj, log: seq<Row>, size: nat, faults: set<int>, code: Code)
    requires Readable(log) && 0 <= p.cursor <= |log|
  {
    exists hi :: p.cursor < hi <= |log| && hi - p.cursor <= size &&
      ProjectAll(sha, p, log, Load(log)[p.cursor..hi], faults) == Err(code)
  }

  // What projecting a page has come to.
  ghost predicate Projects(sha: string -> string, q: Proj, log: seq<Row>, page: seq<StoredEvent>, faults: set<int>,
                           q': Proj, r: Result<seq<StoredEvent>, Code>)
  {
    && ProjectAll(sha, q, log, page, faults) == (if r.Err? then Err(r.error) else Ok(q'))
    && (r.Ok? ==> r.value == page)
  }

  // From cursor, events have taken the projection to end.
  ghost predicate Advanced(cursor: nat, hi: int, end: int, events: seq<StoredEvent>) {
    && end == cursor + |events|
    && (if events == [] then hi <= cursor else end <= hi && events[|events| - 1].logSeq == end)
  }

  lemma FailsAt(sha: string -> string, p: Proj, log: seq<Row>, hi: nat, size: nat, faults: set<int>, code: Code)
    requires Readable(log) && 0 <= p.cursor < hi <= |log| && hi - p.cursor <= size
    requires ProjectAll(sha, p, log, Load(log)[p.cursor..hi], faults) == Err(code)
    ensures PageFails(sha, p, log, size, faults, code)
  {
  }

  // The batches of rest end with the error of the first page, or come to those after it.
  lemma FirstFails(sha: string -> string, q: Proj, log: seq<Row>, rest: seq<StoredEvent>, size: nat, faults: set<int>,
                   code: Code)
    requires size > 0 && ProjectAll(sha, q, log, Firsts(rest, size), faults) == Err(code)
    ensures Batches(sha, q, log, rest, size, faults) == (q, Some(code))
  {
    BatchesUnfold(sha, q, log, rest, size, |Firsts(rest, size)|, faults);
    assert rest[..|Firsts(rest, size)|] == Firsts(rest, size);
  }

  lemma FirstPasses(sha: string -> string, q: Proj, log: seq<Row>, rest: seq<StoredEvent>, size: nat, faults: set<int>,
                    page: seq<StoredEvent>, q': Proj, more: seq<StoredEvent>)
    requires size > 0 && page == Firsts(rest, size) && page != [] && more == rest[|page|..]
    requires ProjectAll(sha, q, log, page, faults) == Ok(q')
    ensures Batches(sha, q, log, rest, size, faults) == Batches(sha, q', log, more, size, faults)
  {
    BatchesUnfold(sha, q, log, rest, size, |page|, faults);
    assert rest[..|page|] == page;
  }

  lemma AfterPage(log: seq<Row>, cursor: nat, until: Option<int>, size: nat, page: seq<StoredEvent>, next: nat)
    returns (rest: seq<StoredEvent>, more: seq<StoredEvent>)
    requires Readable(log) && page == Firsts(Pending(log, cursor, until), size) && next == cursor + |page|
    ensures rest == Pending(log, cursor, until) && more == Pending(log, next, until)
    ensures page == Firsts(rest, size) && |page| <= |rest| && more == rest[|page|..]
  {
    rest, more := Pending(log, cursor, until), Pending(log, next, until);
  }

  lemma PageAdvances(n: nat, cursor: nat, until: Option<int>, size: nat, hi: nat, events: seq<StoredEvent>)
    requires PageEnds(n, cursor, until, size, hi) && |events| == hi - cursor
    requires events != [] ==> events[|events| - 1].logSeq == hi
    ensures Advanced(cursor, Upper(n, until), hi, events)
  {
  }

  lemma NoneProjects(sha: string -> string, q: Proj, log: seq<Row>, faults: set<int>)
    ensures Projects(sha, q, log, [], faults, q, Ok([]))
  {
  }

  // ----- the whole of it -----

  // From where a catch-up started to where it came, having projected n events.
  ghost predicate CameTo(start: int, hi: int, end: int, n: int) {
    end == (if start < hi then hi else start) && n == end - start
  }

  lemma Came(start: nat, cursor: nat, hi: int, n: nat)
    requires cursor == start + n && hi <= cursor && (n > 0 ==> cursor <= hi)
    ensures CameTo(start, hi, cursor, n)
  {
  }

  // A catch-up: how far, in batches of what size, and what project_events with that batch size would come to
  // if nobody else committed.
  datatype Task = Task(sha: string -> string, until: Option<int>, size: nat, faults: set<int>,
                       whole: (Proj, Option<Code>))

  ghost function TaskOf(sha: string -> string, p: Proj, log: seq<Row>, until: Option<int>, size: nat, faults: set<int>)
    : Task
    requires Readable(log) && 0 <= p.cursor && size > 0
  {
    Task(sha, until, size, faults, Batches(sha, p, log, Pending(log, p.cursor, until), size, faults))
  }

  // What is left comes to whole.
  ghost predicate OnTrack(g: Task, s: System) {
    && g.size > 0 && Readable(s.log) && 0 <= s.proj.cursor
    && Batches(g.sha, s.proj, s.log, Pending(s.log, s.proj.cursor, g.until), g.size, g.faults) == g.whole
  }

  ghost predicate Standing(g: Task, log: seq<Row>, p: Proj, code: Code) {
    Readable(log) && 0 <= p.cursor <= |log| && PageFails(g.sha, p, log, g.size, g.faults, code)
  }

  // One page: from s to s', which is still on track, or ends there with an error, if nobody else committed.
  ghost predicate Moved(g: Task, s: System, s': System, r: Result<seq<StoredEvent>, Code>, still: bool) {
    && s.log <= s'.log && 0 <= s.proj.cursor <= s'.proj.cursor <= |s'.log|
    && (r.Ok? ==> Advanced(s.proj.cursor, Upper(|s'.log|, g.until), s'.proj.cursor, r.value))
    && (r.Err? ==> Standing(g, s'.log, s'.proj, r.error))
    && (still ==> s'.log == s.log)
    && (still && OnTrack(g, s) ==> if r.Err? then g.whole == (s'.proj, Some(r.error)) else OnTrack(g, s'))
  }

  // n events further.
  ghost predicate Going(g: Task, start: System, s: System, n: nat, quiet: bool) {
    && start.log <= s.log && 0 <= start.proj.cursor && start.proj.cursor + n == s.proj.cursor <= |s.log|
    && (n > 0 ==> s.proj.cursor <= Upper(|s.log|, g.until))
    && (quiet ==> s.log == start.log && OnTrack(g, s))
  }

  // Done, or given up.
  ghost predicate Ended(g: Task, start: System, s: System, r: Result<nat, Code>, quiet: bool) {
    && start.log <= s.log && start.proj.cursor <= s.proj.cursor
    && (r.Ok? ==> CameTo(start.proj.cursor, Upper(|s.log|, g.until), s.proj.cursor, r.value))
    && (r.Err? ==> Standing(g, s.log, s.proj, r.error))
    && (quiet ==> s.log == start.log && g.whole == (s.proj, if r.Err? then Some(r.error) else None))
  }

  lemma GoingStarts(g: Task, s: System, quiet: bool)
    requires OnTrack(g, s) && s.proj.cursor <= |s.log|
    ensures Going(g, s, s, 0, quiet)
  {
  }

  lemma GoesOn(g: Task, start: System, s: System, s': System, r: Result<seq<StoredEvent>, Code>, n: nat, quiet: bool,
               still: bool)
    requires Going(g, start, s, n, quiet) && Moved(g, s, s', r, still) && r.Ok? && (quiet ==> still)
    ensures Going(g, start, s', n + |r.value|, quiet)
    ensures r.value != [] ==> s.proj.cursor < s'.proj.cursor <= Upper(|s'.log|, g.until)
    ensures r.value != [] ==> r.value[|r.value| - 1].logSeq == s'.proj.cursor
    ensures r.value == [] ==> Upper(|s'.log|, g.until) <= s'.proj.cursor
  {
  }

  lemma GoesWrong(g: Task, start: System, s: System, s': System, code: Code, n: nat, quiet: bool, still: bool)
    requires Going(g, start, s, n, quiet) && Moved(g, s, s', Err(code), still) && (quiet ==> still)
    ensures Ended(g, start, s', Err(code), quiet)
  {
  }

  lemma GoingEnds(g: Task, start: System, s: System, n: nat, quiet: bool)
    requires Going(g, start, s, n, quiet) && Upper(|s.log|, g.until) <= s.proj.cursor
    ensures Ended(g, start, s, Ok(n), quiet)
  {
    Came(start.proj.cursor, s.proj.cursor, Upper(|s.log|, g.until), n);
    if quiet { assert Pending(s.log, s.proj.cursor, g.until) == []; }
  }

  lemma TrackFails(g: Task, s: System, code: Code)
    requires OnTrack(g, s)
    requires ProjectAll(g.sha, s.proj, s.log, Firsts(Pending(s.log, s.proj.cursor, g.until), g.size), g.faults)
      == Err(code)
    ensures g.whole == (s.proj, Some(code))
  {
    FirstFails(g.sha, s.proj, s.log, Pending(s.log, s.proj.cursor, g.until), g.size, g.faults, code);
  }

  lemma TrackNext(g: Task, s: System, s': System, page: seq<StoredEvent>)
    requires OnTrack(g, s) && s'.log == s.log && s'.proj.cursor == s.proj.cursor + |page|
    requires page == Firsts(Pending(s.log, s.proj.cursor, g.until), g.size)
    requires ProjectAll(g.sha, s.proj, s.log, page, g.faults) == Ok(s'.proj)
    ensures OnTrack(g, s')
  {
    if page != [] {
      var rest, more := AfterPage(s.log, s.proj.cursor, g.until, g.size, page, s'.proj.cursor);
      FirstPasses(g.sha, s.proj, s.log, rest, g.size, g.faults, page, s'.proj, more);
    }
  }
}
