// The idempotency keys DecisionGraph makes up: they tell events apart, and a new one is free.
module DefaultKeys {
  import opened Admission
  import opened ContextGraph
  import opened Events
  import opened Json
  import opened JsonParse
  import opened Log

  function TypeName(t: EventType): string {
    match t
    case TraceStarted => "TraceStarted"
    case InputObserved => "InputObserved"
    case EntityObserved => "EntityObserved"
    case PolicyEvaluated => "PolicyEvaluated"
    case ExceptionRequested => "ExceptionRequested"
    case ApprovalRecorded => "ApprovalRecorded"
    case PrecedentCited => "PrecedentCited"
    case ActionProposed => "ActionProposed"
    case ActionCommitted => "ActionCommitted"
    case TraceFinished => "TraceFinished"
    case Unknown(name) => name
  }

  function DefaultKey(t: EventType, traceId: string, n: int): string {
    TypeName(t) + ":" + traceId + ":" + Decimal(n)
  }

  // ----- apart -----

  // A type's name is known by its length and first letter.
  function Mark(t: EventType): (nat, char) {
    match t
    case TraceStarted => (12, 'T')
    case InputObserved => (13, 'I')
    case EntityObserved => (14, 'E')
    case PolicyEvaluated => (15, 'P')
    case ExceptionRequested => (18, 'E')
    case ApprovalRecorded => (16, 'A')
    case PrecedentCited => (14, 'P')
    case ActionProposed => (14, 'A')
    case ActionCommitted => (15, 'A')
    case TraceFinished => (13, 'T')
    case Unknown(_) => (0, ' ')
  }

  lemma NameMark(t: EventType)
    requires !t.Unknown?
    ensures TypeName(t) != "" && Mark(t) == (|TypeName(t)|, TypeName(t)[0])
  {
  }

  predicate Letters(s: string) {
    forall i :: 0 <= i < |s| ==> 'A' <= s[i] <= 'z'
  }

  lemma NameLetters(t: EventType)
    requires !t.Unknown?
    ensures Letters(TypeName(t)) && |TypeName(t)| <= 18
  {
    match t
    case TraceStarted => assert Letters("TraceStarted");
    case InputObserved => assert Letters("InputObserved");
    case EntityObserved => assert Letters("EntityObserved");
    case PolicyEvaluated => assert Letters("PolicyEvaluated");
    case ExceptionRequested => assert Letters("ExceptionRequested");
    case ApprovalRecorded => assert Letters("ApprovalRecorded");
    case PrecedentCited => assert Letters("PrecedentCited");
    case ActionProposed => assert Letters("ActionProposed");
    case ActionCommitted => assert Letters("ActionCommitted");
    case TraceFinished => assert Letters("TraceFinished");
  }

  lemma NamesDiffer(t: EventType, u: EventType)
    requires !t.Unknown? && !u.Unknown? && TypeName(t) == TypeName(u)
    ensures t == u
  {
    NameMark(t);
    NameMark(u);
  }

  lemma DecimalDigits(n: int)
    ensures forall i :: 0 <= i < |Decimal(n)| ==> Decimal(n)[i] == '-' || IsDigit(Decimal(n)[i])
    ensures Decimal(n)[0] == '-' <==> n < 0
    ensures Decimal(n) != [] && (if n < 0 then 0 - NumberValue(Decimal(n)[1..]) else NumberValue(Decimal(n))) == n
  {
    DigitsRead(if n < 0 then -n else n);
    if n < 0 { assert Decimal(n)[1..] == Digits(-n); }
  }

  lemma DecimalsDiffer(n: int, m: int)
    requires Decimal(n) == Decimal(m)
    ensures n == m
  {
    DecimalDigits(n);
    DecimalDigits(m);
  }

  lemma LastColon(a: string, b: string, c: string, d: string)
    requires a + ":" + b == c + ":" + d && ':' !in b && ':' !in d
    ensures a == c && b == d
  {
    var s := a + ":" + b;
    assert s[|a|] == ':' && s[|c|] == ':';
    assert forall i :: |a| < i < |s| ==> s[i] == b[i - |a| - 1];
    assert forall i :: |c| < i < |s| ==> s[i] == d[i - |c| - 1];
    assert |a| == |c|;
    assert a == s[..|a|] && c == s[..|c|] && b == s[|a| + 1..] && d == s[|c| + 1..];
  }

  // Two default keys agree only if type, trace and number all do.
  lemma DefaultKeysDiffer(t: EventType, traceId: string, n: int, u: EventType, other: string, m: int)
    requires !t.Unknown? && !u.Unknown? && DefaultKey(t, traceId, n) == DefaultKey(u, other, m)
    ensures t == u && traceId == other && n == m
  {
    NameLetters(t);
    NameLetters(u);
    DecimalDigits(n);
    DecimalDigits(m);
    LastColon(TypeName(t) + ":" + traceId, Decimal(n), TypeName(u) + ":" + other, Decimal(m));
    DecimalsDiffer(n, m);
    SplitNodeId(TypeName(t), traceId);
    SplitNodeId(TypeName(u), other);
    NamesDiffer(t, u);
  }

  // ----- admitted -----

  lemma {:induction false} Utf8Append(a: string, b: string)
    ensures Utf8(a + b) == Utf8(a) + Utf8(b)
  {
    if a == [] {
      assert a + b == b;
    } else {
      assert (a + b)[1..] == a[1..] + b;
      Utf8Append(a[1..], b);
    }
  }

  lemma {:induction false} Utf8Ascii(s: string)
    requires forall i :: 0 <= i < |s| ==> s[i] as int < 0x80
    ensures |Utf8(s)| == |s|
  {
    if s != [] { Utf8Ascii(s[1..]); }
  }

  // Such a key is admitted exactly when the trace id holds no NUL and the three parts take up at most 198 bytes.
  lemma DefaultKeyFits(t: EventType, traceId: string, n: int)
    requires !t.Unknown?
    ensures KeyFits(DefaultKey(t, traceId, n)) <==>
      NoNul(traceId) && |TypeName(t)| + |Utf8(traceId)| + |Decimal(n)| <= 198
  {
    var name, number := TypeName(t) + ":", ":" + Decimal(n);
    NamePart(t, name);
    NumberPart(n, number);
    KeyOfParts(name, traceId, number);
    ThreeParts(TypeName(t), traceId, Decimal(n));
  }

  ghost predicate NoNul(s: string) {
    forall i :: 0 <= i < |s| ==> s[i] as int != 0
  }

  lemma ThreeParts(a: string, b: string, c: string)
    ensures a + ":" + b + ":" + c == (a + ":") + (b + (":" + c))
  {
  }

  lemma NamePart(t: EventType, name: string)
    requires !t.Unknown? && name == TypeName(t) + ":"
    ensures name != "" && |Utf8(name)| == |TypeName(t)| + 1 && NoNul(name)
  {
    NameLetters(t);
    Utf8Ascii(name);
  }

  lemma NumberPart(n: int, number: string)
    requires number == ":" + Decimal(n)
    ensures |Utf8(number)| == 1 + |Decimal(n)| && NoNul(number)
  {
    DecimalDigits(n);
    Utf8Ascii(number);
  }

  lemma KeyOfParts(a: string, b: string, c: string)
    requires a != "" && NoNul(a) && NoNul(c)
    ensures KeyFits(a + (b + c)) <==> NoNul(b) && |Utf8(a)| + |Utf8(b)| + |Utf8(c)| <= 200
  {
    Utf8Append(b, c);
    Utf8Append(a, b + c);
    var s := a + (b + c);
    assert forall i :: 0 <= i < |b| ==> b[i] == s[|a| + i];
  }

  // ----- free -----

  ghost predicate HasDefaultKey(m: Meta) {
    !m.eventType.Unknown? && m.idempotencyKey == DefaultKey(m.eventType, m.traceId, m.traceSeq)
  }

  // Where a producer has left all its keys to the library, the next event's key is free.
  lemma NewDefaultKeyIsFree<P, T>(log: seq<Stored<P, T>>, e: Envelope)
    requires Sequenced(log) && HasDefaultKey(e.meta) && e.meta.traceSeq == |Positions(log, e.meta.traceId)|
    requires forall i :: 0 <= i < |log| && log[i].meta.source.producerId == e.meta.source.producerId ==>
      HasDefaultKey(log[i].meta)
    ensures NoHolder(log, e)
  {
    PositionsCount(log, e.meta.traceId);
    NextSeqCounts(log, e.meta.traceId);
    TraceSeqTaken(log, e.meta);
    forall i | 0 <= i < |log| ensures !Holds(log[i].meta, e) {
      var m := log[i].meta;
      if Holds(m, e) {
        DefaultKeysDiffer(m.eventType, m.traceId, m.traceSeq, e.meta.eventType, e.meta.traceId, e.meta.traceSeq);
      }
    }
  }
}
