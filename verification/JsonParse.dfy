// json.loads, over the grammar of RFC 8259 (sections 2 to 7) plus the three number words Python accepts,
// and the round trip that makes the canonical text an identity.
module JsonParse {
  import opened Json
  import opened Order
  import opened Wrappers

  datatype Parsed<+T> = Fail | Good(value: T, rest: string)

  predicate IsSpace(c: char) { c == ' ' || c == '\t' || c == '\n' || c == '\r' }

  predicate IsDigit(c: char) { '0' <= c <= '9' }

  function SkipSpace(s: string): (r: string)
    ensures |r| <= |s|
  {
    if s != [] && IsSpace(s[0]) then SkipSpace(s[1..]) else s
  }

  // ----- strings -----

  function HexValue(c: char): Option<nat> {
    if '0' <= c <= '9' then Some((c as int) - ('0' as int))
    else if 'a' <= c <= 'f' then Some((c as int) - ('a' as int) + 10)
    else if 'A' <= c <= 'F' then Some((c as int) - ('A' as int) + 10)
    else None
  }

  function HexQuad(s: string): (r: Option<nat>)
    ensures r.Some? ==> |s| >= 4 && r.value < 0x1_0000
  {
    if |s| < 4 then None else
      match (HexValue(s[0]), HexValue(s[1]), HexValue(s[2]), HexValue(s[3]))
      case (Some(a), Some(b), Some(c), Some(d)) =>
        assert a < 16 && b < 16 && c < 16 && d < 16;
        Some(((a * 16 + b) * 16 + c) * 16 + d)
      case _ => None
  }

  // The text after "\u". A surrogate pair is one character; a surrogate on its own is no character.
  function ParseUnicode(s: string): (r: Parsed<char>)
    ensures r.Good? ==> |r.rest| < |s|
  {
    match HexQuad(s)
    case None => Fail
    case Some(n) =>
      if n < 0xD800 || 0xE000 <= n then Good(n as char, s[4..])
      else if n < 0xDC00 && |s| >= 6 && s[4] == '\\' && s[5] == 'u' then
        match HexQuad(s[6..])
        case Some(m) =>
          if 0xDC00 <= m < 0xE000
          then Good((0x1_0000 + (n - 0xD800) * 0x400 + (m - 0xDC00)) as char, s[10..])
          else Fail
        case None => Fail
      else Fail
  }

  function ParseChar(s: string): (r: Parsed<char>)
    requires s != []
    ensures r.Good? ==> |r.rest| < |s|
  {
    if s[0] != '\\' then if s[0] as int < 32 then Fail else Good(s[0], s[1..])
    else if |s| < 2 then Fail
    else
      var c := s[1];
      if c == 'u' then ParseUnicode(s[2..])
      else if c == '\"' || c == '\\' || c == '/' then Good(c, s[2..])
      else if c == 'n' then Good('\n', s[2..])
      else if c == 'r' then Good('\r', s[2..])
      else if c == 't' then Good('\t', s[2..])
      else if c == 'b' then Good(8 as char, s[2..])
      else if c == 'f' then Good(12 as char, s[2..])
      else Fail
  }

  // The text after an opening quote, up to and including the closing one.
  function ParseChars(s: string): (r: Parsed<string>)
    ensures r.Good? ==> |r.rest| < |s|
    decreases |s|
  {
    if s == [] then Fail
    else if s[0] == '\"' then Good("", s[1..])
    else
      match ParseChar(s)
      case Fail => Fail
      case Good(c, rest) =>
        match ParseChars(rest)
        case Fail => Fail
        case Good(cs, rest') => Good([c] + cs, rest')
  }

  // ----- numbers -----

  function DigitRun(s: string): (n: nat)
    ensures n <= |s|
  {
    if s != [] && IsDigit(s[0]) then 1 + DigitRun(s[1..]) else 0
  }

  function DigitValue(c: char): nat {
    if IsDigit(c) then (c as int) - ('0' as int) else 0
  }

  function NumberValue(ds: string): nat {
    if ds == [] then 0 else 10 * NumberValue(ds[..|ds| - 1]) + DigitValue(ds[|ds| - 1])
  }

  function FractionLength(s: string): (n: nat)
    ensures n <= |s|
  {
    if s != [] && s[0] == '.' && DigitRun(s[1..]) > 0 then 1 + DigitRun(s[1..]) else 0
  }

  function ExponentLength(s: string): (n: nat)
    ensures n <= |s|
  {
    if s != [] && (s[0] == 'e' || s[0] == 'E') then
      var sign := if |s| > 1 && (s[1] == '+' || s[1] == '-') then 2 else 1;
      if DigitRun(s[sign..]) > 0 then sign + DigitRun(s[sign..]) else 0
    else 0
  }

  function ParseUnsigned(t: string): (r: Parsed<Value>)
    ensures r.Good? ==> |r.rest| < |t|
  {
    var run := DigitRun(t);
    if run == 0 then Fail else
      var whole := if t[0] == '0' then 1 else run;
      var after := t[whole..];
      var f := FractionLength(after);
      var e := ExponentLength(after[f..]);
      if f + e == 0 then Good(Int(NumberValue(t[..whole])), after)
      else Good(Float(t[..whole + f + e]), t[whole + f + e..])
  }

  function ParseNumber(s: string): (r: Parsed<Value>)
    ensures r.Good? ==> |r.rest| < |s|
  {
    if s != [] && s[0] == '-' then
      match ParseUnsigned(s[1..])
      case Good(Int(n), rest) => Good(Int(-n), rest)
      case Good(Float(f), rest) => Good(Float("-" + f), rest)
      case _ => Fail
    else ParseUnsigned(s)
  }

  // ----- values -----

  // Later pairs overwrite earlier ones in place, as assignments to a dict do.
  function Put(fs: seq<Field>, k: string, v: Value): seq<Field> {
    if fs == [] then [Field(k, v)]
    else if fs[0].key == k then [Field(k, v)] + fs[1..]
    else [fs[0]] + Put(fs[1..], k, v)
  }

  function ParseValue(s: string): (r: Parsed<Value>)
    ensures r.Good? ==> |r.rest| < |s|
    decreases |s|, 1
  {
    if s == [] then Fail
    else if s[0] == '\"' then
      match ParseChars(s[1..])
      case Fail => Fail
      case Good(cs, rest) => Good(Str(cs), rest)
    else if s[0] == '{' then
      var t := SkipSpace(s[1..]);
      if t != [] && t[0] == '}' then Good(Dict([]), t[1..]) else ParseMembers(t, [])
    else if s[0] == '[' then
      var t := SkipSpace(s[1..]);
      if t != [] && t[0] == ']' then Good(List([]), t[1..]) else ParseElements(t, [])
    else if IsDigit(s[0]) || s[0] == '-' then ParseNumeric(s)
    else ParseWord(s)
  }

  function ParseNumeric(s: string): (r: Parsed<Value>)
    ensures r.Good? ==> |r.rest| < |s|
  {
    match ParseNumber(s)
    case Good(v, rest) => Good(v, rest)
    case Fail => if "-Infinity" <= s then Good(Float("-inf"), s[9..]) else Fail
  }

  function ParseWord(s: string): (r: Parsed<Value>)
    requires s != []
    ensures r.Good? ==> |r.rest| < |s|
  {
    if s[0] == 'n' && "null" <= s then Good(Null, s[4..])
    else if s[0] == 't' && "true" <= s then Good(Bool(true), s[4..])
    else if s[0] == 'f' && "false" <= s then Good(Bool(false), s[5..])
    else if s[0] == 'N' && "NaN" <= s then Good(Float("nan"), s[3..])
    else if s[0] == 'I' && "Infinity" <= s then Good(Float("inf"), s[8..])
    else Fail
  }

  function ParseElements(s: string, acc: seq<Value>): (r: Parsed<Value>)
    ensures r.Good? ==> |r.rest| < |s|
    decreases |s|, 2
  {
    match ParseValue(s)
    case Fail => Fail
    case Good(v, rest) =>
      var t := SkipSpace(rest);
      if t == [] then Fail
      else if t[0] == ']' then Good(List(acc + [v]), t[1..])
      else if t[0] == ',' then ParseElements(SkipSpace(t[1..]), acc + [v])
      else Fail
  }

  function ParseMembers(s: string, acc: seq<Field>): (r: Parsed<Value>)
    ensures r.Good? ==> |r.rest| < |s|
    decreases |s|, 2
  {
    if s == [] || s[0] != '\"' then Fail else
      match ParseChars(s[1..])
      case Fail => Fail
      case Good(k, rest) =>
        var t := SkipSpace(rest);
        if t == [] || t[0] != ':' then Fail else
          match ParseValue(SkipSpace(t[1..]))
          case Fail => Fail
          case Good(v, rest') =>
            var u := SkipSpace(rest');
            if u == [] then Fail
            else if u[0] == '}' then Good(Dict(Put(acc, k, v)), u[1..])
            else if u[0] == ',' then ParseMembers(SkipSpace(u[1..]), Put(acc, k, v))
            else Fail
  }

  // json.loads: one value and nothing but space around it; None is a JSONDecodeError.
  function Loads(s: string): Option<Value> {
    match ParseValue(SkipSpace(s))
    case Fail => None
    case Good(v, rest) => if SkipSpace(rest) == [] then Some(v) else None
  }

  // ----- reading back what was printed -----

  // What json.loads can return for a float-free text: no tuples, no floats, distinct keys.
  ghost predicate Plain(v: Value) {
    match v
    case Float(_) => false
    case Tuple(_) => false
    case List(xs) => forall i :: 0 <= i < |xs| ==> Plain(xs[i])
    case Dict(fs) =>
      && (forall i :: 0 <= i < |fs| ==> Plain(fs[i].value))
      && forall i, j :: 0 <= i < j < |fs| ==> fs[i].key != fs[j].key
    case _ => true
  }

  lemma {:induction false} NormPlain(v: Value)
    requires FloatFree(v)
    ensures Plain(Norm(v))
  {
    match v
    case List(xs) => forall i | 0 <= i < |xs| { NormPlain(xs[i]); }
    case Tuple(xs) => forall i | 0 <= i < |xs| { NormPlain(xs[i]); }
    case Dict(fs) =>
      NormFields(fs);
      TextLessTotal();
      var ks := SortedKeys(fs);
      forall i | 0 <= i < |ks| { NormPlain(Lookup(fs, ks[i])); }
    case _ =>
  }

  // A separator is its character followed by space.
  ghost predicate SpacedStyle(st: Style) {
    && st.item != [] && st.item[0] == ',' && (forall i :: 1 <= i < |st.item| ==> IsSpace(st.item[i]))
    && st.key != [] && st.key[0] == ':' && (forall i :: 1 <= i < |st.key| ==> IsSpace(st.key[i]))
  }

  // What may follow a value so that a number does not run on.
  predicate Delimited(rest: string) {
    rest == [] || (!IsDigit(rest[0]) && rest[0] != '.' && rest[0] != 'e' && rest[0] != 'E')
  }

  lemma {:induction false} SkipSpaceOver(w: string, s: string)
    requires forall i :: 0 <= i < |w| ==> IsSpace(w[i])
    requires s != [] ==> !IsSpace(s[0])
    ensures SkipSpace(w + s) == s
  {
    if w == [] {
      assert w + s == s;
    } else {
      assert (w + s)[1..] == w[1..] + s;
      SkipSpaceOver(w[1..], s);
    }
  }

  lemma Regroup(a: string, b: string, c: string, d: string, e: string)
    ensures a + b + c + d + e == a + (b + (c + d + e))
    ensures a + b + c + d == a + (b + c + d)
    ensures a + b + c == a + (b + c)
  {
  }

  lemma HexDigitReads(d: nat)
    requires d < 16
    ensures HexValue(HexDigit(d)) == Some(d)
  {
  }

  lemma Hex4Digits(n: nat)
    requires n < 0x1_0000
    ensures ((n / 0x1000 * 16 + n / 0x100 % 16) * 16 + n / 16 % 16) * 16 + n % 16 == n
  {
    assert n / 0x100 == n / 0x1000 * 16 + n / 0x100 % 16;
    assert n / 16 == n / 0x100 * 16 + n / 16 % 16;
  }

  lemma Hex4Reads(n: nat, s: string)
    requires n < 0x1_0000
    ensures HexQuad(Hex4(n) + s) == Some(n) && (Hex4(n) + s)[4..] == s
  {
    HexDigitReads(n / 0x1000);
    HexDigitReads(n / 0x100 % 16);
    HexDigitReads(n / 16 % 16);
    HexDigitReads(n % 16);
    Hex4Digits(n);
  }

  lemma ParseBasic(n: nat, s: string)
    requires n < 0xD800 || 0xE000 <= n < 0x1_0000
    ensures ParseChar("\\u" + Hex4(n) + s) == Good(n as char, s)
  {
    var t := "\\u" + Hex4(n) + s;
    assert t[2..] == Hex4(n) + s;
    Hex4Reads(n, s);
  }

  lemma ParsePair(hi: nat, lo: nat, n: nat, s: string)
    requires 0xD800 <= hi < 0xDC00 <= lo < 0xE000 && n == 0x1_0000 + (hi - 0xD800) * 0x400 + (lo - 0xDC00)
    ensures n < 0x11_0000
    ensures ParseChar("\\u" + Hex4(hi) + ("\\u" + Hex4(lo)) + s) == Good(n as char, s)
  {
    var low := "\\u" + Hex4(lo) + s;
    var t := "\\u" + Hex4(hi) + ("\\u" + Hex4(lo)) + s;
    assert t[2..] == Hex4(hi) + low;
    Hex4Reads(hi, low);
    Hex4Reads(lo, s);
    PairReads(t[2..], hi, lo, n, s);
  }

  lemma PairParts(high: string, low: string, s: string, t: string)
    requires |high| == 4 && |low| == 4 && t == high + ("\\u" + low + s)
    ensures t[4] == '\\' && t[5] == 'u' && t[6..] == low + s && t[10..] == s
  {
  }

  lemma PairReads(t: string, hi: nat, lo: nat, n: nat, s: string)
    requires 0xD800 <= hi < 0xDC00 <= lo < 0xE000 && n == 0x1_0000 + (hi - 0xD800) * 0x400 + (lo - 0xDC00)
    requires t == Hex4(hi) + ("\\u" + Hex4(lo) + s) && HexQuad(t) == Some(hi) && HexQuad(Hex4(lo) + s) == Some(lo)
    ensures ParseUnicode(t) == Good(n as char, s)
  {
    PairParts(Hex4(hi), Hex4(lo), s, t);
  }

  lemma Halves(n: nat) returns (hi: nat, lo: nat)
    requires 0x1_0000 <= n < 0x11_0000
    ensures hi == 0xD800 + (n - 0x1_0000) / 0x400 && lo == 0xDC00 + (n - 0x1_0000) % 0x400
    ensures hi < 0xDC00 && lo < 0xE000 && n == 0x1_0000 + (hi - 0xD800) * 0x400 + (lo - 0xDC00)
  {
    hi, lo := 0xD800 + (n - 0x1_0000) / 0x400, 0xDC00 + (n - 0x1_0000) % 0x400;
  }

  lemma UnicodeText(n: nat) returns (text: string)
    requires n < 0x11_0000
    ensures text == EscapeUnicode(n)
    ensures n < 0x1_0000 ==> text == "\\u" + Hex4(n)
    ensures n >= 0x1_0000 ==>
      text == "\\u" + Hex4(0xD800 + (n - 0x1_0000) / 0x400) + ("\\u" + Hex4(0xDC00 + (n - 0x1_0000) % 0x400))
  {
    text := EscapeUnicode(n);
  }

  lemma ParseEscapedUnicode(c: char, s: string)
    ensures ParseChar(EscapeUnicode(c as int) + s) == Good(c, s)
  {
    var n := c as int;
    var text := UnicodeText(n);
    if n < 0x1_0000 {
      ParseBasic(n, s);
    } else {
      var hi, lo := Halves(n);
      ParsePair(hi, lo, n, s);
    }
  }

  // A short escape or a plain character.
  lemma ParseShort(c: char, e: string, s: string)
    requires e == EscapeChar(c, false) && |e| <= 2
    ensures e != [] && e[0] != '\"' && ParseChar(e + s) == Good(c, s)
  {
    assert (e + s)[|e|..] == s;
  }

  lemma ParseEscaped(c: char, ascii: bool, s: string)
    ensures EscapeChar(c, ascii) != [] && EscapeChar(c, ascii)[0] != '\"'
    ensures ParseChar(EscapeChar(c, ascii) + s) == Good(c, s)
  {
    var e := EscapeChar(c, ascii);
    if e == EscapeUnicode(c as int) {
      ParseEscapedUnicode(c, s);
    } else {
      assert e == EscapeChar(c, false) && |e| <= 2;
      ParseShort(c, e, s);
    }
  }

  lemma {:induction false} ParseQuoted(s: string, ascii: bool, rest: string)
    ensures ParseChars(Escape(s, ascii) + "\"" + rest) == Good(s, rest)
  {
    if s == [] {
      assert Escape(s, ascii) + "\"" + rest == "\"" + rest;
    } else {
      var tail := Escape(s[1..], ascii) + "\"" + rest;
      Regroup(EscapeChar(s[0], ascii), Escape(s[1..], ascii), "\"", rest, "");
      ParseEscaped(s[0], ascii, tail);
      ParseQuoted(s[1..], ascii, rest);
      assert s == [s[0]] + s[1..];
    }
  }

  lemma {:induction false} RunOfDigits(ds: string, rest: string)
    requires forall i :: 0 <= i < |ds| ==> IsDigit(ds[i])
    requires Delimited(rest)
    ensures DigitRun(ds + rest) == |ds|
  {
    if ds == [] {
      assert ds + rest == rest;
    } else {
      assert (ds + rest)[1..] == ds[1..] + rest;
      RunOfDigits(ds[1..], rest);
    }
  }

  lemma {:induction false} DigitsRead(n: nat)
    ensures forall i :: 0 <= i < |Digits(n)| ==> IsDigit(Digits(n)[i])
    ensures NumberValue(Digits(n)) == n
    ensures Digits(n)[0] == '0' <==> n == 0
    ensures n < 10 ==> |Digits(n)| == 1
  {
    if n >= 10 {
      DigitsRead(n / 10);
      var ds := Digits(n);
      assert ds[..|ds| - 1] == Digits(n / 10);
    } else {
      var ds := Digits(n);
      assert ds[..|ds| - 1] == [];
      assert NumberValue([]) == 0;
    }
  }

  lemma ParseUnsignedDigits(n: nat, rest: string)
    requires Delimited(rest)
    ensures ParseUnsigned(Digits(n) + rest) == Good(Int(n), rest)
    ensures IsDigit(Digits(n)[0])
  {
    DigitsRead(n);
    RunOfDigits(Digits(n), rest);
    var t := Digits(n) + rest;
    var whole := |Digits(n)|;
    assert (if t[0] == '0' then 1 else DigitRun(t)) == whole;
    assert t[..whole] == Digits(n) && t[whole..] == rest;
    assert rest[0..] == rest;
    assert FractionLength(rest) == 0 && ExponentLength(rest) == 0;
  }

  lemma ParseSigned(t: string, n: int, rest: string)
    requires ParseUnsigned(t) == Good(Int(n), rest)
    ensures ParseNumber("-" + t) == Good(Int(-n), rest)
  {
    assert ("-" + t)[1..] == t;
  }

  lemma ParseDecimal(n: int, rest: string)
    requires Delimited(rest)
    ensures ParseNumber(Decimal(n) + rest) == Good(Int(n), rest)
    ensures IsDigit(Decimal(n)[0]) || Decimal(n)[0] == '-'
  {
    if n < 0 {
      ParseUnsignedDigits(-n, rest);
      Regroup("-", Digits(-n), rest, "", "");
      ParseSigned(Digits(-n) + rest, -n, rest);
    } else {
      ParseUnsignedDigits(n, rest);
      assert (Digits(n) + rest)[0] == Digits(n)[0];
    }
  }

  lemma PrintHead(v: Value, st: Style)
    requires Plain(v)
    ensures Print(v, st) != [] && !IsSpace(Print(v, st)[0])
    ensures Print(v, st)[0] != ']' && Print(v, st)[0] != '}'
  {
    if v.Int? { ParseDecimal(v.n, ""); }
  }

  lemma {:induction false} PutNew(fs: seq<Field>, k: string, v: Value)
    requires k !in Keys(fs)
    ensures Put(fs, k, v) == fs + [Field(k, v)]
  {
    if fs != [] {
      assert fs == [fs[0]] + fs[1..];
      assert fs[0] in fs;
      PutNew(fs[1..], k, v);
    }
  }

  lemma EmptyLeft<T>(xs: seq<T>)
    ensures [] + xs == xs
  {
  }

  lemma ShiftOne<T>(acc: seq<T>, xs: seq<T>)
    requires xs != []
    ensures acc + [xs[0]] + xs[1..] == acc + xs
  {
  }

  // One step of the element and member loops, whatever the texts are made of.

  lemma ElementsGoOn(s: string, acc: seq<Value>, v: Value, sep: string, tail: string)
    requires ParseValue(s) == Good(v, sep)
    requires sep != [] && sep[0] == ',' && SkipSpace(sep[1..]) == tail
    ensures ParseElements(s, acc) == ParseElements(tail, acc + [v])
  {
  }

  lemma ElementsEnd(s: string, acc: seq<Value>, v: Value, rest: string)
    requires ParseValue(s) == Good(v, "]" + rest)
    ensures ParseElements(s, acc) == Good(List(acc + [v]), rest)
  {
    assert ("]" + rest)[1..] == rest;
  }

  // s starts with a quoted key, a colon and a value, and after is what follows them.
  ghost predicate StartsMember(s: string, k: string, v: Value, after: string) {
    && s != [] && s[0] == '\"' && ParseChars(s[1..]).Good? && ParseChars(s[1..]).value == k
    && var t := ParseChars(s[1..]).rest;
       t != [] && t[0] == ':' && ParseValue(SkipSpace(t[1..])) == Good(v, after)
  }

  lemma MembersGoOn(s: string, acc: seq<Field>, k: string, v: Value, sep: string, tail: string)
    requires StartsMember(s, k, v, sep)
    requires sep != [] && sep[0] == ',' && SkipSpace(sep[1..]) == tail
    ensures ParseMembers(s, acc) == ParseMembers(tail, Put(acc, k, v))
  {
  }

  lemma MembersEnd(s: string, acc: seq<Field>, k: string, v: Value, rest: string)
    requires StartsMember(s, k, v, "}" + rest)
    ensures ParseMembers(s, acc) == Good(Dict(Put(acc, k, v)), rest)
  {
    assert ("}" + rest)[1..] == rest;
  }

  lemma ParseWords(rest: string)
    ensures ParseValue("null" + rest) == Good(Null, rest)
    ensures ParseValue("true" + rest) == Good(Bool(true), rest)
    ensures ParseValue("false" + rest) == Good(Bool(false), rest)
  {
    assert ("null" + rest)[4..] == rest && ("null" + rest)[..4] == "null";
    assert ("true" + rest)[4..] == rest && ("true" + rest)[..4] == "true";
    assert ("false" + rest)[5..] == rest && ("false" + rest)[..5] == "false";
  }

  lemma NumberIsValue(s: string, v: Value, rest: string)
    requires s != [] && (IsDigit(s[0]) || s[0] == '-') && ParseNumber(s) == Good(v, rest)
    ensures ParseValue(s) == Good(v, rest)
  {
    assert s[0] != '\"' && s[0] != '{' && s[0] != '[';
    assert ParseValue(s) == ParseNumeric(s);
  }

  lemma ParseInt(n: int, rest: string)
    requires Delimited(rest)
    ensures ParseValue(Decimal(n) + rest) == Good(Int(n), rest)
  {
    ParseDecimal(n, rest);
    assert (Decimal(n) + rest)[0] == Decimal(n)[0];
    NumberIsValue(Decimal(n) + rest, Int(n), rest);
  }

  lemma ParseText(t: string, ascii: bool, rest: string)
    ensures ParseValue(Quote(t, ascii) + rest) == Good(Str(t), rest)
  {
    ParseQuoted(t, ascii, rest);
    Regroup("\"", Escape(t, ascii), "\"", rest, "");
    assert (Quote(t, ascii) + rest)[1..] == Escape(t, ascii) + "\"" + rest;
  }

  lemma {:induction false} ParsePrinted(v: Value, st: Style, rest: string)
    requires Plain(v) && SpacedStyle(st) && Delimited(rest)
    ensures ParseValue(Print(v, st) + rest) == Good(v, rest)
    decreases v, 4
  {
    match v
    case List(xs) =>
      Regroup("[", PrintItems(xs, st), "]", rest, "");
      Regroup(PrintItems(xs, st), "]", rest, "", "");
      ParsePrintedArray(xs, st, rest);
    case Dict(fs) =>
      Regroup("{", PrintFields(fs, st), "}", rest, "");
      Regroup(PrintFields(fs, st), "}", rest, "", "");
      ParsePrintedObject(fs, st, rest);
    case Int(n) => ParseInt(n, rest);
    case Str(t) => ParseText(t, st.ascii, rest);
    case _ => ParseWords(rest);
  }

  lemma {:induction false} ParsePrintedArray(xs: seq<Value>, st: Style, rest: string)
    requires (forall i :: 0 <= i < |xs| ==> Plain(xs[i])) && SpacedStyle(st)
    ensures ParseValue("[" + (PrintItems(xs, st) + ("]" + rest))) == Good(List(xs), rest)
    decreases xs, 3
  {
    var body := PrintItems(xs, st) + ("]" + rest);
    OpenBracket(body);
    if xs == [] {
      EmptyLeft("]" + rest);
      assert ("]" + rest)[1..] == rest;
    } else {
      PrintedItemsHead(xs, st, "]" + rest);
      ParsePrintedItems(xs, [], st, rest);
      EmptyLeft(xs);
    }
  }

  lemma {:induction false} ParsePrintedObject(fs: seq<Field>, st: Style, rest: string)
    requires Plain(Dict(fs)) && SpacedStyle(st)
    ensures ParseValue("{" + (PrintFields(fs, st) + ("}" + rest))) == Good(Dict(fs), rest)
    decreases fs, 3
  {
    var body := PrintFields(fs, st) + ("}" + rest);
    OpenBrace(body);
    if fs == [] {
      EmptyLeft("}" + rest);
      assert ("}" + rest)[1..] == rest;
    } else {
      PrintedFieldsHead(fs, st, "}" + rest);
      ParsePrintedFields(fs, [], st, rest);
      EmptyLeft(fs);
    }
  }

  lemma OpenBracket(body: string)
    ensures body != [] && !IsSpace(body[0]) && body[0] != ']' ==> ParseValue("[" + body) == ParseElements(body, [])
    ensures body != [] && body[0] == ']' ==> ParseValue("[" + body) == Good(List([]), body[1..])
  {
    assert ("[" + body)[1..] == body;
  }

  lemma OpenBrace(body: string)
    ensures body != [] && !IsSpace(body[0]) && body[0] != '}' ==> ParseValue("{" + body) == ParseMembers(body, [])
    ensures body != [] && body[0] == '}' ==> ParseValue("{" + body) == Good(Dict([]), body[1..])
  {
    assert ("{" + body)[1..] == body;
  }

  lemma PrintedItemsHead(xs: seq<Value>, st: Style, rest: string)
    requires xs != [] && Plain(xs[0])
    ensures var s := PrintItems(xs, st) + rest; s != [] && !IsSpace(s[0]) && s[0] != ']'
  {
    PrintHead(xs[0], st);
    assert PrintItems(xs, st)[0] == Print(xs[0], st)[0];
  }

  lemma PrintedFieldsHead(fs: seq<Field>, st: Style, rest: string)
    requires fs != []
    ensures var s := PrintFields(fs, st) + rest; s != [] && s[0] == '\"'
  {
    assert PrintField(fs[0], st)[0] == '\"';
    assert PrintFields(fs, st)[0] == PrintField(fs[0], st)[0];
  }

  lemma SkipSeparator(sep: string, tail: string)
    requires sep != [] && (forall i :: 1 <= i < |sep| ==> IsSpace(sep[i]))
    requires tail != [] && !IsSpace(tail[0])
    ensures sep + tail != [] && (sep + tail)[0] == sep[0] && SkipSpace((sep + tail)[1..]) == tail
  {
    assert (sep + tail)[1..] == sep[1..] + tail;
    SkipSpaceOver(sep[1..], tail);
  }

  lemma ItemsSplit(xs: seq<Value>, st: Style, end: string)
    requires |xs| > 1
    ensures PrintItems(xs, st) + end == Print(xs[0], st) + (st.item + (PrintItems(xs[1..], st) + end))
  {
    Regroup(Print(xs[0], st), st.item, PrintItems(xs[1..], st), end, "");
    Regroup(st.item, PrintItems(xs[1..], st), end, "", "");
  }

  lemma {:induction false} ParsePrintedItems(xs: seq<Value>, acc: seq<Value>, st: Style, rest: string)
    requires xs != [] && (forall i :: 0 <= i < |xs| ==> Plain(xs[i])) && SpacedStyle(st)
    ensures ParseElements(PrintItems(xs, st) + ("]" + rest), acc) == Good(List(acc + xs), rest)
    decreases xs, 2
  {
    var end := "]" + rest;
    if |xs| == 1 {
      ParsePrinted(xs[0], st, end);
      ElementsEnd(PrintItems(xs, st) + end, acc, xs[0], rest);
      assert xs == [xs[0]];
    } else {
      var tail := PrintItems(xs[1..], st) + end;
      ItemsSplit(xs, st, end);
      PrintedItemsHead(xs[1..], st, end);
      SkipSeparator(st.item, tail);
      ParsePrinted(xs[0], st, st.item + tail);
      ElementsGoOn(PrintItems(xs, st) + end, acc, xs[0], st.item + tail, tail);
      ParsePrintedItems(xs[1..], acc + [xs[0]], st, rest);
      ShiftOne(acc, xs);
    }
  }

  lemma {:induction false} ParsePrintedField(f: Field, st: Style, rest: string)
    requires Plain(f.value) && SpacedStyle(st) && Delimited(rest)
    ensures StartsMember(PrintField(f, st) + rest, f.key, f.value, rest)
    decreases f, 1
  {
    var value := Print(f.value, st) + rest;
    var tail := st.key + value;
    Regroup(Quote(f.key, st.ascii), st.key, Print(f.value, st), rest, "");
    Regroup(st.key, Print(f.value, st), rest, "", "");
    assert PrintField(f, st) + rest == Quote(f.key, st.ascii) + tail;
    Regroup("\"", Escape(f.key, st.ascii), "\"", tail, "");
    assert (Quote(f.key, st.ascii) + tail)[1..] == Escape(f.key, st.ascii) + "\"" + tail;
    ParseQuoted(f.key, st.ascii, tail);
    PrintHead(f.value, st);
    SkipSeparator(st.key, value);
    ParsePrinted(f.value, st, rest);
  }

  lemma FieldsSplit(fs: seq<Field>, st: Style, end: string)
    requires |fs| > 1
    ensures PrintFields(fs, st) + end == PrintField(fs[0], st) + (st.item + (PrintFields(fs[1..], st) + end))
  {
    Regroup(PrintField(fs[0], st), st.item, PrintFields(fs[1..], st), end, "");
    Regroup(st.item, PrintFields(fs[1..], st), end, "", "");
  }

  ghost predicate Fresh(fs: seq<Field>, acc: seq<Field>) {
    && (forall i, j :: 0 <= i < j < |fs| ==> fs[i].key != fs[j].key)
    && forall i :: 0 <= i < |fs| ==> fs[i].key !in Keys(acc)
  }

  lemma FreshMoves(fs: seq<Field>, acc: seq<Field>)
    requires fs != [] && Fresh(fs, acc)
    ensures Put(acc, fs[0].key, fs[0].value) == acc + [fs[0]]
    ensures Fresh(fs[1..], acc + [fs[0]])
  {
    PutNew(acc, fs[0].key, fs[0].value);
    assert Keys(acc + [fs[0]]) == Keys(acc) + {fs[0].key};
  }

  lemma {:induction false} ParsePrintedFields(fs: seq<Field>, acc: seq<Field>, st: Style, rest: string)
    requires fs != [] && SpacedStyle(st) && Fresh(fs, acc)
    requires forall i :: 0 <= i < |fs| ==> Plain(fs[i].value)
    ensures ParseMembers(PrintFields(fs, st) + ("}" + rest), acc) == Good(Dict(acc + fs), rest)
    decreases fs, 2
  {
    FreshMoves(fs, acc);
    if |fs| == 1 {
      ParseLastField(fs[0], acc, st, rest);
      assert fs == [fs[0]];
    } else {
      ParseFirstField(fs, acc, st, "}" + rest);
      ParsePrintedFields(fs[1..], acc + [fs[0]], st, rest);
      ShiftOne(acc, fs);
    }
  }

  lemma {:induction false} ParseLastField(f: Field, acc: seq<Field>, st: Style, rest: string)
    requires Plain(f.value) && SpacedStyle(st)
    ensures ParseMembers(PrintField(f, st) + ("}" + rest), acc) == Good(Dict(Put(acc, f.key, f.value)), rest)
    decreases f, 2
  {
    ParsePrintedField(f, st, "}" + rest);
    MembersEnd(PrintField(f, st) + ("}" + rest), acc, f.key, f.value, rest);
  }

  lemma {:induction false} ParseFirstField(fs: seq<Field>, acc: seq<Field>, st: Style, end: string)
    requires |fs| > 1 && SpacedStyle(st) && Plain(fs[0].value)
    ensures ParseMembers(PrintFields(fs, st) + end, acc)
         == ParseMembers(PrintFields(fs[1..], st) + end, Put(acc, fs[0].key, fs[0].value))
    decreases fs, 1
  {
    var tail := PrintFields(fs[1..], st) + end;
    FieldsSplit(fs, st, end);
    PrintedFieldsHead(fs[1..], st, end);
    SkipSeparator(st.item, tail);
    ParsePrintedField(fs[0], st, st.item + tail);
    MembersGoOn(PrintFields(fs, st) + end, acc, fs[0].key, fs[0].value, st.item + tail, tail);
  }

  // ----- the two main results -----

  // json.loads(json.dumps(v)) is the sorted, tuple-free form of v, whatever space the separators carry.
  lemma LoadsDumps(v: Value, st: Style)
    requires FloatFree(v) && SpacedStyle(st)
    ensures Loads(Dumps(v, st)) == Some(Norm(v))
  {
    NormPlain(v);
    PrintHead(Norm(v), st);
    ParsePrinted(Norm(v), st, "");
    assert Print(Norm(v), st) + "" == Print(Norm(v), st);
  }

  // The canonical text identifies a payload up to key order and list/tuple, at every depth.
  lemma CanonicalIdentity(a: Value, b: Value)
    requires FloatFree(a) && FloatFree(b)
    ensures Canonicalize(a) == Canonicalize(b) <==> Same(a, b)
    ensures Canonicalize(a).Ok? && Canonicalize(b).Ok?
  {
    CanonicalizeAccepts(a);
    CanonicalizeAccepts(b);
    SameIffNorm(a, b);
    LoadsDumps(a, COMPACT);
    LoadsDumps(b, COMPACT);
  }

  // Printing with the store's separators and reading back keeps the canonical text.
  lemma CanonicalSurvivesStorage(v: Value)
    requires FloatFree(v)
    ensures Loads(Dumps(v, SPACED)).Some?
    ensures Canonicalize(Loads(Dumps(v, SPACED)).value) == Canonicalize(v)
    ensures Canonicalize(v).Ok?
  {
    LoadsDumps(v, SPACED);
    NormIdempotent(v);
    NormFloatFree(v);
    CanonicalizeAccepts(v);
    CanonicalizeAccepts(Norm(v));
  }
}
