// The canonical text itself: no text that json.loads reads as the payload is shorter, and the keys of each of its
// objects stand in code-point order.
module CanonicalText {
  import opened Events
  import opened Json
  import opened JsonParse
  import opened Order
  import opened Wrappers

  // ----- what each kind of value costs at least -----

  ghost function Cost(v: Value): nat {
    |Dumps(v, COMPACT)|
  }

  // Each item with the comma or bracket behind it.
  ghost function ItemsCost(xs: seq<Value>): nat {
    if xs == [] then 0 else Cost(xs[0]) + 1 + ItemsCost(xs[1..])
  }

  ghost function FieldCost(k: string, v: Value): nat {
    |Quote(k, false)| + 1 + Cost(v) + 1
  }

  ghost function FieldsCost(fs: seq<Field>): nat {
    if fs == [] then 0 else FieldCost(fs[0].key, fs[0].value) + FieldsCost(fs[1..])
  }

  // The fields under some of the keys.
  ghost function KeysCost(ks: seq<string>, fs: seq<Field>): nat
    requires forall i :: 0 <= i < |ks| ==> ks[i] in Keys(fs)
  {
    if ks == [] then 0 else FieldCost(ks[0], Lookup(fs, ks[0])) + KeysCost(ks[1..], fs)
  }

  // ----- the length of what is printed -----

  lemma {:induction false} ItemsLength(xs: seq<Value>, ys: seq<Value>)
    requires xs != [] && |ys| == |xs| && forall i :: 0 <= i < |xs| ==> ys[i] == Norm(xs[i])
    ensures |PrintItems(ys, COMPACT)| + 1 == ItemsCost(xs)
  {
    if |xs| > 1 { ItemsLength(xs[1..], ys[1..]); }
  }

  lemma ArrayCost(v: Value)
    requires IsArray(v)
    ensures Cost(v) == if v.items == [] then 2 else 1 + ItemsCost(v.items)
  {
    if v.items == [] {
      assert Norm(v) == List([]) && PrintItems([], COMPACT) == "";
    } else {
      ItemsLength(v.items, Norm(v).items);
    }
  }

  lemma {:induction false} FieldsLength(ks: seq<string>, fs: seq<Field>, gs: seq<Field>)
    requires ks != [] && |gs| == |ks| && forall i :: 0 <= i < |ks| ==> ks[i] in Keys(fs)
    requires forall i :: 0 <= i < |ks| ==> gs[i] == Field(ks[i], Norm(Lookup(fs, ks[i])))
    ensures |PrintFields(gs, COMPACT)| + 1 == KeysCost(ks, fs)
  {
    if |ks| > 1 { FieldsLength(ks[1..], fs, gs[1..]); }
  }

  lemma {:induction false} KeysCostSplit(a: seq<string>, b: seq<string>, fs: seq<Field>)
    requires forall i :: 0 <= i < |a + b| ==> (a + b)[i] in Keys(fs)
    requires forall i :: 0 <= i < |a| ==> a[i] in Keys(fs)
    requires forall i :: 0 <= i < |b| ==> b[i] in Keys(fs)
    ensures KeysCost(a + b, fs) == KeysCost(a, fs) + KeysCost(b, fs)
  {
    if a == [] {
      assert a + b == b;
    } else {
      assert (a + b)[1..] == a[1..] + b;
      KeysCostSplit(a[1..], b, fs);
    }
  }

  lemma {:induction false} KeysCostRest(ks: seq<string>, fs: seq<Field>)
    requires fs != [] && forall i :: 0 <= i < |ks| ==> ks[i] in Keys(fs) && ks[i] != fs[0].key
    ensures forall i :: 0 <= i < |ks| ==> ks[i] in Keys(fs[1..])
    ensures KeysCost(ks, fs) == KeysCost(ks, fs[1..])
  {
    forall i | 0 <= i < |ks| ensures ks[i] in Keys(fs[1..]) && Lookup(fs, ks[i]) == Lookup(fs[1..], ks[i]) {
      assert fs == [fs[0]] + fs[1..];
    }
    if ks != [] { KeysCostRest(ks[1..], fs); }
  }

  ghost predicate Among(ks: seq<string>, fs: seq<Field>) {
    && (forall i :: 0 <= i < |ks| ==> ks[i] in Keys(fs))
    && forall i, j :: 0 <= i < j < |ks| ==> ks[i] != ks[j]
  }

  lemma WithoutOne(ks: seq<string>, j: nat) returns (a: seq<string>, b: seq<string>)
    requires j < |ks| && forall i, k :: 0 <= i < k < |ks| ==> ks[i] != ks[k]
    ensures ks == a + ([ks[j]] + b) && ks[j] !in a + b
    ensures forall i, k :: 0 <= i < k < |a + b| ==> (a + b)[i] != (a + b)[k]
  {
    a, b := ks[..j], ks[j + 1..];
  }

  lemma KeysCostFirst(k: string, b: seq<string>, fs: seq<Field>)
    requires k in Keys(fs) && forall i :: 0 <= i < |b| ==> b[i] in Keys(fs)
    ensures forall i :: 0 <= i < |[k] + b| ==> ([k] + b)[i] in Keys(fs)
    ensures KeysCost([k] + b, fs) == FieldCost(k, Lookup(fs, k)) + KeysCost(b, fs)
  {
    assert ([k] + b)[1..] == b;
  }

  lemma PartsIn(a: seq<string>, k: string, b: seq<string>, fs: seq<Field>)
    requires forall i :: 0 <= i < |a + ([k] + b)| ==> (a + ([k] + b))[i] in Keys(fs)
    ensures k in Keys(fs)
    ensures forall i :: 0 <= i < |a| ==> a[i] in Keys(fs)
    ensures forall i :: 0 <= i < |b| ==> b[i] in Keys(fs)
    ensures forall i :: 0 <= i < |a + b| ==> (a + b)[i] in Keys(fs)
  {
    var ks := a + ([k] + b);
    assert ks[|a|] == k && (forall i :: 0 <= i < |a| ==> a[i] == ks[i]);
    assert forall i :: 0 <= i < |b| ==> b[i] == ks[|a| + 1 + i];
  }

  // All the keys but the one at j.
  lemma KeysCostWithout(ks: seq<string>, fs: seq<Field>, j: nat) returns (rest: seq<string>)
    requires Among(ks, fs) && j < |ks|
    ensures Among(rest, fs) && ks[j] !in rest
    ensures KeysCost(ks, fs) == FieldCost(ks[j], Lookup(fs, ks[j])) + KeysCost(rest, fs)
  {
    var a, b := WithoutOne(ks, j);
    PartsIn(a, ks[j], b, fs);
    KeysCostFirst(ks[j], b, fs);
    KeysCostSplit(a, [ks[j]] + b, fs);
    KeysCostSplit(a, b, fs);
    rest := a + b;
  }

  // Distinct keys cost no more than all the fields.
  lemma {:induction false} KeysCostLeast(ks: seq<string>, fs: seq<Field>)
    requires Among(ks, fs)
    ensures KeysCost(ks, fs) <= FieldsCost(fs)
    decreases |fs|
  {
    if fs == [] {
      assert ks == [];
    } else if fs[0].key in ks {
      var j :| 0 <= j < |ks| && ks[j] == fs[0].key;
      var rest := KeysCostWithout(ks, fs, j);
      KeysCostRest(rest, fs);
      KeysCostLeast(rest, fs[1..]);
    } else {
      KeysCostRest(ks, fs);
      KeysCostLeast(ks, fs[1..]);
    }
  }

  lemma SortedAmong(fs: seq<Field>) returns (ks: seq<string>)
    ensures ks == SortedKeys(fs) && Among(ks, fs) && (fs != [] ==> ks != [])
  {
    ks := SortedKeys(fs);
    TextLessTotal();
    if fs != [] { assert fs[0].key in Keys(fs); }
  }

  lemma EmptyDictCost()
    ensures Cost(Dict([])) == 2
  {
    var ks := SortedAmong([]);
    assert ks == [];
    assert Norm(Dict([])) == Dict([]) && PrintFields([], COMPACT) == "";
  }

  lemma DictCost(fs: seq<Field>)
    requires fs != []
    ensures Cost(Dict(fs)) <= 1 + FieldsCost(fs)
  {
    var ks := SortedAmong(fs);
    NormFields(fs);
    FieldsLength(ks, fs, Norm(Dict(fs)).fields);
    KeysCostLeast(ks, fs);
  }

  lemma {:induction false} PutCost(fs: seq<Field>, k: string, v: Value)
    ensures FieldsCost(Put(fs, k, v)) <= FieldsCost(fs) + FieldCost(k, v)
  {
    if fs != [] && fs[0].key != k { PutCost(fs[1..], k, v); }
  }

  // ----- what the parser reads is at least that long -----

  lemma ReadCharCost(s: string)
    requires s != [] && s[0] != '\"' && ParseChar(s).Good?
    ensures |EscapeChar(ParseChar(s).value, false)| <= |s| - |ParseChar(s).rest|
  {
    var c := ParseChar(s).value;
    assert |EscapeChar(c, false)| <= 6;
    if s[0] == '\\' && s[1] == 'u' { assert |s| - |ParseChar(s).rest| >= 6; }
  }

  lemma {:induction false} ReadCharsCost(s: string)
    requires ParseChars(s).Good?
    ensures |Escape(ParseChars(s).value, false)| + 1 <= |s| - |ParseChars(s).rest|
    decreases |s|
  {
    if s[0] != '\"' {
      ReadCharCost(s);
      ReadCharsCost(ParseChar(s).rest);
      var c, cs := ParseChar(s).value, ParseChars(ParseChar(s).rest).value;
      assert ([c] + cs)[1..] == cs;
    }
  }

  lemma {:induction false} DigitsShortest(ds: string)
    requires ds != [] && forall i :: 0 <= i < |ds| ==> IsDigit(ds[i])
    ensures |Digits(NumberValue(ds))| <= |ds|
  {
    var n := |ds| - 1;
    if n > 0 {
      DigitsShortest(ds[..n]);
      var a, d := NumberValue(ds[..n]), DigitValue(ds[n]);
      assert (10 * a + d) / 10 == a && d < 10;
    } else {
      assert ds[..n] == [] && NumberValue([]) == 0;
    }
  }

  lemma {:induction false} RunIsDigits(s: string)
    ensures forall i :: 0 <= i < DigitRun(s) ==> IsDigit(s[i])
  {
    if s != [] && IsDigit(s[0]) { RunIsDigits(s[1..]); }
  }

  lemma ReadUnsignedCost(t: string)
    requires ParseUnsigned(t).Good?
    ensures var v := ParseUnsigned(t).value;
      (v.Int? && v.n >= 0 && |Digits(v.n)| <= |t| - |ParseUnsigned(t).rest|) ||
      (v.Float? && |v.repr| <= |t| - |ParseUnsigned(t).rest|)
  {
    var whole := if t[0] == '0' then 1 else DigitRun(t);
    RunIsDigits(t);
    DigitsShortest(t[..whole]);
  }

  lemma NegativeCost(n: int)
    requires n >= 0
    ensures Cost(Int(-n)) <= 1 + |Digits(n)|
    ensures Cost(Int(n)) == |Digits(n)|
  {
  }

  lemma ReadNegativeCost(s: string)
    requires s != [] && s[0] == '-' && ParseNumber(s).Good?
    ensures Cost(ParseNumber(s).value) <= |s| - |ParseNumber(s).rest|
  {
    ReadUnsignedCost(s[1..]);
    var v := ParseUnsigned(s[1..]).value;
    if v.Int? { NegativeCost(v.n); } else { assert Cost(Float("-" + v.repr)) == 1 + |v.repr|; }
  }

  lemma ReadNumericCost(s: string)
    requires ParseNumeric(s).Good?
    ensures Cost(ParseNumeric(s).value) <= |s| - |ParseNumeric(s).rest|
  {
    if ParseNumber(s).Good? {
      if s[0] == '-' {
        ReadNegativeCost(s);
      } else {
        ReadUnsignedCost(s);
        if ParseNumber(s).value.Int? { NegativeCost(ParseNumber(s).value.n); }
      }
    }
  }

  lemma {:induction false} ReadCost(s: string)
    requires ParseValue(s).Good?
    ensures Cost(ParseValue(s).value) <= |s| - |ParseValue(s).rest|
    decreases |s|, 1
  {
    if s[0] == '\"' {
      ReadCharsCost(s[1..]);
    } else if s[0] == '{' {
      var t := SkipSpace(s[1..]);
      if t != [] && t[0] == '}' {
        EmptyDictCost();
      } else {
        ReadMembersCost(t, []);
        DictCost(ParseMembers(t, []).value.fields);
      }
    } else if s[0] == '[' {
      var t := SkipSpace(s[1..]);
      if t != [] && t[0] == ']' {
        ArrayCost(List([]));
      } else {
        ReadElementsCost(t, []);
        var v := ParseElements(t, []).value;
        assert v.items[0..] == v.items;
        ArrayCost(v);
      }
    } else if IsDigit(s[0]) || s[0] == '-' {
      ReadNumericCost(s);
    }
  }

  lemma {:induction false} ReadElementsCost(s: string, acc: seq<Value>)
    requires ParseElements(s, acc).Good?
    ensures var r := ParseElements(s, acc);
      r.value.List? && acc < r.value.items && ItemsCost(r.value.items[|acc|..]) <= |s| - |r.rest|
    decreases |s|, 2
  {
    ReadCost(s);
    var v, t := ParseValue(s).value, SkipSpace(ParseValue(s).rest);
    if t[0] == ',' {
      ReadElementsCost(SkipSpace(t[1..]), acc + [v]);
      var items := ParseElements(s, acc).value.items;
      assert items[|acc|..][1..] == items[|acc| + 1..];
    } else {
      assert (acc + [v])[|acc|..] == [v];
    }
  }

  lemma {:induction false} ReadMembersCost(s: string, acc: seq<Field>)
    requires ParseMembers(s, acc).Good?
    ensures var r := ParseMembers(s, acc);
      r.value.Dict? && r.value.fields != [] && FieldsCost(r.value.fields) <= FieldsCost(acc) + |s| - |r.rest|
    decreases |s|, 2
  {
    ReadCharsCost(s[1..]);
    var k, t := ParseChars(s[1..]).value, SkipSpace(ParseChars(s[1..]).rest);
    var body := SkipSpace(t[1..]);
    ReadCost(body);
    var v, u := ParseValue(body).value, SkipSpace(ParseValue(body).rest);
    PutCost(acc, k, v);
    if u[0] == ',' { ReadMembersCost(SkipSpace(u[1..]), Put(acc, k, v)); }
  }

  // ----- the canonical text -----

  // No text that reads as the payload, up to key order and list or tuple, is shorter than the canonical one: there
  // is no space in it, and nothing is escaped that need not be.
  lemma CanonicalIsShortest(v: Value, s: string, w: Value)
    requires Canonicalize(v).Ok? && Loads(s) == Some(w) && Same(w, v)
    ensures |Canonicalize(v).value| <= |s|
  {
    SameIffNorm(w, v);
    ReadCost(SkipSpace(s));
  }

  // The keys of every object, at every depth, stand in code-point order: where two first differ, the earlier one
  // ends or has the lesser character.
  ghost predicate InKeyOrder(w: Value) {
    match w
    case List(xs) => forall i :: 0 <= i < |xs| ==> InKeyOrder(xs[i])
    case Tuple(xs) => forall i :: 0 <= i < |xs| ==> InKeyOrder(xs[i])
    case Dict(fs) =>
      && (forall i, j :: 0 <= i < j < |fs| ==> Precedes(fs[i].key, fs[j].key))
      && forall i :: 0 <= i < |fs| ==> InKeyOrder(fs[i].value)
    case _ => true
  }

  lemma {:induction false} NormInKeyOrder(v: Value)
    ensures InKeyOrder(Norm(v))
  {
    match v
    case List(xs) => forall i | 0 <= i < |xs| { NormInKeyOrder(xs[i]); }
    case Tuple(xs) => forall i | 0 <= i < |xs| { NormInKeyOrder(xs[i]); }
    case Dict(fs) =>
      var ks := SortedKeys(fs);
      NormFields(fs);
      forall i, j | 0 <= i < j < |ks| ensures Precedes(ks[i], ks[j]) { TextLessPrecedes(ks[i], ks[j]); }
      forall i | 0 <= i < |ks| { NormInKeyOrder(Lookup(fs, ks[i])); }
    case _ =>
  }

  // The payload's hash is taken of a shortest text that reads as the payload, its keys in code-point order.
  lemma HashedText(sha: string -> string, p: Value) returns (text: string, w: Value)
    requires FloatFree(p)
    ensures PayloadHash(sha, p) == Ok(sha(text)) && Canonicalize(p) == Ok(text)
    ensures Loads(text) == Some(w) && Same(w, p) && InKeyOrder(w)
    ensures forall s :: Loads(s).Some? && Same(Loads(s).value, p) ==> |text| <= |s|
  {
    CanonicalizeAccepts(p);
    LoadsDumps(p, COMPACT);
    NormIdempotent(p);
    SameIffNorm(Norm(p), p);
    NormInKeyOrder(p);
    text, w := Canonicalize(p).value, Norm(p);
    forall s | Loads(s).Some? && Same(Loads(s).value, p) ensures |text| <= |s| {
      CanonicalIsShortest(p, s, Loads(s).value);
    }
  }

  // The control characters without a short escape are written with lower-case digits.
  lemma ControlText(n: nat)
    requires n < 32 && n !in {8, 9, 10, 12, 13}
    ensures Canonicalize(Str([n as char])) ==
      Ok("\"\\u00" + [if n < 16 then '0' else '1', "0123456789abcdef"[n % 16]] + "\"")
  {
    var c, x, y := n as char, if n < 16 then '0' else '1', "0123456789abcdef"[n % 16];
    assert [c][1..] == [] && Escape([], false) == "";
    assert EscapeChar(c, false) == "\\u" + Hex4(n) && Hex4(n) == ['0', '0', x, y];
    assert "\\u" + ['0', '0', x, y] == "\\u00" + [x, y];
    assert Escape([c], false) == "\\u00" + [x, y] + "" == "\\u00" + [x, y];
    assert Canonicalize(Str([c])).value == "\"" + ("\\u00" + [x, y]) + "\"";
    assert "\"" + ("\\u00" + [x, y]) + "\"" == "\"\\u00" + [x, y] + "\"";
  }

  // ----- the canonical text in ASCII -----

  // Each character that is not printable ASCII as "\u" and four digits, or two such beyond the basic plane.
  ghost function Ascii(s: string): string {
    if s == [] then "" else (if s[0] as int < 127 then [s[0]] else EscapeUnicode(s[0] as int)) + Ascii(s[1..])
  }

  lemma {:induction false} AsciiAppend(a: string, b: string)
    ensures Ascii(a + b) == Ascii(a) + Ascii(b)
  {
    if a == [] {
      assert a + b == b;
    } else {
      assert (a + b)[1..] == a[1..] + b;
      AsciiAppend(a[1..], b);
    }
  }

  lemma {:induction false} AsciiAlready(s: string)
    requires forall i :: 0 <= i < |s| ==> s[i] as int < 127
    ensures Ascii(s) == s
  {
    if s != [] { AsciiAlready(s[1..]); }
  }

  lemma AsciiChar(c: char)
    ensures Ascii(EscapeChar(c, false)) == EscapeChar(c, true)
  {
    if c as int >= 127 {
      assert [c][1..] == [] && Ascii([c]) == EscapeUnicode(c as int) + "";
    } else {
      AsciiAlready(EscapeChar(c, false));
    }
  }

  lemma {:induction false} AsciiEscape(s: string)
    ensures Ascii(Escape(s, false)) == Escape(s, true)
  {
    if s != [] {
      AsciiChar(s[0]);
      AsciiEscape(s[1..]);
      AsciiAppend(EscapeChar(s[0], false), Escape(s[1..], false));
    }
  }

  lemma AsciiQuote(s: string)
    ensures Ascii(Quote(s, false)) == Quote(s, true)
  {
    AsciiEscape(s);
    AsciiAlready("\"");
    AsciiAppend("\"" + Escape(s, false), "\"");
    AsciiAppend("\"", Escape(s, false));
  }

  lemma AsciiBetween(a: string, s: string, b: string)
    requires a != [] && |a| == 1 && |b| == 1 && a[0] as int < 127 && b[0] as int < 127
    ensures Ascii(a + s + b) == a + Ascii(s) + b
  {
    AsciiAlready(a);
    AsciiAlready(b);
    AsciiAppend(a + s, b);
    AsciiAppend(a, s);
  }

  lemma AsciiDecimal(n: int)
    ensures Ascii(Decimal(n)) == Decimal(n)
  {
    DigitsRead(if n < 0 then -n else n);
    AsciiAlready(Decimal(n));
  }

  lemma {:induction false} AsciiPrint(v: Value)
    requires FloatFree(v)
    ensures Ascii(Print(v, COMPACT)) == Print(v, COMPACT_ASCII)
    decreases v, 0
  {
    match v
    case Null => AsciiAlready("null");
    case Bool(b) => AsciiAlready(if b then "true" else "false");
    case Int(n) => AsciiDecimal(n);
    case Str(s) => AsciiQuote(s);
    case List(xs) => AsciiItems(xs); AsciiBetween("[", PrintItems(xs, COMPACT), "]");
    case Tuple(xs) => AsciiItems(xs); AsciiBetween("[", PrintItems(xs, COMPACT), "]");
    case Dict(fs) => AsciiFields(fs); AsciiBetween("{", PrintFields(fs, COMPACT), "}");
  }

  lemma AsciiJoin(a: string, b: string, c: string)
    requires |b| == 1 && b[0] as int < 127
    ensures Ascii(a + b + c) == Ascii(a) + b + Ascii(c)
  {
    AsciiAlready(b);
    AsciiAppend(a + b, c);
    AsciiAppend(a, b);
  }

  lemma {:induction false} AsciiItems(xs: seq<Value>)
    requires forall i :: 0 <= i < |xs| ==> FloatFree(xs[i])
    ensures Ascii(PrintItems(xs, COMPACT)) == PrintItems(xs, COMPACT_ASCII)
    decreases xs
  {
    if xs != [] { AsciiPrint(xs[0]); }
    if |xs| > 1 {
      AsciiItems(xs[1..]);
      AsciiJoin(Print(xs[0], COMPACT), ",", PrintItems(xs[1..], COMPACT));
    }
  }

  lemma {:induction false} AsciiFields(fs: seq<Field>)
    requires forall i :: 0 <= i < |fs| ==> FloatFree(fs[i].value)
    ensures Ascii(PrintFields(fs, COMPACT)) == PrintFields(fs, COMPACT_ASCII)
    decreases fs
  {
    if fs != [] {
      AsciiQuote(fs[0].key);
      AsciiPrint(fs[0].value);
      AsciiJoin(Quote(fs[0].key, false), ":", Print(fs[0].value, COMPACT));
    }
    if |fs| > 1 {
      AsciiFields(fs[1..]);
      AsciiJoin(PrintField(fs[0], COMPACT), ",", PrintFields(fs[1..], COMPACT));
    }
  }

  // json.dumps with ensure_ascii is the canonical text with its other characters escaped.
  lemma AsciiText(v: Value)
    requires FloatFree(v)
    ensures Canonicalize(v).Ok? && Dumps(v, COMPACT_ASCII) == Ascii(Canonicalize(v).value)
  {
    CanonicalizeAccepts(v);
    NormFloatFree(v);
    AsciiPrint(Norm(v));
  }
}
