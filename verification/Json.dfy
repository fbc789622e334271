// JSON values as Python holds them, json.dumps, and the canonical form that identifies a payload.
module Json {
  import opened Order
  import opened Wrappers

  // A dict keeps its insertion order, which json.dumps(sort_keys=True) then ignores. A float is held by
  // the text repr() gives it; Python's True and 1 are different values here, as they are to json.dumps.
  datatype Value =
    | Null
    | Bool(b: bool)
    | Int(n: int)
    | Float(repr: string)
    | Str(text: string)
    | List(items: seq<Value>)
    | Tuple(items: seq<Value>)
    | Dict(fields: seq<Field>)

  datatype Field = Field(key: string, value: Value)

  // json.dumps's separators and its ensure_ascii.
  datatype Style = Style(item: string, key: string, ascii: bool)

  const COMPACT := Style(",", ":", false)
  const SPACED := Style(", ", ": ", false)
  const COMPACT_ASCII := Style(",", ":", true)

  predicate IsArray(v: Value) { v.List? || v.Tuple? }

  // ----- reading a dict -----

  function Keys(fs: seq<Field>): set<string> {
    set f | f in fs :: f.key
  }

  function Lookup(fs: seq<Field>, k: string): (v: Value)
    requires k in Keys(fs)
    ensures Field(k, v) in fs
  {
    if fs[0].key == k then fs[0].value
    else
      assert fs == [fs[0]] + fs[1..];
      Lookup(fs[1..], k)
  }

  // payload.get(k)
  function Get(v: Value, k: string): Option<Value> {
    if v.Dict? && k in Keys(v.fields) then Some(Lookup(v.fields, k)) else None
  }

  ghost predicate DistinctFields(fs: seq<Field>) {
    forall i, j :: 0 <= i < j < |fs| ==> fs[i].key != fs[j].key
  }

  lemma {:induction false} GetAt(fs: seq<Field>, i: nat)
    requires DistinctFields(fs) && i < |fs|
    ensures Get(Dict(fs), fs[i].key) == Some(fs[i].value)
  {
    assert fs[i] in fs;
    var v := Lookup(fs, fs[i].key);
    var j :| 0 <= j < |fs| && fs[j] == Field(fs[i].key, v);
  }

  // ----- the sorted, tuple-free form that json.dumps(sort_keys=True) prints -----

  function SortedKeys(fs: seq<Field>): (ks: seq<string>)
    ensures Increasing(TextLess, ks)
    ensures forall k :: k in ks <==> k in Keys(fs)
  {
    TextLessTotal();
    Sorted(TextLess, Keys(fs))
  }

  function Norm(v: Value): Value {
    match v
    case List(xs) => List(seq(|xs|, i requires 0 <= i < |xs| => Norm(xs[i])))
    case Tuple(xs) => List(seq(|xs|, i requires 0 <= i < |xs| => Norm(xs[i])))
    case Dict(fs) =>
      var ks := SortedKeys(fs);
      Dict(seq(|ks|, i requires 0 <= i < |ks| => Field(ks[i], Norm(Lookup(fs, ks[i])))))
    case _ => v
  }

  // ----- printing -----

  function Digit(d: nat): char
    requires d < 10
  {
    "0123456789"[d]
  }

  function Digits(n: nat): (s: string)
    ensures s != []
  {
    if n < 10 then [Digit(n)] else Digits(n / 10) + [Digit(n % 10)]
  }

  function Decimal(n: int): string {
    if n < 0 then "-" + Digits(-n) else Digits(n)
  }

  function HexDigit(d: nat): char
    requires d < 16
  {
    "0123456789abcdef"[d]
  }

  function Hex4(n: nat): string
    requires n < 0x1_0000
  {
    [HexDigit(n / 0x1000), HexDigit(n / 0x100 % 16), HexDigit(n / 16 % 16), HexDigit(n % 16)]
  }

  // "\u" and four digits; beyond the basic plane, a surrogate pair.
  function EscapeUnicode(n: nat): string
    requires n < 0x11_0000
  {
    if n < 0x1_0000 then "\\u" + Hex4(n)
    else "\\u" + Hex4(0xD800 + (n - 0x1_0000) / 0x400) + ("\\u" + Hex4(0xDC00 + (n - 0x1_0000) % 0x400))
  }

  // The quote, the backslash and the control characters are escaped; with ensure_ascii also all that is not
  // printable ASCII.
  function EscapeChar(c: char, ascii: bool): string {
    if c == '\"' then "\\\""
    else if c == '\\' then "\\\\"
    else if c == '\n' then "\\n"
    else if c == '\r' then "\\r"
    else if c == '\t' then "\\t"
    else if c as int == 8 then "\\b"
    else if c as int == 12 then "\\f"
    else if c as int < 32 || (ascii && c as int >= 127) then EscapeUnicode(c as int)
    else [c]
  }

  function Escape(s: string, ascii: bool): string {
    if s == [] then "" else EscapeChar(s[0], ascii) + Escape(s[1..], ascii)
  }

  function Quote(s: string, ascii: bool): string {
    "\"" + Escape(s, ascii) + "\""
  }

  function Print(v: Value, st: Style): string
    decreases v, 0
  {
    match v
    case Null => "null"
    case Bool(b) => if b then "true" else "false"
    case Int(n) => Decimal(n)
    case Float(repr) => repr
    case Str(s) => Quote(s, st.ascii)
    case List(xs) => "[" + PrintItems(xs, st) + "]"
    case Tuple(xs) => "[" + PrintItems(xs, st) + "]"
    case Dict(fs) => "{" + PrintFields(fs, st) + "}"
  }

  function PrintItems(xs: seq<Value>, st: Style): string
    decreases xs
  {
    if xs == [] then ""
    else if |xs| == 1 then Print(xs[0], st)
    else Print(xs[0], st) + st.item + PrintItems(xs[1..], st)
  }

  function PrintField(f: Field, st: Style): string
    decreases f, 1
  {
    Quote(f.key, st.ascii) + st.key + Print(f.value, st)
  }

  function PrintFields(fs: seq<Field>, st: Style): string
    decreases fs
  {
    if fs == [] then ""
    else if |fs| == 1 then PrintField(fs[0], st)
    else PrintField(fs[0], st) + st.item + PrintFields(fs[1..], st)
  }

  // json.dumps(v, sort_keys=True, ...)
  function Dumps(v: Value, st: Style): string {
    Print(Norm(v), st)
  }

  // ----- floats -----

  ghost predicate FloatFree(v: Value) {
    match v
    case Float(_) => false
    case List(xs) => forall i :: 0 <= i < |xs| ==> FloatFree(xs[i])
    case Tuple(xs) => forall i :: 0 <= i < |xs| ==> FloatFree(xs[i])
    case Dict(fs) => forall i :: 0 <= i < |fs| ==> FloatFree(fs[i].value)
    case _ => true
  }

  // The path of the first float met in iteration order, as _check_no_floats reports it.
  function FirstFloat(v: Value, path: string): Option<string>
    decreases v, 0
  {
    match v
    case Float(_) => Some(path)
    case List(xs) => FirstFloatItem(xs, 0, path)
    case Tuple(xs) => FirstFloatItem(xs, 0, path)
    case Dict(fs) => FirstFloatField(fs, path)
    case _ => None
  }

  function FirstFloatItem(xs: seq<Value>, i: nat, path: string): Option<string>
    decreases xs
  {
    if xs == [] then None else
      var first := FirstFloat(xs[0], path + "[" + Decimal(i) + "]");
      if first.Some? then first else FirstFloatItem(xs[1..], i + 1, path)
  }

  function FirstFloatField(fs: seq<Field>, path: string): Option<string>
    decreases fs
  {
    if fs == [] then None else
      var first := FirstFloat(fs[0].value, path + "." + fs[0].key);
      if first.Some? then first else FirstFloatField(fs[1..], path)
  }

  // canonicalize_json: the canonical text, or the path of a float.
  function Canonicalize(v: Value): Result<string, string> {
    match FirstFloat(v, "$")
    case Some(path) => Err(path)
    case None => Ok(Dumps(v, COMPACT))
  }

  lemma {:induction false} FirstFloatIff(v: Value, path: string)
    ensures FirstFloat(v, path).None? <==> FloatFree(v)
    decreases v, 0
  {
    match v
    case List(xs) => FirstFloatItemIff(xs, 0, path);
    case Tuple(xs) => FirstFloatItemIff(xs, 0, path);
    case Dict(fs) => FirstFloatFieldIff(fs, path);
    case _ =>
  }

  lemma {:induction false} FirstFloatItemIff(xs: seq<Value>, i: nat, path: string)
    ensures FirstFloatItem(xs, i, path).None? <==> forall j :: 0 <= j < |xs| ==> FloatFree(xs[j])
    decreases xs
  {
    if xs != [] {
      FirstFloatIff(xs[0], path + "[" + Decimal(i) + "]");
      FirstFloatItemIff(xs[1..], i + 1, path);
      assert xs == [xs[0]] + xs[1..];
    }
  }

  lemma {:induction false} FirstFloatFieldIff(fs: seq<Field>, path: string)
    ensures FirstFloatField(fs, path).None? <==> forall j :: 0 <= j < |fs| ==> FloatFree(fs[j].value)
    decreases fs
  {
    if fs != [] {
      FirstFloatIff(fs[0].value, path + "." + fs[0].key);
      FirstFloatFieldIff(fs[1..], path);
      assert fs == [fs[0]] + fs[1..];
    }
  }

  lemma CanonicalizeAccepts(v: Value)
    ensures Canonicalize(v).Ok? <==> FloatFree(v)
  {
    FirstFloatIff(v, "$");
  }

  // ----- equality up to key order and list/tuple, at every depth -----

  ghost predicate Same(a: Value, b: Value) {
    if a.Dict? && b.Dict? then
      && Keys(a.fields) == Keys(b.fields)
      && forall k :: k in Keys(a.fields) ==> Same(Lookup(a.fields, k), Lookup(b.fields, k))
    else if IsArray(a) && IsArray(b) then
      && |a.items| == |b.items|
      && forall i :: 0 <= i < |a.items| ==> Same(a.items[i], b.items[i])
    else a == b
  }

  lemma NormFields(fs: seq<Field>)
    ensures Norm(Dict(fs)).Dict? && |Norm(Dict(fs)).fields| == |SortedKeys(fs)|
    ensures forall i :: 0 <= i < |SortedKeys(fs)| ==>
      Norm(Dict(fs)).fields[i] == Field(SortedKeys(fs)[i], Norm(Lookup(fs, SortedKeys(fs)[i])))
  {
  }

  lemma NormKeySet(fs: seq<Field>)
    ensures Norm(Dict(fs)).Dict? && Keys(Norm(Dict(fs)).fields) == Keys(fs)
  {
    NormFields(fs);
    var gs := Norm(Dict(fs)).fields;
    var ks := SortedKeys(fs);
    forall k | k in Keys(fs) ensures k in Keys(gs) {
      var i :| 0 <= i < |ks| && ks[i] == k;
      assert gs[i] in gs && gs[i].key == k;
    }
    forall k | k in Keys(gs) ensures k in Keys(fs) {
      var i :| 0 <= i < |gs| && gs[i].key == k;
    }
  }

  lemma NormKeys(fs: seq<Field>)
    ensures Norm(Dict(fs)).Dict? && Keys(Norm(Dict(fs)).fields) == Keys(fs)
    ensures forall k :: k in Keys(fs) ==> Lookup(Norm(Dict(fs)).fields, k) == Norm(Lookup(fs, k))
  {
    NormFields(fs);
    NormKeySet(fs);
    var gs := Norm(Dict(fs)).fields;
    forall k | k in Keys(fs) ensures Lookup(gs, k) == Norm(Lookup(fs, k)) {
      var i :| 0 <= i < |gs| && gs[i] == Field(k, Lookup(gs, k));
    }
  }

  lemma {:induction false} SameIffNorm(a: Value, b: Value)
    ensures Norm(a) == Norm(b) <==> Same(a, b)
    decreases a, 1
  {
    if a.Dict? && b.Dict? {
      SameDicts(a, b);
    } else if IsArray(a) && IsArray(b) {
      SameArrays(a, b);
    }
  }

  lemma {:induction false} SameDicts(a: Value, b: Value)
    requires a.Dict? && b.Dict?
    ensures Norm(a) == Norm(b) <==> Same(a, b)
    decreases a, 0
  {
    NormKeys(a.fields);
    NormKeys(b.fields);
    if Keys(a.fields) == Keys(b.fields) {
      forall k | k in Keys(a.fields) {
        SameIffNorm(Lookup(a.fields, k), Lookup(b.fields, k));
      }
      if Same(a, b) {
        assert SortedKeys(a.fields) == SortedKeys(b.fields);
        assert Norm(a).fields == Norm(b).fields;
      }
    }
  }

  lemma {:induction false} SameArrays(a: Value, b: Value)
    requires IsArray(a) && IsArray(b)
    ensures Norm(a) == Norm(b) <==> Same(a, b)
    decreases a, 0
  {
    var xs, ys := Norm(a).items, Norm(b).items;
    if |a.items| == |b.items| {
      forall i | 0 <= i < |a.items| {
        SameIffNorm(a.items[i], b.items[i]);
      }
      assert forall i :: 0 <= i < |a.items| ==> xs[i] == Norm(a.items[i]) && ys[i] == Norm(b.items[i]);
    }
  }

  lemma {:induction false} NormIdempotent(v: Value)
    ensures Norm(Norm(v)) == Norm(v)
  {
    match v
    case List(xs) => forall i | 0 <= i < |xs| { NormIdempotent(xs[i]); }
    case Tuple(xs) => forall i | 0 <= i < |xs| { NormIdempotent(xs[i]); }
    case Dict(fs) =>
      forall k | k in Keys(fs) ensures Norm(Norm(Lookup(fs, k))) == Norm(Lookup(fs, k)) {
        NormIdempotent(Lookup(fs, k));
      }
      NormTwice(fs);
    case _ =>
  }

  lemma NormTwice(fs: seq<Field>)
    requires forall k :: k in Keys(fs) ==> Norm(Norm(Lookup(fs, k))) == Norm(Lookup(fs, k))
    ensures Norm(Norm(Dict(fs))) == Norm(Dict(fs))
  {
    NormKeys(fs);
    NormFields(fs);
    var gs := Norm(Dict(fs)).fields;
    NormFields(gs);
    var ks := SortedKeys(fs);
    assert ks == SortedKeys(gs);
    forall i | 0 <= i < |ks| ensures Norm(Dict(gs)).fields[i] == gs[i] { assert ks[i] in Keys(fs); }
    assert Norm(Dict(gs)).fields == gs;
  }

  lemma {:induction false} NormFloatFree(v: Value)
    requires FloatFree(v)
    ensures FloatFree(Norm(v))
  {
    match v
    case List(xs) => forall i | 0 <= i < |xs| { NormFloatFree(xs[i]); }
    case Tuple(xs) => forall i | 0 <= i < |xs| { NormFloatFree(xs[i]); }
    case Dict(fs) =>
      var ks := SortedKeys(fs);
      forall i | 0 <= i < |ks| { NormFloatFree(Lookup(fs, ks[i])); }
    case _ =>
  }
}
