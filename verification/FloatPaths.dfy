// The path that canonicalize_json reports when it refuses a payload: it leads to a float, and to the first one.
module FloatPaths {
  import opened Json
  import opened Wrappers

  function Child(v: Value, i: nat): Option<Value> {
    if IsArray(v) && i < |v.items| then Some(v.items[i])
    else if v.Dict? && i < |v.fields| then Some(v.fields[i].value)
    else None
  }

  // Taking child q[0], then its child q[1], and so on, ends at a float.
  ghost predicate FloatAt(v: Value, q: seq<nat>)
    decreases |q|
  {
    if q == [] then v.Float? else Child(v, q[0]).Some? && FloatAt(Child(v, q[0]).value, q[1..])
  }

  // The way there, as it is written: a key behind a dot, a position in brackets.
  ghost function PathText(v: Value, q: seq<nat>): string
    requires FloatAt(v, q)
    decreases |q|
  {
    if q == [] then "" else
      (if v.Dict? then "." + v.fields[q[0]].key else "[" + Decimal(q[0]) + "]")
      + PathText(Child(v, q[0]).value, q[1..])
  }

  predicate NotAfter(a: seq<nat>, b: seq<nat>)
    decreases |a|
  {
    a == [] || (b != [] && (a[0] < b[0] || (a[0] == b[0] && NotAfter(a[1..], b[1..]))))
  }

  lemma {:induction false} NoFloatAt(v: Value, q: seq<nat>)
    requires FloatFree(v)
    ensures !FloatAt(v, q)
    decreases |q|
  {
    if q != [] && Child(v, q[0]).Some? { NoFloatAt(Child(v, q[0]).value, q[1..]); }
  }

  // From child i on.
  ghost predicate Reports(v: Value, i: nat, path: string, q: seq<nat>, text: string) {
    && FloatAt(v, q) && text == path + PathText(v, q)
    && forall p :: FloatAt(v, p) && (p != [] ==> i <= p[0]) ==> NotAfter(q, p)
  }

  lemma ChildReports(v: Value, i: nat, path: string, name: string, rest: seq<nat>, text: string)
    requires Child(v, i).Some? && Reports(Child(v, i).value, 0, path + name, rest, text)
    requires name == if v.Dict? then "." + v.fields[i].key else "[" + Decimal(i) + "]"
    ensures Reports(v, i, path, [i] + rest, text)
  {
    var q := [i] + rest;
    assert q[1..] == rest;
    assert PathText(v, q) == name + PathText(Child(v, i).value, rest);
    forall p | FloatAt(v, p) && (p != [] ==> i <= p[0]) ensures NotAfter(q, p) {
      if p[0] == i { assert FloatAt(Child(v, i).value, p[1..]); }
    }
  }

  lemma ChildSkipped(v: Value, i: nat, path: string, q: seq<nat>, text: string)
    requires Child(v, i).Some? && FloatFree(Child(v, i).value) && Reports(v, i + 1, path, q, text)
    ensures Reports(v, i, path, q, text)
  {
    forall p | FloatAt(v, p) && (p != [] ==> i <= p[0]) ensures NotAfter(q, p) {
      if p != [] && p[0] == i { NoFloatAt(Child(v, i).value, p[1..]); }
    }
  }

  lemma {:induction false} FirstFloatReports(v: Value, path: string) returns (q: seq<nat>)
    requires FirstFloat(v, path).Some?
    ensures Reports(v, 0, path, q, FirstFloat(v, path).value)
    decreases v, 0
  {
    match v
    case Float(_) => q := []; assert path + "" == path;
    case List(xs) => q := ItemReports(v, xs, 0, path);
    case Tuple(xs) => q := ItemReports(v, xs, 0, path);
    case Dict(fs) => q := FieldReports(v, fs, 0, path);
  }

  lemma {:induction false} ItemReports(v: Value, xs: seq<Value>, i: nat, path: string) returns (q: seq<nat>)
    requires IsArray(v) && i <= |v.items| && xs == v.items[i..] && FirstFloatItem(xs, i, path).Some?
    ensures Reports(v, i, path, q, FirstFloatItem(xs, i, path).value)
    decreases xs
  {
    var name := "[" + Decimal(i) + "]";
    assert path + "[" + Decimal(i) + "]" == path + name;
    FirstFloatIff(xs[0], path + name);
    if FirstFloat(xs[0], path + name).Some? {
      var rest := FirstFloatReports(xs[0], path + name);
      ChildReports(v, i, path, name, rest, FirstFloat(xs[0], path + name).value);
      q := [i] + rest;
    } else {
      q := ItemReports(v, xs[1..], i + 1, path);
      ChildSkipped(v, i, path, q, FirstFloatItem(xs, i, path).value);
    }
  }

  lemma {:induction false} FieldReports(v: Value, fs: seq<Field>, i: nat, path: string) returns (q: seq<nat>)
    requires v.Dict? && i <= |v.fields| && fs == v.fields[i..] && FirstFloatField(fs, path).Some?
    ensures Reports(v, i, path, q, FirstFloatField(fs, path).value)
    decreases fs
  {
    var name := "." + fs[0].key;
    assert path + "." + fs[0].key == path + name;
    FirstFloatIff(fs[0].value, path + name);
    if FirstFloat(fs[0].value, path + name).Some? {
      var rest := FirstFloatReports(fs[0].value, path + name);
      ChildReports(v, i, path, name, rest, FirstFloat(fs[0].value, path + name).value);
      q := [i] + rest;
    } else {
      q := FieldReports(v, fs[1..], i + 1, path);
      ChildSkipped(v, i, path, q, FirstFloatField(fs, path).value);
    }
  }

  // A refused payload's error names the first of its floats, in the order of iteration.
  lemma RefusalNamesFirstFloat(v: Value) returns (q: seq<nat>)
    requires Canonicalize(v).Err?
    ensures FloatAt(v, q) && Canonicalize(v).error == "$" + PathText(v, q)
    ensures forall p :: FloatAt(v, p) ==> NotAfter(q, p)
  {
    q := FirstFloatReports(v, "$");
  }
}
