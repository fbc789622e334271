// Running a step that may fail over a list: at once, or in batches that are kept one by one.
module Folding {
  import opened Wrappers

  function Fold<S, E, X>(step: (S, E) -> Result<S, X>, s: S, es: seq<E>): Result<S, X>
    decreases |es|
  {
    if es == [] then Ok(s) else
      match step(s, es[0])
      case Err(x) => Err(x)
      case Ok(s') => Fold(step, s', es[1..])
  }

  // The state after the last batch that went through, and the error of the first that did not.
  function Batched<S, E, X>(step: (S, E) -> Result<S, X>, s: S, es: seq<E>, b: nat): (S, Option<X>)
    requires b > 0
    decreases |es|
  {
    if es == [] then (s, None) else
      var n := if b < |es| then b else |es|;
      match Fold(step, s, es[..n])
      case Err(x) => (s, Some(x))
      case Ok(s') => Batched(step, s', es[n..], b)
  }

  lemma FoldCons<S, E, X>(step: (S, E) -> Result<S, X>, s: S, es: seq<E>)
    requires es != []
    ensures var r := step(s, es[0]);
      Fold(step, s, es) == if r.Err? then Err(r.error) else Fold(step, r.value, es[1..])
  {
  }

  lemma BatchedCons<S, E, X>(step: (S, E) -> Result<S, X>, s: S, es: seq<E>, b: nat, n: nat)
    requires b > 0 && es != [] && n == if b < |es| then b else |es|
    ensures var r := Fold(step, s, es[..n]);
      Batched(step, s, es, b) == if r.Err? then (s, Some(r.error)) else Batched(step, r.value, es[n..], b)
  {
  }

  lemma {:induction false} FoldAppend<S, E, X>(step: (S, E) -> Result<S, X>, s: S, a: seq<E>, b: seq<E>)
    ensures var r := Fold(step, s, a);
      Fold(step, s, a + b) == if r.Err? then Err(r.error) else Fold(step, r.value, b)
    decreases |a|
  {
    if a == [] {
      assert a + b == b;
    } else {
      assert (a + b)[0] == a[0] && (a + b)[1..] == a[1..] + b;
      match step(s, a[0])
      case Err(_) =>
      case Ok(s') => FoldAppend(step, s', a[1..], b);
    }
  }

  lemma FoldSplit<S, E, X>(step: (S, E) -> Result<S, X>, s: S, es: seq<E>, n: nat, k: nat)
    requires n <= k <= |es|
    ensures var r := Fold(step, s, es[..n]);
      Fold(step, s, es[..k]) == if r.Err? then Err(r.error) else Fold(step, r.value, es[n..][..k - n])
  {
    assert es[..k] == es[..n] + es[n..][..k - n];
    FoldAppend(step, s, es[..n], es[n..][..k - n]);
  }

  lemma FoldSnoc<S, E, X>(step: (S, E) -> Result<S, X>, s: S, es: seq<E>, e: E)
    ensures var r := Fold(step, s, es);
      Fold(step, s, es + [e]) == if r.Err? then r else step(r.value, e)
  {
    FoldAppend(step, s, es, [e]);
    if Fold(step, s, es).Ok? { FoldCons(step, Fold(step, s, es).value, [e]); }
  }

  // Batches keep a prefix of the items: all of them unless an error stops them.
  lemma {:induction false} BatchedKeepsPrefix<S, E, X>(step: (S, E) -> Result<S, X>, s: S, es: seq<E>, b: nat)
    returns (k: nat)
    requires b > 0
    ensures k <= |es| && Fold(step, s, es[..k]) == Ok(Batched(step, s, es, b).0)
    ensures Batched(step, s, es, b).1.None? ==> k == |es|
    decreases |es|
  {
    if es == [] {
      k := 0;
    } else {
      var n := if b < |es| then b else |es|;
      BatchedCons(step, s, es, b, n);
      var r := Fold(step, s, es[..n]);
      if r.Err? {
        assert es[..0] == [];
        k := 0;
      } else {
        var rest := BatchedKeepsPrefix(step, r.value, es[n..], b);
        k := n + rest;
        FoldSplit(step, s, es, n, k);
      }
    }
  }

  // The number of items in the full batches before index i.
  function Whole(i: nat, b: nat): (n: nat)
    requires b > 0
    ensures n <= i
  {
    if i < b then 0 else b + Whole(i - b, b)
  }

  lemma {:induction false} WholeIsProduct(i: nat, b: nat)
    requires b > 0
    ensures Whole(i, b) == (i / b) * b
  {
    if i >= b {
      WholeIsProduct(i - b, b);
      DivideOff(i, b, (i - b) / b, (i - b) % b);
    }
  }

  lemma MulLe(x: int, y: int, b: nat)
    requires x <= y
    ensures x * b <= y * b
  {
    assert (y - x) * b >= 0;
  }

  lemma QuotientUnique(b: nat, q: int, r: int, q': int, r': int)
    requires q * b + r == q' * b + r' && 0 <= r < b && 0 <= r' < b
    ensures q == q'
  {
    if q < q' { MulLe(q + 1, q', b); }
    if q' < q { MulLe(q' + 1, q, b); }
  }

  lemma DivideOff(i: nat, b: nat, q: nat, r: nat)
    requires 0 < b && i - b == q * b + r && r < b
    ensures (i / b) * b == q * b + b
  {
    assert (q + 1) * b == q * b + b;
    QuotientUnique(b, i / b, i % b, q + 1, r);
  }

  lemma {:induction false} FailureKeepsWhole<S, E, X>(step: (S, E) -> Result<S, X>, s: S, es: seq<E>, b: nat, i: nat,
                                                      x: X)
    returns (kept: S)
    requires b > 0 && i < |es|
    requires Fold(step, s, es[..i]).Ok? && Fold(step, s, es[..i + 1]) == Err(x)
    ensures Fold(step, s, es[..Whole(i, b)]) == Ok(kept)
    ensures Batched(step, s, es, b) == (kept, Some(x))
    decreases |es|
  {
    var n := if b < |es| then b else |es|;
    if i < b {
      assert es[..0] == [];
      kept := s;
      FoldSplit(step, s, es, i + 1, n);
    } else {
      FoldSplit(step, s, es, b, i);
      FoldSplit(step, s, es, b, i + 1);
      FoldSplit(step, s, es, b, Whole(i, b));
      kept := FailureKeepsWhole(step, Fold(step, s, es[..b]).value, es[b..], b, i - b, x);
    }
  }

  // If item i is the first to fail, everything before its batch is kept and nothing of its batch is.
  lemma FirstFailureKeeps<S, E, X>(step: (S, E) -> Result<S, X>, s: S, es: seq<E>, b: nat, i: nat, x: X)
    returns (kept: S)
    requires b > 0 && i < |es|
    requires Fold(step, s, es[..i]).Ok? && Fold(step, s, es[..i + 1]) == Err(x)
    ensures 0 <= (i / b) * b <= i
    ensures Fold(step, s, es[..(i / b) * b]) == Ok(kept)
    ensures Batched(step, s, es, b) == (kept, Some(x))
  {
    WholeIsProduct(i, b);
    kept := FailureKeepsWhole(step, s, es, b, i, x);
  }
}
