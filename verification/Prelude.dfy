/** Small vocabulary shared by the other modules. */
module Prelude {

  datatype Option<+T> = None | Some(value: T)

  /** A call that either returns a value or raises, as the source's exceptions do. */
  datatype Outcome<+T> = Ok(value: T) | Raised

  function MinReal(a: real, b: real): real {
    if a <= b then a else b
  }

  function MaxReal(a: real, b: real): real {
    if a >= b then a else b
  }

  function MinInt(a: int, b: int): int {
    if a <= b then a else b
  }

  function MaxInt(a: int, b: int): int {
    if a >= b then a else b
  }

  /** How many entries of `xs` lie in the closed window from `lo` to `hi`. */
  function CountIn(xs: seq<real>, lo: real, hi: real): nat {
    if xs == [] then 0
    else CountIn(xs[..|xs| - 1], lo, hi) + (if lo <= xs[|xs| - 1] <= hi then 1 else 0)
  }

  lemma {:induction false} CountInExact(xs: seq<real>, lo: real, hi: real)
    ensures CountIn(xs, lo, hi) == |set i | 0 <= i < |xs| && lo <= xs[i] <= hi|
  {
    if xs != [] {
      var n := |xs| - 1;
      CountInExact(xs[..n], lo, hi);
      var before := set i | 0 <= i < |xs[..n]| && lo <= xs[..n][i] <= hi;
      assert (set i | 0 <= i < |xs| && lo <= xs[i] <= hi) == before + if lo <= xs[n] <= hi then {n} else {};
    }
  }

  lemma {:induction false} CountInSplit(xs: seq<real>, ys: seq<real>, lo: real, hi: real)
    ensures CountIn(xs + ys, lo, hi) == CountIn(xs, lo, hi) + CountIn(ys, lo, hi)
  {
    if ys == [] {
      assert xs + ys == xs;
    } else {
      var zs := xs + ys;
      assert zs[..|zs| - 1] == xs + ys[..|ys| - 1];
      CountInSplit(xs, ys[..|ys| - 1], lo, hi);
    }
  }

  lemma {:induction false} CountInNone(xs: seq<real>, lo: real, hi: real)
    requires forall i :: 0 <= i < |xs| ==> xs[i] < lo || xs[i] > hi
    ensures CountIn(xs, lo, hi) == 0
  {
    if xs != [] {
      CountInNone(xs[..|xs| - 1], lo, hi);
    }
  }

  lemma {:induction false} CountInAll(xs: seq<real>, lo: real, hi: real)
    requires forall i :: 0 <= i < |xs| ==> lo <= xs[i] <= hi
    ensures CountIn(xs, lo, hi) == |xs|
  {
    if xs != [] {
      CountInAll(xs[..|xs| - 1], lo, hi);
    }
  }

  /** A window that holds anything is spanned by two of its own entries, which bound its count. */
  lemma {:induction false} WindowSpan(xs: seq<real>, lo: real, hi: real) returns (first: nat, last: nat)
    requires CountIn(xs, lo, hi) > 0
    ensures first <= last < |xs|
    ensures lo <= xs[first] && xs[last] <= hi
    ensures CountIn(xs, lo, hi) <= last - first + 1
  {
    var n := |xs| - 1;
    var init := xs[..n];
    if CountIn(init, lo, hi) == 0 {
      first, last := n, n;
    } else {
      first, last := WindowSpan(init, lo, hi);
      if lo <= xs[n] <= hi {
        last := n;
      }
    }
  }
}
