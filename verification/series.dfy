/**
  Folds over number series used by the indicators and strategies: sums, the trailing
  window that `stream().skip(max(0, n - k))` keeps, and `max`/`min` with `orElse(ZERO)`.
 */
module Series {
  import opened Decimal

  /** A look-back length of at least one bar; a zero period would divide by zero. */
  type Period = n: nat | n >= 1 witness 1

  /** Left-to-right sum, as `reduce(BigDecimal.ZERO, BigDecimal::add)` or a summing loop. */
  function Sum(s: seq<real>): real {
    if |s| == 0 then 0.0 else Sum(s[..|s| - 1]) + s[|s| - 1]
  }

  /** The last `k` elements, or all of them when there are fewer. */
  function Last<T>(s: seq<T>, k: nat): (r: seq<T>)
    ensures |r| == if k <= |s| then k else |s|
    ensures forall i :: 0 <= i < |r| ==> r[i] == s[|s| - |r| + i]
  {
    if k <= |s| then s[|s| - k..] else s
  }

  /** The trailing window of non-negative values holds non-negative values. */
  lemma LastNonNegative(s: seq<real>, k: nat)
    requires forall i :: 0 <= i < |s| ==> s[i] >= 0.0
    ensures forall i :: 0 <= i < |Last(s, k)| ==> Last(s, k)[i] >= 0.0
  {
    if k <= |s| {
      assert Last(s, k) == s[|s| - k..];
    }
  }

  lemma SumAppend(s: seq<real>, x: real)
    ensures Sum(s + [x]) == Sum(s) + x
  {
    assert (s + [x])[..|s|] == s;
  }

  lemma {:induction false} SumConcat(a: seq<real>, b: seq<real>)
    ensures Sum(a + b) == Sum(a) + Sum(b)
    decreases |b|
  {
    if |b| == 0 {
      assert a + b == a;
    } else {
      var c := b[..|b| - 1];
      assert a + b == (a + c) + [b[|b| - 1]];
      SumAppend(a + c, b[|b| - 1]);
      SumConcat(a, c);
    }
  }

  /** Replacing one element changes the sum by the difference. */
  lemma SumUpdate(s: seq<real>, k: nat, v: real)
    requires k < |s|
    ensures Sum(s[k := v]) == Sum(s) - s[k] + v
  {
    assert s == s[..k] + [s[k]] + s[k + 1..];
    assert s[k := v] == s[..k] + [v] + s[k + 1..];
    SumConcat(s[..k] + [s[k]], s[k + 1..]);
    SumConcat(s[..k] + [v], s[k + 1..]);
    SumAppend(s[..k], s[k]);
    SumAppend(s[..k], v);
  }

  /** A sum of n values each within [lo, hi] lies within [n·lo, n·hi]. */
  lemma {:induction false} SumBounds(s: seq<real>, lo: real, hi: real)
    requires forall i :: 0 <= i < |s| ==> lo <= s[i] <= hi
    ensures (|s| as real) * lo <= Sum(s) <= (|s| as real) * hi
    decreases |s|
  {
    if |s| > 0 {
      var m := (|s| - 1) as real;
      SumBounds(s[..|s| - 1], lo, hi);
      assert (|s| as real) * lo == m * lo + lo;
      assert (|s| as real) * hi == m * hi + hi;
    }
  }

  /** A sum of non-negative values is non-negative. */
  lemma {:induction false} SumNonNegative(s: seq<real>)
    requires forall i :: 0 <= i < |s| ==> s[i] >= 0.0
    ensures Sum(s) >= 0.0
    decreases |s|
  {
    if |s| > 0 {
      SumNonNegative(s[..|s| - 1]);
    }
  }

  /** `n` copies of `c` sum to `n·c`. */
  lemma SumConstant(s: seq<real>, c: real)
    requires forall i :: 0 <= i < |s| ==> s[i] == c
    ensures Sum(s) == (|s| as real) * c
  {
    SumBounds(s, c, c);
  }

  /** `.max(BigDecimal::compareTo).orElse(BigDecimal.ZERO)`. */
  function MaxOrZero(s: seq<real>): (r: real)
    ensures |s| > 0 ==> (exists i :: 0 <= i < |s| && r == s[i])
    ensures forall i :: 0 <= i < |s| ==> s[i] <= r
    ensures |s| == 0 ==> r == 0.0
  {
    if |s| == 0 then 0.0
    else if |s| == 1 then s[0]
    else
      var m := MaxOrZero(s[..|s| - 1]);
      assert forall i :: 0 <= i < |s| - 1 ==> s[..|s| - 1][i] == s[i];
      Max(m, s[|s| - 1])
  }

  /** `.min(BigDecimal::compareTo).orElse(BigDecimal.ZERO)`. */
  function MinOrZero(s: seq<real>): (r: real)
    ensures |s| > 0 ==> (exists i :: 0 <= i < |s| && r == s[i])
    ensures forall i :: 0 <= i < |s| ==> r <= s[i]
    ensures |s| == 0 ==> r == 0.0
  {
    if |s| == 0 then 0.0
    else if |s| == 1 then s[0]
    else
      var m := MinOrZero(s[..|s| - 1]);
      assert forall i :: 0 <= i < |s| - 1 ==> s[..|s| - 1][i] == s[i];
      Min(m, s[|s| - 1])
  }
}
