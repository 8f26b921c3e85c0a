/** Shared vocabulary: optional values, JavaScript's `Math.round`, and sums and
    means of sequences of numbers.  JavaScript numbers are modelled as `real`. */
module Common {

  /** An absent (`undefined`/`null`) or present value. */
  datatype Option<+T> = None | Some(value: T) {

    /** Returns the value, or `default` when absent. */
    function GetOr(default: T): T
    {
      match this
      case Some(v) => v
      case None => default
    }
  }

  /** The display colours the pages choose between: `#64748b` (grey),
      `#00e5a0` (green), `#fbbf24` (amber) and `#f87171` (red). */
  datatype Colour = Grey | Green | Amber | Red

  /** `Math.round`: rounds to the nearest integer, halves towards +infinity. */
  function Round(x: real): (r: int)
    ensures r as real - 0.5 <= x < r as real + 0.5
  {
    (x + 0.5).Floor
  }

  /** A rounded value stays inside any integer interval its argument lies in. */
  lemma RoundBounds(x: real, lo: int, hi: int)
    requires lo as real <= x <= hi as real
    ensures lo <= Round(x) <= hi
  {
  }

  /** Scaling by a factor in [0, 1] keeps a value in [0, hi]. */
  lemma ScaleBounds(x: real, m: real, hi: real)
    requires 0.0 <= x <= hi
    requires 0.0 <= m <= 1.0
    ensures 0.0 <= x * m <= hi
  {
    assert x * (1.0 - m) >= 0.0;
  }

  /** `Math.round` is monotone. */
  lemma RoundMonotone(x: real, y: real)
    requires x <= y
    ensures Round(x) <= Round(y)
  {
  }

  /** JavaScript truthiness of an optional number (`NaN` is not modelled). */
  predicate TruthyNum(x: Option<real>)
  {
    x.Some? && x.value != 0.0
  }

  /** JavaScript truthiness of an optional string. */
  predicate TruthyStr(s: Option<string>)
  {
    s.Some? && s.value != ""
  }

  /** `a || b || 0` over optional numbers. */
  function OrZero(a: Option<real>, b: Option<real>): (r: real)
    ensures TruthyNum(a) ==> r == a.value
    ensures !TruthyNum(a) && TruthyNum(b) ==> r == b.value
    ensures !TruthyNum(a) && !TruthyNum(b) ==> r == 0.0
  {
    if TruthyNum(a) then a.value else if TruthyNum(b) then b.value else 0.0
  }

  /** The sum of a sequence of numbers, added left to right. */
  function Sum(s: seq<real>): real
  {
    if s == [] then 0.0 else Sum(s[..|s| - 1]) + s[|s| - 1]
  }

  lemma SumAppend(s: seq<real>, x: real)
    ensures Sum(s + [x]) == Sum(s) + x
  {
    assert (s + [x])[..|s + [x]| - 1] == s;
  }

  /** The arithmetic mean; 0 for the empty sequence. */
  function Mean(s: seq<real>): real
  {
    if s == [] then 0.0 else Sum(s) / (|s| as real)
  }

  predicate AllBetween(s: seq<real>, lo: real, hi: real)
  {
    forall i :: 0 <= i < |s| ==> lo <= s[i] <= hi
  }

  /** Every element in [lo, hi] puts the sum in [n * lo, n * hi]. */
  lemma {:induction false} SumBounds(s: seq<real>, lo: real, hi: real)
    requires AllBetween(s, lo, hi)
    ensures (|s| as real) * lo <= Sum(s) <= (|s| as real) * hi
  {
    if s != [] {
      var init := s[..|s| - 1];
      assert AllBetween(init, lo, hi) by {
        forall i | 0 <= i < |init| ensures lo <= init[i] <= hi {
          assert init[i] == s[i];
        }
      }
      SumBounds(init, lo, hi);
      assert (|s| as real) * lo == (|init| as real) * lo + lo;
      assert (|s| as real) * hi == (|init| as real) * hi + hi;
    }
  }

  /** The mean of values in [lo, hi] lies in [lo, hi]. */
  lemma MeanBounds(s: seq<real>, lo: real, hi: real)
    requires s != []
    requires AllBetween(s, lo, hi)
    ensures lo <= Mean(s) <= hi
  {
    SumBounds(s, lo, hi);
    var n := |s| as real;
    assert n > 0.0;
    assert n * lo <= Sum(s) <= n * hi;
    assert Sum(s) / n >= lo by {
      assert Sum(s) >= n * lo;
    }
    assert Sum(s) / n <= hi by {
      assert Sum(s) <= n * hi;
    }
  }
}
