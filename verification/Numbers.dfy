/**
 Numbers as the service computes them: the four-decimal rounding every OCPI number goes
 through (section 16.4 of OCPI 2.2.1), on exact reals. JavaScript's Math.round rounds a tie
 towards positive infinity, so a rounded value exceeds its argument by at most half a unit
 and falls short of it by less than half a unit.
 */
module Numbers {

  datatype Option<+T> = None | Some(value: T)

  /** A JavaScript number that may fail to be usable: NaN or an infinity is NonFinite. */
  datatype Number = Finite(value: real) | NonFinite

  /** The four-decimal grid: n units of 0.0001. */
  function Grid(n: int): real {
    n as real / 10000.0
  }

  ghost predicate OnGrid(v: real) {
    exists n: int :: v == Grid(n)
  }

  /** Math.round. */
  function JsRound(x: real): int {
    (x + 0.5).Floor
  }

  /** roundOcpiNumber. */
  function RoundOcpi(v: real): real {
    Grid(JsRound(v * 10000.0))
  }

  /** What rounding takes away from a value. */
  function Residual(v: real): real {
    v - RoundOcpi(v)
  }

  /** toRoundedHours: an instant in milliseconds as hours, rounded to four decimals. */
  function RoundedHours(timestamp: int): real {
    RoundOcpi(timestamp as real / 3600000.0)
  }

  /** The residual window pins the rounded value: a grid point is the rounding of exactly the
      values lying from half a unit below it to less than half a unit above it. */
  lemma RoundCharacterised(v: real, n: int)
    ensures RoundOcpi(v) == Grid(n) <==> -0.00005 <= v - Grid(n) < 0.00005
  {
    var m := JsRound(v * 10000.0);
    assert -0.00005 <= v - Grid(m) < 0.00005;
    if -0.00005 <= v - Grid(n) < 0.00005 {
      assert n - 1 < m < n + 1;
    }
  }

  lemma RoundError(v: real)
    ensures OnGrid(RoundOcpi(v)) && -0.00005 <= Residual(v) < 0.00005
  {
    RoundCharacterised(v, JsRound(v * 10000.0));
  }

  lemma RoundMonotone(a: real, b: real)
    requires a <= b
    ensures RoundOcpi(a) <= RoundOcpi(b)
  {
    var m, n := JsRound(a * 10000.0), JsRound(b * 10000.0);
    RoundCharacterised(a, m);
    RoundCharacterised(b, n);
    assert Grid(m) - Grid(n) < 0.0001;
    assert m - n < 1;
  }

  lemma RoundOnGrid(v: real)
    requires OnGrid(v)
    ensures RoundOcpi(v) == v
  {
    var n: int :| v == Grid(n);
    RoundCharacterised(v, n);
  }

  /** Rounding the difference of two rounded values does nothing: this is what makes the
      pieces add up. */
  lemma RoundDifference(a: real, b: real)
    ensures RoundOcpi(RoundOcpi(a) - RoundOcpi(b)) == RoundOcpi(a) - RoundOcpi(b)
  {
    var m, n := JsRound(a * 10000.0), JsRound(b * 10000.0);
    assert RoundOcpi(a) - RoundOcpi(b) == Grid(m - n);
    RoundOnGrid(RoundOcpi(a) - RoundOcpi(b));
  }

  /** Two grid values less than two units apart differ by at most one unit. */
  lemma GridGap(a: real, b: real)
    requires OnGrid(a) && OnGrid(b)
    requires -0.0002 < a - b < 0.0002
    ensures -0.0001 <= a - b <= 0.0001
  {
    var m: int :| a == Grid(m);
    var n: int :| b == Grid(n);
    assert -2 < m - n < 2;
  }

  /** The rounding of a sum is the sum of the roundings exactly when the residuals do not
      spill over half a unit. */
  lemma RoundSum(a: real, b: real)
    ensures RoundOcpi(a + b) == RoundOcpi(a) + RoundOcpi(b)
       <==> -0.00005 <= Residual(a) + Residual(b) < 0.00005
  {
    var m, n := JsRound(a * 10000.0), JsRound(b * 10000.0);
    assert Grid(m + n) == RoundOcpi(a) + RoundOcpi(b);
    RoundCharacterised(a + b, m + n);
  }
}
