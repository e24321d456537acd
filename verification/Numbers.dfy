/** The number type of the cost model (include/Analysis/Numbers.h): a value that
    sticks at two sentinels.  Rounding of doubles is not modelled; values are
    exact reals. */
module Numbers {

  const POS_INFINITY: real := 100000.0
  const NEG_INFINITY: real := -100000.0

  /** True when a sentinel absorbs a number of its own sign. */
  predicate Absorbs(sentinel: real, other: real) {
    (sentinel == POS_INFINITY && other > 0.0) || (sentinel == NEG_INFINITY && other < 0.0)
  }

  /** One of two summands is a sentinel that absorbs the other. */
  predicate Sticks(a: real, b: real) {
    Absorbs(a, b) || Absorbs(b, a)
  }

  /** The addition behind `+`, `-` and `+=`, branch by branch.  It is the exact
      sum unless a sentinel absorbs the other operand and stays as it is. */
  function SafeSum(a: real, b: real): (r: real)
    ensures r == a + b <==> !Sticks(a, b)
    ensures Absorbs(a, b) ==> r == a
    ensures Absorbs(b, a) ==> r == b
  {
    if (a == POS_INFINITY && b >= 0.0) || (b == POS_INFINITY && a >= 0.0) then POS_INFINITY
    else if (a == POS_INFINITY && b == NEG_INFINITY) || (b == POS_INFINITY && a == NEG_INFINITY) then 0.0
    else if (a == NEG_INFINITY && b <= 0.0) || (b == NEG_INFINITY && a <= 0.0) then NEG_INFINITY
    else
      var sum := a + b;
      if a < 0.0 && b < 0.0 then (if sum > a then NEG_INFINITY else sum)
      else if a > 0.0 && b > 0.0 then (if sum < a then POS_INFINITY else sum)
      else sum
  }

  /** Which addition a computation uses: the program's own, or the exact one it
      stands for. */
  datatype Arithmetic = Exact | Saturating

  function Plus(m: Arithmetic, a: real, b: real): real {
    if m.Exact? then a + b else SafeSum(a, b)
  }

  function Abs(a: real): real {
    if a < 0.0 then -a else a
  }
}
