/** The few JavaScript value rules the source leans on: truthiness and Math.round. */
module Js {
  import opened Wrappers

  /** `if (s)` on an optional string: `undefined` and the empty string are falsy. */
  predicate Truthy(s: Option<string>)
  {
    s.Some? && s.value != ""
  }

  /** `if (n)` on an optional number: `undefined` and 0 are falsy. */
  predicate TruthyNumber(n: Option<int>)
  {
    n.Some? && n.value != 0
  }

  /**
   * `String(n)` of a non-negative integer: its decimal digits, without padding.
   * The digits read back as n, and only 0 itself starts with '0'.
   */
  function Decimal(n: nat): (s: string)
    ensures |s| >= 1
    ensures n < 10 <==> |s| == 1
    ensures forall i :: 0 <= i < |s| ==> '0' <= s[i] <= '9'
    ensures DigitsValue(s) == n
    ensures s[0] == '0' ==> n == 0
  {
    var digit := ('0' as int + n % 10) as char;
    if n < 10 then
      assert [digit][..0] == [];
      [digit]
    else
      var s := Decimal(n / 10) + [digit];
      assert s[..|s| - 1] == Decimal(n / 10);
      s
  }

  /** The number a text of decimal digits denotes, the last digit counting ones. */
  function DigitsValue(s: string): int
  {
    if s == [] then 0 else 10 * DigitsValue(s[..|s| - 1]) + (s[|s| - 1] as int - '0' as int)
  }

  /**
   * Math.round(a / n) for an integer total a and a positive count n. Math.round
   * rounds to the nearest integer and half-way cases upwards, so the result r
   * satisfies r - 1/2 <= a / n < r + 1/2, here multiplied out by 2n.
   */
  function RoundDiv(a: int, n: int): (r: int)
    requires n > 0
    ensures 2 * n * r - n <= 2 * a < 2 * n * r + n
  {
    var q := (2 * a + n) / (2 * n);
    assert 2 * a + n == (2 * n) * q + (2 * a + n) % (2 * n);
    assert 2 * n * q == (2 * n) * q;
    q
  }

  /** The rounding condition pins the result down: at most one integer meets it. */
  lemma RoundDivUnique(a: int, n: int, r: int)
    requires n > 0
    requires 2 * n * r - n <= 2 * a < 2 * n * r + n
    ensures r == RoundDiv(a, n)
  {
    var q := RoundDiv(a, n);
    if r != q {
      var lo, hi := if r < q then r else q, if r < q then q else r;
      // both lo and hi meet the condition, yet their windows are 2n apart
      ScaleAtLeast(2 * n, hi - lo);
      assert false;
    }
  }

  lemma ScaleAtLeast(m: int, k: int)
    requires m > 0 && k >= 1
    ensures m * k >= m
  {
    assert m * k == m + m * (k - 1);
  }
}
