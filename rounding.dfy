/** Rounding rules of the pricing engine, in exact real arithmetic.

    JavaScript's Math.round rounds half-way values toward +infinity, which is
    floor(x + 0.5); Math.ceil is the real ceiling. The "round to even" rule of
    the gross rate rounds first and then bumps an odd result up by one. */
module Rounding {

  /** Math.round */
  function Round(x: real): (r: int)
    ensures x - 0.5 < r as real <= x + 0.5
  {
    (x + 0.5).Floor
  }

  /** Math.ceil */
  function Ceil(x: real): (r: int)
    ensures x <= r as real < x + 1.0
  {
    -((-x).Floor)
  }

  /** Math.floor */
  function Floor(x: real): (r: int)
    ensures r as real <= x < r as real + 1.0
  {
    x.Floor
  }

  predicate IsEven(n: int) {
    n % 2 == 0
  }

  /** toEven / roundToEven: round, then move an odd result up to the next even integer. */
  function ToEven(x: real): (r: int)
    ensures IsEven(r)
    ensures r == Round(x) || r == Round(x) + 1
    ensures x - 0.5 < r as real <= x + 1.5
  {
    var n := Round(x);
    if n % 2 == 0 then n else n + 1
  }

  function Max(a: int, b: int): int {
    if a < b then b else a
  }

  function Min(a: int, b: int): int {
    if a < b then a else b
  }

  function MaxReal(a: real, b: real): real {
    if a < b then b else a
  }

  /** Rounding an integer-valued real gives that integer back. */
  lemma RoundOfInt(n: int)
    ensures Round(n as real) == n
  {
  }

  /** toEven is the identity on even integers: a locked even gross survives unchanged. */
  lemma ToEvenFixesEven(n: int)
    requires IsEven(n)
    ensures ToEven(n as real) == n
  {
    RoundOfInt(n);
  }

  /** toEven never rounds down by more than half a unit and never returns an odd value, so
      applying it twice is the same as applying it once. */
  lemma ToEvenIdempotent(x: real)
    ensures ToEven(ToEven(x) as real) == ToEven(x)
  {
    ToEvenFixesEven(ToEven(x));
  }

  /** The ceiling of a value at least as large as an integer is at least that integer. */
  lemma CeilAtLeast(x: real, n: int)
    requires n as real <= x
    ensures n <= Ceil(x)
  {
  }

  /** The ceiling of a value no larger than an integer is at most that integer. */
  lemma CeilAtMost(x: real, n: int)
    requires x <= n as real
    ensures Ceil(x) <= n
  {
  }
}
