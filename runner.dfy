/**
  `_calc_ilm_order(imshape)` of the runner: the illumination orders chosen
  from the image shape. The source divides by the floating-point constants
  6.25, 42.5 and 512. and truncates; the model divides the exact reals and
  takes the floor, which agrees with truncation on nonnegative sizes, and
  proves that each count equals an integer quotient.
*/
module Runner {

  /** The streak-point coefficient at streak `a`: `[59, 39, 29, 19, 14][a]`
      for the first five streaks, 11 after them. */
  function Coefficient(a: nat): nat
  {
    if a < 5 then [59, 39, 29, 19, 14][a] else 11
  }

  /** The number of points of streak `a` for an image `s2` pixels wide. */
  function NptsEntry(s2: nat, a: nat): nat
  {
    s2 * Coefficient(a) / 512 + 1
  }

  /** `int(x / d)` on exact reals is the integer quotient. */
  lemma FloorQuotient(x: nat, d: nat)
    requires d > 0
    ensures (x as real / d as real).Floor == x / d
  {
    var q, r := x / d, x % d;
    assert x == q * d + r;
    assert (x as real) == (q as real) * (d as real) + (r as real);
    assert x as real / d as real == q as real + r as real / d as real;
    assert 0.0 <= r as real / d as real < 1.0;
  }

  /** `_calc_ilm_order(imshape)`: `zorder = int(imshape[0]/6.25) + 1`,
      `int(imshape[1]/42.5) + 1` streaks, and for streak `a` the
      `int(imshape[2]*c/512.) + 1` points of its coefficient `c`. */
  method CalcIlmOrder(imshape: (nat, nat, nat)) returns (npts: seq<nat>, zorder: nat)
    ensures zorder == 4 * imshape.0 / 25 + 1
    ensures |npts| == 2 * imshape.1 / 85 + 1
    ensures forall a :: 0 <= a < |npts| ==> npts[a] == NptsEntry(imshape.2, a)
  {
    assert imshape.0 as real / 6.25 == (4 * imshape.0) as real / 25 as real;
    FloorQuotient(4 * imshape.0, 25);
    zorder := (imshape.0 as real / 6.25).Floor + 1;
    assert imshape.1 as real / 42.5 == (2 * imshape.1) as real / 85 as real;
    FloorQuotient(2 * imshape.1, 85);
    var streaks: nat := (imshape.1 as real / 42.5).Floor + 1;
    npts := [];
    var a := 0;
    while a < streaks
      invariant a <= streaks && |npts| == a
      invariant forall b :: 0 <= b < a ==> npts[b] == NptsEntry(imshape.2, b)
    {
      var c := if a < 5 then [59, 39, 29, 19, 14][a] else 11;
      FloorQuotient(imshape.2 * c, 512);
      npts := npts + [((imshape.2 * c) as real / 512.0).Floor + 1];
      a := a + 1;
    }
  }

  /** Every streak gets at least one point, and later streaks never get
      more points than earlier ones, because the coefficients do not increase. */
  lemma NptsNonIncreasing(s2: nat, a: nat, b: nat)
    requires a <= b
    ensures 1 <= NptsEntry(s2, b) <= NptsEntry(s2, a)
  {
    var ca, cb := Coefficient(a), Coefficient(b);
    assert cb <= ca;
    MulMonotone(s2, cb, ca);
    DivMonotone(s2 * cb, s2 * ca);
  }

  lemma MulMonotone(x: nat, c: nat, c': nat)
    requires c <= c'
    ensures x * c <= x * c'
  {
    assert x * c' == x * c + x * (c' - c);
  }

  lemma DivMonotone(x: nat, y: nat)
    requires x <= y
    ensures x / 512 <= y / 512
  {
  }
}
