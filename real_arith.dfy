/** Small facts about products and quotients of exact reals, each stated on plain
    variables so that the solver meets one nonlinear step at a time. */
module RealArith {

  lemma PositiveProduct(a: real, b: real)
    requires a > 0.0 && b > 0.0
    ensures a * b > 0.0
  {
  }

  lemma NonNegativeSquare(g: real)
    ensures g * g >= 0.0
  {
    if g > 0.0 { PositiveProduct(g, g); }
    else if g < 0.0 { PositiveProduct(-g, -g); }
  }

  lemma SquareBelow(g: real, d: real)
    requires g >= 0.0 && d >= 0.0 && g * g <= d * d
    ensures g <= d
  {
    if g > d {
      assert g * g - d * d == (g - d) * (g + d);
      PositiveProduct(g - d, g + d);
    }
  }

  lemma MulRightMono(a: real, x: real, b: real)
    requires b > 0.0 && a <= x
    ensures a * b <= x * b
  {
    if a < x {
      PositiveProduct(x - a, b);
    }
  }

  lemma ScaleCancel(a: real, x: real, b: real)
    requires b > 0.0 && a * b <= x * b
    ensures a <= x
  {
    if a > x {
      PositiveProduct(a - x, b);
    }
  }

  lemma DivMul(p: real, b: real)
    requires b != 0.0
    ensures p == (p / b) * b
  {
  }

  lemma MulHalf(d: real, b: real)
    requires b > 0.0 && -0.5 <= d <= 0.5
    ensures -(b / 2.0) <= d * b <= b / 2.0
  {
    MulRightMono(d, 0.5, b);
    MulRightMono(-0.5, d, b);
  }
}
