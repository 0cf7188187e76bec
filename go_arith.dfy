/**
 * Integer helpers shared by the model: Go's division and remainder, which
 * truncate toward zero, written out over Dafny's Euclidean operators, and the
 * Option type the lookups return in place of a nil pointer.
 */
module GoArith {

  datatype Option<T> = None | Some(value: T)

  /** The quotient Go computes for `a / b` when b > 0: rounded toward zero. */
  function TDiv(a: int, b: int): (q: int)
    requires b > 0
    ensures a >= 0 ==> q * b <= a < q * b + b
    ensures a < 0 ==> q * b - b < a <= q * b
  {
    if a >= 0 then a / b else -((-a) / b)
  }

  /** The remainder Go computes for `a % b` when b > 0: it takes the sign of a. */
  function TMod(a: int, b: int): (r: int)
    requires b > 0
    ensures a >= 0 ==> r == a % b
    ensures a < 0 ==> -b < r <= 0
  {
    a - TDiv(a, b) * b
  }

  /** Go's remainder by 16 is zero exactly when Dafny's is: whether a pixel
      coordinate lies on the tile grid does not depend on the rounding. */
  lemma TModZero(a: int)
    ensures TMod(a, 16) == 0 <==> a % 16 == 0
  {
    if a < 0 {
      var n := -a;
      assert TMod(a, 16) == -(n % 16);
    }
  }

  /** On non-negative operands Go and Dafny divide alike. */
  lemma TDivOfNatural(a: int, b: int)
    requires a >= 0 && b > 0
    ensures TDiv(a, b) == a / b && TMod(a, b) == a % b
  {
  }

  /** A pixel coordinate q tiles and rem pixels from the origin lies in tile q, rem pixels in. */
  lemma TDivOfTiles(q: int, rem: int)
    requires q >= 0 && 0 <= rem < 16
    ensures TDiv(q * 16 + rem, 16) == q && TMod(q * 16 + rem, 16) == rem
  {
  }
}
