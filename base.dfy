/** Small shared vocabulary: an optional value and Swift's integer operators. */
module Base {

  /** A value that may be absent (Swift's `T?`). */
  datatype Option<T> = None | Some(value: T) {
    /** Swift's `x ?? default`. */
    function GetOr(default: T): T {
      match this
      case Some(v) => v
      case None => default
    }
  }

  function Abs(x: int): nat {
    if x < 0 then -x else x
  }

  function Min(a: int, b: int): int {
    if a <= b then a else b
  }

  function Max(a: int, b: int): int {
    if a >= b then a else b
  }

  lemma DivNonNegative(x: int, y: int)
    requires x >= 0 && y > 0
    ensures x / y >= 0 && x % y >= 0
  {
  }

  /** Swift's `a / b` on `Int`: division truncating toward zero. Its
      magnitude is that of the Euclidean quotient of the magnitudes, and a
      non-zero quotient is negative exactly when the operands' signs differ. */
  function Quot(a: int, b: int): (q: int)
    requires b != 0
    ensures Abs(q) == Abs(a) / Abs(b)
    ensures q != 0 ==> ((q < 0) <==> ((a < 0) != (b < 0)))
  {
    var m := Abs(a) / Abs(b);
    DivNonNegative(Abs(a), Abs(b));
    if (a < 0) == (b < 0) then m else -m
  }

  /** On a non-negative dividend and a positive divisor truncation and
      Dafny's Euclidean division agree. */
  lemma QuotOfNonNegative(a: int, b: int)
    requires a >= 0 && b > 0
    ensures Quot(a, b) == a / b
  {
  }

  /** Swift's `a % b` on `Int`: the remainder of truncating division, which
      has the sign of the dividend. */
  function Rem(a: int, b: int): (r: int)
    requires b != 0
    ensures Abs(r) < Abs(b)
    ensures r != 0 ==> ((r < 0) <==> (a < 0))
  {
    var m := Abs(a) % Abs(b);
    DivNonNegative(Abs(a), Abs(b));
    if a < 0 then -m else m
  }

  /** For a positive divisor, Swift's remainder of a non-negative dividend is
      Dafny's `%`. */
  lemma RemOfNonNegative(a: int, b: int)
    requires a >= 0 && b > 0
    ensures Rem(a, b) == a % b
  {
  }
}
