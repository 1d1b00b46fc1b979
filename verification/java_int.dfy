/**
 Java's integer `/` and `%`. Both truncate toward zero, so the remainder takes the
 sign of the dividend, unlike Dafny's Euclidean operators. 32-bit wrap-around is not
 modelled here (see README).
 */
module JavaInt {

  function Abs(a: int): nat
  {
    if a < 0 then -a else a
  }

  lemma NatDivBounds(p: nat, d: nat)
    requires d > 0
    ensures 0 <= p / d && (p / d) * d <= p < (p / d + 1) * d
  {
  }

  lemma NatModBounds(p: nat, d: nat)
    requires d > 0
    ensures 0 <= p % d < d
  {
  }

  /** Java `a / b`: the quotient of the magnitudes, negated when the signs differ. */
  function Div(a: int, b: int): (q: int)
    requires b != 0
    ensures 0 <= a && 0 < b ==> q == a / b
    ensures Abs(q) * Abs(b) <= Abs(a) < (Abs(q) + 1) * Abs(b)
    ensures (a >= 0) == (b > 0) ==> q >= 0
    ensures (a >= 0) != (b > 0) ==> q <= 0
  {
    var p := Abs(a);
    var d := Abs(b);
    NatDivBounds(p, d);
    if (a >= 0) == (b > 0) then p / d else -(p / d)
  }

  /** Java `a % b`: the remainder of the magnitudes, with the sign of the dividend. */
  function Rem(a: int, b: int): (r: int)
    requires b != 0
    ensures 0 <= a ==> r == a % Abs(b)
    ensures Abs(r) < Abs(b)
    ensures 0 <= a ==> 0 <= r
    ensures a < 0 ==> r <= 0
  {
    var d := Abs(b);
    var m := Abs(a) % d;
    NatModBounds(Abs(a), d);
    if a >= 0 then m else -m
  }

  /** Quotient and remainder reassemble the dividend, as the Java language promises. */
  lemma DivRemIdentity(a: int, b: int)
    requires b != 0
    ensures Div(a, b) * b + Rem(a, b) == a
  {
    var p := Abs(a);
    var d := Abs(b);
    var m := p / d;
    assert p == m * d + p % d;
    if b > 0 {
      assert d == b;
    } else {
      assert d == -b;
      assert (-m) * b == m * d;
    }
  }
}
