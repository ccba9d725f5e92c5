/** Kotlin's `Int`: a 32-bit two's-complement integer whose `plus` and
    `minus` wrap around silently on overflow. */
module KotlinInt {

  const MinValue: int := -0x8000_0000
  const MaxValue: int := 0x7fff_ffff
  /** Number of distinct `Int` values: one full turn of the wrap-around. */
  const Modulus: int := 0x1_0000_0000

  predicate InRange(x: int) {
    MinValue <= x <= MaxValue
  }

  /** The `Int` that the mathematical integer `x` wraps to: whole turns are
      taken off (or added) until the value fits. */
  function Wrap(x: int): (r: int)
    ensures InRange(r)
    decreases if x > MaxValue then x - MaxValue else if x < MinValue then MinValue - x else 0
  {
    if x > MaxValue then Wrap(x - Modulus)
    else if x < MinValue then Wrap(x + Modulus)
    else x
  }

  /** A value that already fits is left alone. */
  lemma WrapInRange(x: int)
    requires InRange(x)
    ensures Wrap(x) == x
  {
  }

  /** The wrapped value differs from `x` by a whole number of turns. */
  lemma {:induction false} WrapOffset(x: int) returns (k: int)
    ensures Wrap(x) == x + k * Modulus
    decreases if x > MaxValue then x - MaxValue else if x < MinValue then MinValue - x else 0
  {
    if x > MaxValue {
      var k' := WrapOffset(x - Modulus);
      k := k' - 1;
    } else if x < MinValue {
      var k' := WrapOffset(x + Modulus);
      k := k' + 1;
    } else {
      k := 0;
    }
  }

  /** Adding one turn does not change the wrapped value. */
  lemma WrapTurn(x: int)
    ensures Wrap(x + Modulus) == Wrap(x)
  {
  }

  /** Adding any whole number of turns does not change the wrapped value. */
  lemma {:induction false} WrapTurns(x: int, k: int)
    ensures Wrap(x + k * Modulus) == Wrap(x)
    decreases if k < 0 then -k else k
  {
    if k > 0 {
      WrapTurns(x, k - 1);
      WrapTurn(x + (k - 1) * Modulus);
    } else if k < 0 {
      WrapTurns(x, k + 1);
      WrapTurn(x + k * Modulus);
    }
  }

  /** Wrapping is a congruence for addition: wrapping after each step gives
      the same `Int` as wrapping once at the end. */
  lemma WrapAdd(x: int, d: int)
    ensures Wrap(Wrap(x) + d) == Wrap(x + d)
  {
    var k := WrapOffset(x);
    assert Wrap(x) + d == (x + d) + k * Modulus;
    WrapTurns(x + d, k);
  }
}
