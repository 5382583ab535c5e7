/** The Web IDL `[Clamp]` conversion of a number to an integer type, over exact reals. */
module Clamping {
  import opened Common
  import opened TimerIds

  datatype Number = NaN | Infinite(positive: bool) | Finite(value: real)

  /** An integer type by the bounds Web IDL gives it. */
  datatype IntType = IntType(min: int, max: int)

  const U8 := IntType(0, 0xFF)
  const U16 := IntType(0, 0xFFFF)
  const U32 := IntType(0, 0xFFFF_FFFF)
  const U64 := IntType(0, 0x1F_FFFF_FFFF_FFFF)
  const I8 := IntType(-0x80, 0x7F)
  const I16 := IntType(-0x8000, 0x7FFF)
  const I32 := IntType(-0x8000_0000, 0x7FFF_FFFF)
  const I64 := IntType(-0x1F_FFFF_FFFF_FFFF, 0x1F_FFFF_FFFF_FFFF)

  /** The bounds of n-bit types, but for 64 bits those of integers that numbers count up to exactly. */
  lemma {:induction false} BoundsFollowTheWidth()
    ensures U8 == IntType(0, PowerOfTwo(8) - 1) && I8 == IntType(0 - PowerOfTwo(7), PowerOfTwo(7) - 1)
    ensures U16 == IntType(0, PowerOfTwo(16) - 1) && I16 == IntType(0 - PowerOfTwo(15), PowerOfTwo(15) - 1)
    ensures U32 == IntType(0, PowerOfTwo(32) - 1) && I32 == IntType(0 - PowerOfTwo(31), PowerOfTwo(31) - 1)
    ensures U64 == IntType(0, PowerOfTwo(53) - 1) && I64 == IntType(1 - PowerOfTwo(53), PowerOfTwo(53) - 1)
    ensures MAX_ID == U64.max && TWO_TO_THE_64 == PowerOfTwo(64)
  {
    assert PowerOfTwo(7) == 0x80 && PowerOfTwo(8) == 0x100 && PowerOfTwo(15) == 0x8000;
    assert PowerOfTwo(16) == 0x1_0000 && PowerOfTwo(31) == 0x8000_0000 && PowerOfTwo(32) == 0x1_0000_0000;
    assert PowerOfTwo(24) == 0x100_0000;
    assert PowerOfTwo(43) == 0x800_0000_0000;
    assert PowerOfTwo(53) == 0x20_0000_0000_0000;
    assert PowerOfTwo(64) == 0x1_0000_0000_0000_0000;
  }

  predicate IsIntType(t: IntType) {
    t.min <= 0 < t.max
  }

  /** A cast to an integer truncates toward zero. */
  function Truncated(r: real): int {
    if r >= 0.0 then r.Floor else -((-r).Floor)
  }

  /** Masking out the ones bit of a two's complement number: an odd one moves down, even if negative. */
  function OnesBitCleared(n: int): int {
    n - n % 2
  }

  function ClampTo(d: Number, t: IntType): int {
    match d
    case NaN => 0
    case Infinite(positive) => if positive then t.max else t.min
    case Finite(r) =>
      if r >= t.max as real then t.max
      else if r <= t.min as real then t.min
      else
        var toTruncate := if r < 0.0 then r - 0.5 else r + 0.5;
        var truncated := Truncated(toTruncate);
        if truncated as real == toTruncate then OnesBitCleared(truncated) else truncated
  }

  // ---------------------------------------------------------------------------
  // The conversion Web IDL asks for
  // ---------------------------------------------------------------------------

  /** `n` is the integer nearest to `r`, and the even one of two that are equally near. */
  predicate IsNearestEven(n: int, r: real) {
    || r - 0.5 < n as real < r + 0.5
    || (n % 2 == 0 && (n as real == r - 0.5 || n as real == r + 0.5))
  }

  function Clamped(r: real, t: IntType): real {
    if r > t.max as real then t.max as real else if r < t.min as real then t.min as real else r
  }

  /** Step by step as ConvertToInt has it: NaN is zero, other numbers are clamped, then rounded. */
  predicate IsConverted(n: int, d: Number, t: IntType) {
    match d
    case NaN => n == 0
    case Infinite(positive) => n == if positive then t.max else t.min
    case Finite(r) =>
      IsNearestEven(n, Clamped(r, t))
  }

  lemma {:induction false} NearestEvenIsUnique(m: int, n: int, r: real)
    requires IsNearestEven(m, r) && IsNearestEven(n, r)
    ensures m == n
  {
    assert -1.0 <= m as real - n as real <= 1.0;
    assert m == n || m == n + 1 || n == m + 1;
  }

  /** A negative tie whose lower neighbour is odd. */
  predicate IsLostTie(d: Number, t: IntType) {
    && d.Finite?
    && t.min as real < d.value < 0.0
    && (d.value - 0.5).Floor as real == d.value - 0.5
    && (d.value - 0.5).Floor % 2 != 0
  }

  lemma {:induction false} TruncatedUp(r: real)
    requires r >= 0.0
    ensures var q := r + 0.5; q - 1.0 < Truncated(q) as real <= q
  {
  }

  lemma {:induction false} TruncatedDown(r: real)
    requires r < 0.0
    ensures var q := r - 0.5; q <= Truncated(q) as real < q + 1.0
    ensures var q := r - 0.5; Truncated(q) as real == q <==> q.Floor as real == q
    ensures var q := r - 0.5; q.Floor as real == q ==> Truncated(q) == q.Floor
  {
    var q := r - 0.5;
    var f := (-q).Floor;
    assert Truncated(q) == -f;
    assert f as real <= -q < f as real + 1.0;
    if q.Floor as real == q {
      assert (-q).Floor == -q.Floor;
    }
  }

  lemma {:induction false} PositiveConverts(r: real, t: IntType)
    requires IsIntType(t) && 0.0 <= r < t.max as real
    ensures IsNearestEven(ClampTo(Finite(r), t), r)
  {
    var q := r + 0.5;
    TruncatedUp(r);
    if r > t.min as real && Truncated(q) as real != q {
      assert r - 0.5 < Truncated(q) as real < r + 0.5;
    }
  }

  lemma {:induction false} NegativeConverts(r: real, t: IntType)
    requires IsIntType(t) && t.min as real < r < 0.0
    ensures IsNearestEven(ClampTo(Finite(r), t), r) <==> !IsLostTie(Finite(r), t)
  {
    var q := r - 0.5;
    TruncatedDown(r);
    if q.Floor as real == q {
      assert ClampTo(Finite(r), t) == q.Floor - q.Floor % 2;
      assert q.Floor as real == r - 0.5;
    } else {
      assert r - 0.5 < Truncated(q) as real < r + 0.5;
    }
  }

  /** The conversion is the one Web IDL asks for exactly unless its argument is a negative tie whose
      lower neighbour is odd. It always is for unsigned types and for arguments that are not negative. */
  lemma {:induction false} ConvertsUnlessTieIsLost(d: Number, t: IntType)
    requires IsIntType(t)
    ensures IsConverted(ClampTo(d, t), d, t) <==> !IsLostTie(d, t)
    ensures IsLostTie(d, t) ==> t.min < 0 && d.value < 0.0
  {
    if d.Finite? && t.min as real < d.value < t.max as real {
      if d.value < 0.0 {
        NegativeConverts(d.value, t);
      } else {
        PositiveConverts(d.value, t);
      }
    }
  }

  /** Where ties are not lost the conversion preserves order. */
  lemma {:induction false} ClampIsMonotone(a: real, b: real, t: IntType)
    requires IsIntType(t) && a <= b
    requires !IsLostTie(Finite(a), t) && !IsLostTie(Finite(b), t)
    ensures t.min <= ClampTo(Finite(a), t) <= ClampTo(Finite(b), t) <= t.max
  {
    ConvertsUnlessTieIsLost(Finite(a), t);
    ConvertsUnlessTieIsLost(Finite(b), t);
    NearestIsMonotone(t.min as real, Clamped(a, t), t.min, ClampTo(Finite(a), t));
    NearestIsMonotone(Clamped(a, t), Clamped(b, t), ClampTo(Finite(a), t), ClampTo(Finite(b), t));
    NearestIsMonotone(Clamped(b, t), t.max as real, ClampTo(Finite(b), t), t.max);
  }

  lemma {:induction false} NearestIsMonotone(a: real, b: real, m: int, n: int)
    requires a <= b && IsNearestEven(m, a) && IsNearestEven(n, b)
    ensures m <= n
  {
    assert m as real - n as real <= 1.0;
    assert m <= n || m == n + 1;
  }

  /** The tie at -1/2, between -1 and 0, becomes -2, below what smaller numbers become. */
  lemma {:induction false} MinusOneHalfBecomesMinusTwo()
    ensures ClampTo(Finite(-0.5), I8) == -2 && ClampTo(Finite(-0.75), I8) == -1
    ensures IsConverted(0, Finite(-0.5), I8)
  {
    assert (1.0).Floor == 1 && (1.25).Floor == 1;
  }
}
