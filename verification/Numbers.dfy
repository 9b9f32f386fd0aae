/**
  Machine integers and the rounding on the sample path.

  Unsigned words are ranges of `int`; every wrap-around is written out. `f64` is
  modelled by `real`, and `f64::round` by rounding half away from zero.
 */
module Numbers {
  type U8 = x: int | 0 <= x < 0x100
  type U16 = x: int | 0 <= x < 0x1_0000
  type U32 = x: int | 0 <= x < 0x1_0000_0000
  type U64 = x: int | 0 <= x < 0x1_0000_0000_0000_0000

  /** One signed 16-bit PCM value. */
  type Sample = x: int | -0x8000 <= x < 0x8000

  const TWO_31 := 0x8000_0000
  const TWO_32 := 0x1_0000_0000

  /** The 32-bit word that carries an unbounded counter. */
  function Wrap32(n: int): U32 {
    n % TWO_32
  }

  lemma WrapNext(number: int)
    ensures Wrap32(Wrap32(number) + 1) == Wrap32(number + 1)
  {
  }

  /** The two's complement reading of a 32-bit word. */
  function Signed32(w: U32): int {
    if w < TWO_31 then w else w - TWO_32
  }

  /** Within half the sequence space, wrapped subtraction recovers the true difference. */
  lemma SignedDifference(expected: int, number: int)
    requires -TWO_31 <= number - expected < TWO_31
    ensures Signed32(Wrap32(Wrap32(number) - Wrap32(expected))) == number - expected
  {
    var gap := Wrap32(number) - Wrap32(expected);
    var turns := number / TWO_32 - expected / TWO_32;
    assert number - expected == gap + turns * TWO_32;
    assert Wrap32(gap) == Wrap32(number - expected);
  }

  function Round(x: real): int {
    if x >= 0.0 then (x + 0.5).Floor else -((0.5 - x).Floor)
  }

  /** `n` is the integer nearest to `x`; of two equally near ones it is the one further from zero. */
  predicate Nearest(n: int, x: real) {
    && -0.5 <= n as real - x <= 0.5
    && (n as real - x == 0.5 ==> x > 0.0)
    && (n as real - x == -0.5 ==> x < 0.0)
  }

  lemma RoundIsNearest(x: real)
    ensures Nearest(Round(x), x)
    ensures forall n: int :: Nearest(n, x) ==> n == Round(x)
  {
  }

  /** `x.round() as i16`: the cast saturates. */
  function ToSample(x: real): Sample {
    var n := Round(x);
    if n < -0x8000 then -0x8000 else if n > 0x7fff then 0x7fff else n
  }

  predicate Within(x: int, amplitude: nat) {
    -(amplitude as int) <= x <= amplitude
  }

  /** Rounding never leaves an interval with sample ends, so the cast does not saturate. */
  lemma RoundBetween(x: real, lo: Sample, hi: Sample)
    requires lo as real <= x <= hi as real
    ensures lo <= ToSample(x) <= hi
    ensures ToSample(x) == Round(x)
  {
  }

  /** A product of two reals, under a name so that proofs can treat it as one number. */
  function Times(x: real, y: real): real {
    x * y
  }

  lemma TimesNext(n: nat, y: real)
    requires n > 0
    ensures Times(n as real, y) == Times((n - 1) as real, y) + y
  {
    assert n as real == (n - 1) as real + 1.0;
  }

  lemma TimesMonotone(x: real, y: real, z: real)
    requires 0.0 <= x && y <= z
    ensures Times(x, y) <= Times(x, z)
  {
    var d := z - y;
    assert x * d >= 0.0;
    assert x * z == x * y + x * d;
  }

  lemma FractionOf(x: real, t: real)
    requires 0.0 <= t <= 1.0
    ensures x >= 0.0 ==> 0.0 <= Times(x, t) <= x
    ensures x <= 0.0 ==> x <= Times(x, t) <= 0.0
  {
    var u := 1.0 - t;
    assert x * t + x * u == x;
  }

  /** The point at distance `t` from `a` towards `b`. */
  function Between(a: Sample, b: Sample, t: real): real {
    a as real + Times((b - a) as real, t)
  }

  lemma BetweenEnds(a: Sample, b: Sample, t: real)
    requires 0.0 <= t <= 1.0
    ensures a <= b ==> a as real <= Between(a, b, t) <= b as real
    ensures b <= a ==> b as real <= Between(a, b, t) <= a as real
  {
    FractionOf((b - a) as real, t);
  }

  /** The interpolated sample at distance `t` from `a` towards `b`. */
  function Lerp(a: Sample, b: Sample, t: real): Sample {
    ToSample(Between(a, b, t))
  }

  function Attenuated(s: Sample, gain: real): real {
    Times(s as real, gain)
  }

  lemma AttenuatedEnds(s: Sample, gain: real)
    requires 0.0 <= gain <= 1.0
    ensures s >= 0 ==> 0.0 <= Attenuated(s, gain) <= s as real
    ensures s <= 0 ==> s as real <= Attenuated(s, gain) <= 0.0
  {
    FractionOf(s as real, gain);
  }

  function Scale(s: Sample, gain: real): Sample {
    ToSample(Attenuated(s, gain))
  }

  /** Interpolation stays within the amplitude of its two ends, so the cast cannot saturate. */
  lemma LerpWithin(a: Sample, b: Sample, t: real, amplitude: nat)
    requires Within(a, amplitude) && Within(b, amplitude) && 0.0 <= t <= 1.0
    ensures Within(Lerp(a, b, t), amplitude)
    ensures Lerp(a, b, t) == Round(Between(a, b, t))
  {
    BetweenEnds(a, b, t);
    if a <= b {
      RoundBetween(Between(a, b, t), a, b);
    } else {
      RoundBetween(Between(a, b, t), b, a);
    }
  }

  /** Attenuation stays within the amplitude of the sample, so the cast cannot saturate. */
  lemma ScaleWithin(s: Sample, gain: real, amplitude: nat)
    requires Within(s, amplitude) && 0.0 <= gain <= 1.0
    ensures Within(Scale(s, gain), amplitude)
    ensures Scale(s, gain) == Round(Attenuated(s, gain))
  {
    AttenuatedEnds(s, gain);
    if s >= 0 {
      RoundBetween(Attenuated(s, gain), 0, s);
    } else {
      RoundBetween(Attenuated(s, gain), s, 0);
    }
  }

  /** Interpolation gives the nearest sample to the weighted mean: all of `a` at 0, all of `b` at 1. */
  lemma LerpIsNearest(a: Sample, b: Sample, t: real)
    requires 0.0 <= t <= 1.0
    ensures Nearest(Lerp(a, b, t), a as real * (1.0 - t) + b as real * t)
  {
    BetweenEnds(a, b, t);
    if a <= b {
      RoundBetween(Between(a, b, t), a, b);
    } else {
      RoundBetween(Between(a, b, t), b, a);
    }
    RoundIsNearest(Between(a, b, t));
    assert (b - a) as real == b as real - a as real;
    assert (b as real - a as real) * t == b as real * t - a as real * t;
  }

  lemma ScaleIsNearest(s: Sample, gain: real)
    requires 0.0 <= gain <= 1.0
    ensures Nearest(Scale(s, gain), s as real * gain)
  {
    var size: nat := if s < 0 then -(s as int) else s;
    ScaleWithin(s, gain, size);
    RoundIsNearest(Attenuated(s, gain));
  }

  lemma ProductIsMultiple(k: int, m: nat)
    requires m > 0
    ensures (k * m) % m == 0
    ensures (k * m) / m == k
  {
    DivisionIsUnique(k * m, m, k, 0);
  }

  lemma DivisionIsUnique(n: int, m: nat, q: int, r: int)
    requires m > 0 && 0 <= r < m && n == q * m + r
    ensures n / m == q && n % m == r
  {
    var d := n / m - q;
    assert d * m == (n / m) * m - q * m;
    assert d * m == r - n % m;
    LeastProduct(d, m);
  }

  lemma LeastProduct(d: int, m: nat)
    ensures d >= 1 ==> d * m >= m
    ensures d <= -1 ==> d * m <= -(m as int)
  {
    if d >= 1 {
      assert d * m == (d - 1) * m + m;
    } else if d <= -1 {
      assert d * m == (d + 1) * m - m;
    }
  }

  /** `n` times `m` by repeated addition: the samples that `n` frames of `m` channels take up. */
  function Span(n: nat, m: nat): nat {
    if n == 0 then 0 else Span(n - 1, m) + m
  }

  lemma {:induction false} SpanIsProduct(n: nat, m: nat)
    ensures Span(n, m) == n * m
  {
    if n > 0 {
      SpanIsProduct(n - 1, m);
      assert n * m == (n - 1) * m + m;
    }
  }

  lemma {:induction false} SpanSum(i: nat, j: nat, m: nat)
    ensures Span(i + j, m) == Span(i, m) + Span(j, m)
  {
    if j > 0 {
      SpanSum(i, j - 1, m);
    }
  }

  lemma {:induction false} SpanRises(i: nat, j: nat, m: nat)
    requires i <= j
    ensures Span(i, m) <= Span(j, m)
    ensures i < j ==> Span(i, m) + m <= Span(j, m)
  {
    if i < j {
      SpanRises(i, j - 1, m);
    }
  }

  ghost predicate IsMultiple(a: nat, m: nat) {
    exists k: nat :: a == Span(k, m)
  }

  lemma ZeroIsMultiple(m: nat)
    ensures IsMultiple(0, m)
  {
    assert 0 == Span(0, m);
  }

  lemma MultipleSum(a: nat, b: nat, m: nat)
    requires IsMultiple(a, m) && IsMultiple(b, m)
    ensures IsMultiple(a + b, m)
  {
    var i: nat :| a == Span(i, m);
    var j: nat :| b == Span(j, m);
    SpanSum(i, j, m);
  }

  lemma MultipleDifference(a: nat, b: nat, m: nat)
    requires b <= a && IsMultiple(a, m) && IsMultiple(b, m)
    ensures IsMultiple(a - b, m)
  {
    var i: nat :| a == Span(i, m);
    var j: nat :| b == Span(j, m);
    if j <= i {
      SpanSum(i - j, j, m);
    } else {
      SpanRises(i, j, m);
      assert a - b == Span(0, m);
    }
  }

  /** A multiple of `m` is zero or at least `m`. */
  lemma MultipleAtLeast(a: nat, m: nat)
    requires IsMultiple(a, m)
    ensures a == 0 || m <= a
  {
    var i: nat :| a == Span(i, m);
  }
}
