/**
 * The handful of `java.lang.Math` functions the orientation code calls.
 *
 * Dafny has no real square root or trigonometry, so each function is a field
 * of a `MathLib` value that callers pass in. Nothing is assumed about these
 * functions except the laws below, and a member only requires the laws it
 * actually uses.
 */
module RealMath {

  datatype MathLib = MathLib(
    sqrt: real -> real,
    sin: real -> real,
    cos: real -> real,
    acos: real -> real,
    pi: real)

  /** `Math.sqrt` on non-negative arguments: the non-negative root. */
  ghost predicate SqrtLaws(m: MathLib)
  {
    forall x :: 0.0 <= x ==> 0.0 <= m.sqrt(x) && m.sqrt(x) * m.sqrt(x) == x
  }

  /** 1 - c², the radicand of sin(acos c). */
  function OneMinusSquare(c: real): real
  {
    1.0 - c * c
  }

  /** The facts about `Math.sin`, `Math.cos` and `Math.acos` that the proofs use. */
  ghost predicate TrigLaws(m: MathLib)
  {
    && m.sin(0.0) == 0.0
    && m.cos(0.0) == 1.0
    && (forall a :: m.sin(a) * m.sin(a) + m.cos(a) * m.cos(a) == 1.0)
    && (forall c :: -1.0 <= c <= 1.0 ==> m.sin(m.acos(c)) == m.sqrt(OneMinusSquare(c)))
    && (forall c :: -1.0 <= c <= 1.0 ==> m.cos(m.acos(c)) == c)
    && m.pi > 0.0
  }

  ghost predicate Lawful(m: MathLib)
  {
    SqrtLaws(m) && TrigLaws(m)
  }

  /** `Math.toRadians`: degrees / 180 * PI. */
  function ToRadians(deg: real, m: MathLib): real
  {
    deg / 180.0 * m.pi
  }

  /** `Math.toDegrees`: radians * 180 / PI. */
  function ToDegrees(rad: real, m: MathLib): real
    requires m.pi != 0.0
  {
    rad * 180.0 / m.pi
  }

  /** Converting to degrees and back to radians, of half the angle, gives half the angle. */
  lemma HalfDegreesBack(rad: real, m: MathLib)
    requires m.pi > 0.0
    ensures ToRadians(ToDegrees(rad, m) / 2.0, m) == rad / 2.0
  {
    var d := rad * 180.0 / m.pi;
    assert d * m.pi == rad * 180.0;
    assert d / 2.0 / 180.0 * m.pi == (d * m.pi) / 360.0;
  }

  function Abs(x: real): (r: real)
    ensures 0.0 <= r && (r == x || r == -x)
  {
    if x < 0.0 then -x else x
  }

  /** A strictly positive argument has a strictly positive root. */
  lemma SqrtPositive(m: MathLib, x: real)
    requires SqrtLaws(m)
    requires 0.0 < x
    ensures 0.0 < m.sqrt(x)
  {
    assert m.sqrt(x) * m.sqrt(x) == x;
  }

  /** The root of a square is the absolute value. */
  lemma SqrtOfSquare(m: MathLib, a: real)
    requires SqrtLaws(m)
    ensures m.sqrt(a * a) == Abs(a)
  {
    var s := m.sqrt(a * a);
    assert 0.0 <= s && s * s == a * a;
    assert (s - Abs(a)) * (s + Abs(a)) == 0.0;
    if s + Abs(a) == 0.0 {
      assert s == 0.0;
    } else {
      assert s - Abs(a) == ((s - Abs(a)) * (s + Abs(a))) / (s + Abs(a));
    }
  }

  /** The root of zero is zero. */
  lemma SqrtZero(m: MathLib)
    requires SqrtLaws(m)
    ensures m.sqrt(0.0) == 0.0
  {
    SqrtOfSquare(m, 0.0);
  }

  /** The root of one is one. */
  lemma SqrtOne(m: MathLib)
    requires SqrtLaws(m)
    ensures m.sqrt(1.0) == 1.0
  {
    SqrtOfSquare(m, 1.0);
  }

  /** sin and cos of acos c, for c in [-1, 1]. */
  lemma SinCosOfAcos(m: MathLib, c: real)
    requires TrigLaws(m) && -1.0 <= c <= 1.0
    ensures m.sin(m.acos(c)) == m.sqrt(OneMinusSquare(c))
    ensures m.cos(m.acos(c)) == c
  {
  }
}
