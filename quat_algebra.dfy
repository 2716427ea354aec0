/**
 * The value-level formulas of `Quaternion.java`: every arithmetic formula the
 * class writes into its `points` and `matrix` arrays, as functions on a
 * four-component value, together with the properties those formulas have.
 *
 * Component order follows the source's `points` array: x = points[0],
 * y = points[1], z = points[2], w = points[3] (w is the scalar part).
 */
module QuatAlgebra {
  import opened RealMath

  datatype Quat = Quat(x: real, y: real, z: real, w: real)

  /** A plain three-component vector (the source's `Vector3f`). */
  datatype Vec3 = Vec3(x: real, y: real, z: real)

  // ---------------------------------------------------------------------
  // Component-wise arithmetic, dot product and norm
  // ---------------------------------------------------------------------

  function Add(a: Quat, b: Quat): Quat
  {
    Quat(a.x + b.x, a.y + b.y, a.z + b.z, a.w + b.w)
  }

  function Sub(a: Quat, b: Quat): Quat
  {
    Quat(a.x - b.x, a.y - b.y, a.z - b.z, a.w - b.w)
  }

  function Scale(a: Quat, k: real): Quat
  {
    Quat(a.x * k, a.y * k, a.z * k, a.w * k)
  }

  function Neg(a: Quat): Quat
  {
    Quat(-a.x, -a.y, -a.z, -a.w)
  }

  /** `Vector4f.dotProduct`: the four-term sum. */
  function Dot(a: Quat, b: Quat): real
  {
    a.x * b.x + a.y * b.y + a.z * b.z + a.w * b.w
  }

  function NormSq(a: Quat): (r: real)
    ensures 0.0 <= r
  {
    Dot(a, a)
  }

  /** `ra * a + rb * b`, component by component: the shape of every interpolation result. */
  function Combine(a: Quat, ra: real, b: Quat, rb: real): Quat
  {
    Quat(a.x * ra + b.x * rb, a.y * ra + b.y * rb, a.z * ra + b.z * rb, a.w * ra + b.w * rb)
  }

  /** Adding then subtracting the same quaternion restores the original. */
  lemma AddSubInverse(q: Quat, p: Quat)
    ensures Sub(Add(q, p), p) == q
    ensures Add(Sub(q, p), p) == q
  {
  }

  /** Scaling by -1 twice restores the original; scaling by -1 is negation. */
  lemma ScaleMinusOneInvolution(q: Quat)
    ensures Scale(q, -1.0) == Neg(q)
    ensures Scale(Scale(q, -1.0), -1.0) == q
  {
  }

  lemma DotNeg(a: Quat, b: Quat)
    ensures Dot(a, Neg(b)) == -Dot(a, b)
    ensures Neg(Neg(b)) == b
  {
  }

  // ---------------------------------------------------------------------
  // Hamilton product (multiplyByQuat, Quaternion.java:86-93)
  // ---------------------------------------------------------------------

  /** The Hamilton product `a * b`, with `a` (the receiver in the source) on the left. */
  function Mul(a: Quat, b: Quat): Quat
  {
    Quat(a.w * b.x + a.x * b.w + a.y * b.z - a.z * b.y,
         a.w * b.y + a.y * b.w + a.z * b.x - a.x * b.z,
         a.w * b.z + a.z * b.w + a.x * b.y - a.y * b.x,
         a.w * b.w - a.x * b.x - a.y * b.y - a.z * b.z)
  }

  /** `loadIdentityQuat`: (0, 0, 0, 1), neutral on both sides of the product. */
  function Identity(): Quat
  {
    Quat(0.0, 0.0, 0.0, 1.0)
  }

  lemma IdentityNeutral(q: Quat)
    ensures Mul(Identity(), q) == q && Mul(q, Identity()) == q
    ensures NormSq(Identity()) == 1.0
  {
  }

  /** The four assignments of `multiplyByQuat`, each reading the current value of its target. */
  function AssignW(a: Quat, b: Quat): Quat
  {
    a.(w := a.w * b.w - a.x * b.x - a.y * b.y - a.z * b.z)
  }

  function AssignX(a: Quat, b: Quat): Quat
  {
    a.(x := a.w * b.x + a.x * b.w + a.y * b.z - a.z * b.y)
  }

  function AssignY(a: Quat, b: Quat): Quat
  {
    a.(y := a.w * b.y + a.y * b.w + a.z * b.x - a.x * b.z)
  }

  function AssignZ(a: Quat, b: Quat): Quat
  {
    a.(z := a.w * b.z + a.z * b.w + a.x * b.y - a.y * b.x)
  }

  /**
   * What the two-argument `multiplyByQuat` computes when the output object is
   * the receiver itself: each component is written back into `points` before
   * the later components read it (Quaternion.java:86-93).
   */
  function InPlaceProduct(a: Quat, b: Quat): Quat
  {
    AssignZ(AssignY(AssignX(AssignW(a, b), b), b), b)
  }

  /** With the output aliased to the receiver, i * j comes out as 0 instead of k. */
  lemma InPlaceProductIsWrong()
    ensures InPlaceProduct(Quat(1.0, 0.0, 0.0, 0.0), Quat(0.0, 1.0, 0.0, 0.0))
         != Mul(Quat(1.0, 0.0, 0.0, 0.0), Quat(0.0, 1.0, 0.0, 0.0))
  {
  }

  // ---------------------------------------------------------------------
  // Normalisation (normalise, Quaternion.java:47-54)
  // ---------------------------------------------------------------------

  /** `sqrt(w*w + x*x + y*y + z*z)`. */
  function Magnitude(q: Quat, m: MathLib): real
  {
    m.sqrt(q.w * q.w + q.x * q.x + q.y * q.y + q.z * q.z)
  }

  /** Every component divided by the magnitude `sqrt(w*w + x*x + y*y + z*z)`. */
  function Normalized(q: Quat, m: MathLib): (r: Quat)
    requires SqrtLaws(m) && 0.0 < NormSq(q)
    ensures NormSq(r) == 1.0
    ensures NormSq(q) == 1.0 ==> r == q
  {
    var mag := Magnitude(q, m);
    SqrtPositive(m, NormSq(q));
    var r := Quat(q.x / mag, q.y / mag, q.z / mag, q.w / mag);
    NormalizedIsUnit(q, mag);
    if NormSq(q) == 1.0 then SqrtOne(m); r else r
  }

  lemma NormalizedIsUnit(q: Quat, mag: real)
    requires 0.0 < mag && mag * mag == NormSq(q)
    ensures NormSq(Quat(q.x / mag, q.y / mag, q.z / mag, q.w / mag)) == 1.0
  {
    var k := 1.0 / mag;
    assert k * mag == 1.0;
    var r := Quat(q.x / mag, q.y / mag, q.z / mag, q.w / mag);
    assert r == Quat(q.x * k, q.y * k, q.z * k, q.w * k);
    calc {
      NormSq(r);
      q.x * k * (q.x * k) + q.y * k * (q.y * k) + q.z * k * (q.z * k) + q.w * k * (q.w * k);
      (q.x * q.x + q.y * q.y + q.z * q.z + q.w * q.w) * (k * k);
      (mag * mag) * (k * k);
      (k * mag) * (k * mag);
    }
  }

  // ---------------------------------------------------------------------
  // Rotation matrix writers (Quaternion.java:196-288)
  // ---------------------------------------------------------------------

  /**
   * The 16 entries `toMatrixColMajor` (and `convertQuatToMatrix`) write:
   * entry (row r, column c) of the homogeneous rotation matrix at index 4*c + r.
   */
  function ColMajor(q: Quat): (r: seq<real>)
    ensures |r| == 16
  {
    var x, y, z, w := q.x, q.y, q.z, q.w;
    [1.0 - 2.0 * (y * y) - 2.0 * (z * z), 2.0 * (x * y) + 2.0 * (w * z), 2.0 * (x * z) - 2.0 * (w * y), 0.0,
     2.0 * (x * y) - 2.0 * (w * z), 1.0 - 2.0 * (x * x) - 2.0 * (z * z), 2.0 * (y * z) + 2.0 * (w * x), 0.0,
     2.0 * (x * z) + 2.0 * (w * y), 2.0 * (y * z) - 2.0 * (w * x), 1.0 - 2.0 * (x * x) - 2.0 * (y * y), 0.0,
     0.0, 0.0, 0.0, 1.0]
  }

  /** The 16 entries `toMatrixRowMajor` writes, listed by index 0..15. */
  function RowMajor(q: Quat): (r: seq<real>)
    ensures |r| == 16
  {
    var x, y, z, w := q.x, q.y, q.z, q.w;
    [1.0 - 2.0 * (y * y) - 2.0 * (z * z), 2.0 * (x * y) - 2.0 * (w * z), 2.0 * (x * z) + 2.0 * (w * y), 0.0,
     2.0 * (x * y) + 2.0 * (w * z), 1.0 - 2.0 * (x * x) - 2.0 * (z * z), 2.0 * (y * z) - 2.0 * (w * x), 0.0,
     2.0 * (x * z) - 2.0 * (w * y), 2.0 * (y * z) + 2.0 * (w * x), 1.0 - 2.0 * (x * x) - 2.0 * (y * y), 0.0,
     0.0, 0.0, 0.0, 1.0]
  }

  /**
   * What `convertQuatToMatrix` leaves in the cache: the `Matrixf4x4` setters
   * place entry (row r, column c) at 4*c + r in column-major layout and at
   * 4*r + c in row-major layout.
   */
  function Layout(q: Quat, columnMajor: bool): (r: seq<real>)
    ensures |r| == 16
  {
    if columnMajor then ColMajor(q) else RowMajor(q)
  }

  /** Index 4*i + j of the result holds index 4*j + i of `s`. */
  function Transpose(s: seq<real>): (t: seq<real>)
    requires |s| == 16
    ensures |t| == 16
  {
    [s[0], s[4], s[8], s[12], s[1], s[5], s[9], s[13], s[2], s[6], s[10], s[14], s[3], s[7], s[11], s[15]]
  }

  const IdentityMatrix: seq<real> :=
    [1.0, 0.0, 0.0, 0.0, 0.0, 1.0, 0.0, 0.0, 0.0, 0.0, 1.0, 0.0, 0.0, 0.0, 0.0, 1.0]

  /** Both writers fix the last row and the last column at (0, 0, 0, 1). */
  lemma HomogeneousBorder(q: Quat)
    ensures var c := ColMajor(q); c[3] == c[7] == c[11] == c[12] == c[13] == c[14] == 0.0 && c[15] == 1.0
    ensures var r := RowMajor(q); r[3] == r[7] == r[11] == r[12] == r[13] == r[14] == 0.0 && r[15] == 1.0
  {
  }

  /** The identity quaternion gives the identity matrix in either layout. */
  lemma IdentityGivesIdentityMatrix()
    ensures ColMajor(Identity()) == IdentityMatrix == RowMajor(Identity())
  {
  }

  /** Every entry is quadratic in the components, so q and -q give the same matrix. */
  lemma MatrixNegationInvariant(q: Quat)
    ensures ColMajor(Neg(q)) == ColMajor(q) && RowMajor(Neg(q)) == RowMajor(q)
  {
    var x, y, z, w := q.x, q.y, q.z, q.w;
    NegTimesNeg(x, x); NegTimesNeg(y, y); NegTimesNeg(z, z);
    NegTimesNeg(x, y); NegTimesNeg(x, z); NegTimesNeg(y, z);
    NegTimesNeg(w, x); NegTimesNeg(w, y); NegTimesNeg(w, z);
    var c, c' := ColMajor(q), ColMajor(Neg(q));
    forall k | 0 <= k < 16
      ensures c'[k] == c[k]
    {
    }
    var r, r' := RowMajor(q), RowMajor(Neg(q));
    forall k | 0 <= k < 16
      ensures r'[k] == r[k]
    {
    }
  }

  lemma NegTimesNeg(a: real, b: real)
    ensures (-a) * (-b) == a * b
  {
  }

  /** The row-major writer lays down the transpose of what the column-major writer lays down. */
  lemma RowMajorIsTranspose(q: Quat)
    ensures RowMajor(q) == Transpose(ColMajor(q))
    ensures ColMajor(q) == Transpose(RowMajor(q))
  {
  }

  /**
   * The two layouts agree exactly when the rotation is by 0 or 180 degrees
   * (w is zero or the axis part is zero), i.e. when the matrix is symmetric.
   */
  lemma LayoutsAgreeIff(q: Quat)
    ensures RowMajor(q) == ColMajor(q) <==> (q.w * q.x == 0.0 && q.w * q.y == 0.0 && q.w * q.z == 0.0)
  {
    if RowMajor(q) == ColMajor(q) {
      assert RowMajor(q)[1] == ColMajor(q)[1];
      assert RowMajor(q)[2] == ColMajor(q)[2];
      assert RowMajor(q)[6] == ColMajor(q)[6];
    }
    if q.w * q.x == 0.0 && q.w * q.y == 0.0 && q.w * q.z == 0.0 {
      var r, c := RowMajor(q), ColMajor(q);
      forall k | 0 <= k < 16
        ensures r[k] == c[k]
      {
      }
      assert r == c;
    }
  }

  // ---------------------------------------------------------------------
  // Matrix to quaternion (generateQuaternionFromMatrix, Quaternion.java:360-425)
  // ---------------------------------------------------------------------

  /**
   * Positions of the 3x3 rotation entries m00, m01, m02, m10, m11, m12, m20,
   * m21, m22 in a matrix array of the given size and layout. The tables live in
   * `Matrixf4x4` (matIndCol16_3x3 and friends); entry (r, c) sits at index
   * 4*c + r (column-major, 16 entries), 4*r + c (row-major, 16), 3*c + r
   * (column-major, 9) or 3*r + c (row-major, 9).
   */
  function Indices(size: nat, columnMajor: bool): (r: seq<nat>)
    requires size == 9 || size == 16
    ensures |r| == 9 && forall i :: 0 <= i < 9 ==> r[i] < size
  {
    if size == 16 then
      if columnMajor then [0, 4, 8, 1, 5, 9, 2, 6, 10] else [0, 1, 2, 4, 5, 6, 8, 9, 10]
    else
      if columnMajor then [0, 3, 6, 1, 4, 7, 2, 5, 8] else [0, 1, 2, 3, 4, 5, 6, 7, 8]
  }

  /** The nine rotation entries m00 .. m22, in row order, read through the index table. */
  function Entries(mat: seq<real>, columnMajor: bool): (e: seq<real>)
    requires |mat| == 9 || |mat| == 16
    ensures |e| == 9
  {
    var idx := Indices(|mat|, columnMajor);
    [mat[idx[0]], mat[idx[1]], mat[idx[2]], mat[idx[3]], mat[idx[4]], mat[idx[5]],
     mat[idx[6]], mat[idx[7]], mat[idx[8]]]
  }

  /** The argument of the square root in the branch the trace and the diagonal select. */
  function Radicand(e: seq<real>): real
    requires |e| == 9
  {
    var tr := e[0] + e[4] + e[8];
    if tr > 0.0 then tr + 1.0
    else if e[0] > e[4] && e[0] > e[8] then 1.0 + e[0] - e[4] - e[8]
    else if e[4] > e[8] then 1.0 + e[4] - e[0] - e[8]
    else 1.0 + e[8] - e[0] - e[4]
  }

  /**
   * Java returns NaN or an infinity unless the selected square root is of a
   * positive number; the source's comment demands a rotation matrix for this.
   */
  predicate Decodable(e: seq<real>)
    requires |e| == 9
  {
    Radicand(e) > 0.0
  }

  /** The four-branch selection: the largest of w, x, y, z is recovered by a root, the rest by division. */
  function FromEntries(e: seq<real>, m: MathLib): Quat
    requires |e| == 9 && SqrtLaws(m) && Decodable(e)
  {
    var tr := e[0] + e[4] + e[8];
    SqrtPositive(m, Radicand(e));
    if tr > 0.0 then
      var S := m.sqrt(tr + 1.0) * 2.0;
      Quat((e[7] - e[5]) / S, (e[2] - e[6]) / S, (e[3] - e[1]) / S, 0.25 * S)
    else if e[0] > e[4] && e[0] > e[8] then
      var S := m.sqrt(1.0 + e[0] - e[4] - e[8]) * 2.0;
      Quat(0.25 * S, (e[1] + e[3]) / S, (e[2] + e[6]) / S, (e[7] - e[5]) / S)
    else if e[4] > e[8] then
      var S := m.sqrt(1.0 + e[4] - e[0] - e[8]) * 2.0;
      Quat((e[1] + e[3]) / S, 0.25 * S, (e[5] + e[7]) / S, (e[2] - e[6]) / S)
    else
      var S := m.sqrt(1.0 + e[8] - e[0] - e[4]) * 2.0;
      Quat((e[2] + e[6]) / S, (e[5] + e[7]) / S, 0.25 * S, (e[3] - e[1]) / S)
  }

  /** The rotation entries of q, in the order m00 .. m22. */
  function RotationEntries(q: Quat): (e: seq<real>)
    ensures |e| == 9
  {
    var x, y, z, w := q.x, q.y, q.z, q.w;
    [1.0 - 2.0 * (y * y) - 2.0 * (z * z), 2.0 * (x * y) - 2.0 * (w * z), 2.0 * (x * z) + 2.0 * (w * y),
     2.0 * (x * y) + 2.0 * (w * z), 1.0 - 2.0 * (x * x) - 2.0 * (z * z), 2.0 * (y * z) - 2.0 * (w * x),
     2.0 * (x * z) - 2.0 * (w * y), 2.0 * (y * z) + 2.0 * (w * x), 1.0 - 2.0 * (x * x) - 2.0 * (y * y)]
  }

  /** Both writers, read back through the table for their own layout, give the same nine entries. */
  lemma EntriesOfWriters(q: Quat)
    ensures Entries(ColMajor(q), true) == RotationEntries(q)
    ensures Entries(RowMajor(q), false) == RotationEntries(q)
  {
  }

  /** With S = 4|c| and c != 0, dividing 4*c*v by S gives v carrying the sign of c. */
  lemma DivideBySignedFour(c: real, v: real, S: real)
    requires c != 0.0 && S == 4.0 * Abs(c)
    ensures (4.0 * (c * v)) / S == if c > 0.0 then v else -v
  {
    if c > 0.0 {
      assert 4.0 * (c * v) == v * S;
    } else {
      assert 4.0 * (c * v) == (-v) * S;
    }
  }

  /** sign(c) * q, for c != 0. */
  function SignedLike(c: real, q: Quat): Quat
  {
    if c > 0.0 then q else Neg(q)
  }

  /** The off-diagonal sums and differences of the rotation entries, each as 4 times a product. */
  lemma EntryCombinations(q: Quat)
    ensures RotationEntries(q)[7] - RotationEntries(q)[5] == 4.0 * (q.w * q.x) == 4.0 * (q.x * q.w)
    ensures RotationEntries(q)[2] - RotationEntries(q)[6] == 4.0 * (q.w * q.y) == 4.0 * (q.y * q.w)
    ensures RotationEntries(q)[3] - RotationEntries(q)[1] == 4.0 * (q.w * q.z) == 4.0 * (q.z * q.w)
    ensures RotationEntries(q)[1] + RotationEntries(q)[3] == 4.0 * (q.x * q.y) == 4.0 * (q.y * q.x)
    ensures RotationEntries(q)[2] + RotationEntries(q)[6] == 4.0 * (q.x * q.z) == 4.0 * (q.z * q.x)
    ensures RotationEntries(q)[5] + RotationEntries(q)[7] == 4.0 * (q.y * q.z) == 4.0 * (q.z * q.y)
  {
  }

  /** (2a)(2a) = 4a². */
  lemma DoubleSquared(a: real)
    ensures (2.0 * a) * (2.0 * a) == 4.0 * (a * a)
  {
  }

  /** The diagonal of the rotation entries. */
  lemma DiagonalEntries(q: Quat)
    ensures RotationEntries(q)[0] == 1.0 - 2.0 * (q.y * q.y) - 2.0 * (q.z * q.z)
    ensures RotationEntries(q)[4] == 1.0 - 2.0 * (q.x * q.x) - 2.0 * (q.z * q.z)
    ensures RotationEntries(q)[8] == 1.0 - 2.0 * (q.x * q.x) - 2.0 * (q.y * q.y)
  {
  }

  /** The diagonal identities on the squared components alone (linear). */
  lemma DiagonalLinear(xx: real, yy: real, zz: real, ww: real, e0: real, e4: real, e8: real)
    requires xx + yy + zz + ww == 1.0
    requires e0 == 1.0 - 2.0 * yy - 2.0 * zz && e4 == 1.0 - 2.0 * xx - 2.0 * zz && e8 == 1.0 - 2.0 * xx - 2.0 * yy
    ensures e0 + e4 + e8 + 1.0 == 4.0 * ww
    ensures 1.0 + e0 - e4 - e8 == 4.0 * xx
    ensures 1.0 + e4 - e0 - e8 == 4.0 * yy
    ensures 1.0 + e8 - e0 - e4 == 4.0 * zz
  {
  }

  /** For a unit quaternion the four radicands are 4w², 4x², 4y² and 4z². */
  lemma DiagonalSquares(q: Quat)
    requires NormSq(q) == 1.0
    ensures RotationEntries(q)[0] + RotationEntries(q)[4] + RotationEntries(q)[8] + 1.0 == 4.0 * (q.w * q.w)
    ensures 1.0 + RotationEntries(q)[0] - RotationEntries(q)[4] - RotationEntries(q)[8] == 4.0 * (q.x * q.x)
    ensures 1.0 + RotationEntries(q)[4] - RotationEntries(q)[0] - RotationEntries(q)[8] == 4.0 * (q.y * q.y)
    ensures 1.0 + RotationEntries(q)[8] - RotationEntries(q)[0] - RotationEntries(q)[4] == 4.0 * (q.z * q.z)
  {
    var e := RotationEntries(q);
    DiagonalEntries(q);
    DiagonalLinear(q.x * q.x, q.y * q.y, q.z * q.z, q.w * q.w, e[0], e[4], e[8]);
  }

  /** One branch: the directly recovered component c has root 2|c|, and the others are divided by 4|c|. */
  lemma BranchRecovers(m: MathLib, radicand: real, c: real, a: real, b: real, d: real,
                       ea: real, eb: real, ed: real)
    requires SqrtLaws(m) && radicand == 4.0 * (c * c) && radicand > 0.0
    requires ea == 4.0 * (c * a) && eb == 4.0 * (c * b) && ed == 4.0 * (c * d)
    ensures var S := m.sqrt(radicand) * 2.0;
      && 0.25 * S == Abs(c)
      && ea / S == (if c > 0.0 then a else -a)
      && eb / S == (if c > 0.0 then b else -b)
      && ed / S == (if c > 0.0 then d else -d)
  {
    var t := 2.0 * c;
    SqrtOfSquare(m, t);
    DoubleSquared(c);
    assert radicand == t * t;
    var S := m.sqrt(radicand) * 2.0;
    assert S == 4.0 * Abs(c);
    assert c != 0.0;
    DivideBySignedFour(c, a, S);
    DivideBySignedFour(c, b, S);
    DivideBySignedFour(c, d, S);
  }

  /** The first branch (positive trace) recovers sign(w) * q. */
  lemma DecodeTraceBranch(q: Quat, e: seq<real>, m: MathLib)
    requires SqrtLaws(m) && |e| == 9 && e[0] + e[4] + e[8] > 0.0
    requires e[7] - e[5] == 4.0 * (q.w * q.x) && e[2] - e[6] == 4.0 * (q.w * q.y)
    requires e[3] - e[1] == 4.0 * (q.w * q.z)
    requires e[0] + e[4] + e[8] + 1.0 == 4.0 * (q.w * q.w)
    ensures Decodable(e) && FromEntries(e, m) == SignedLike(q.w, q)
  {
    BranchRecovers(m, e[0] + e[4] + e[8] + 1.0, q.w, q.x, q.y, q.z, e[7] - e[5], e[2] - e[6], e[3] - e[1]);
  }

  /** The second branch (m00 the largest diagonal entry) recovers sign(x) * q. */
  lemma DecodeXBranch(q: Quat, e: seq<real>, m: MathLib)
    requires SqrtLaws(m) && |e| == 9 && !(e[0] + e[4] + e[8] > 0.0) && e[0] > e[4] && e[0] > e[8]
    requires 1.0 + e[0] - e[4] - e[8] > 0.0
    requires e[1] + e[3] == 4.0 * (q.x * q.y) && e[2] + e[6] == 4.0 * (q.x * q.z)
    requires e[7] - e[5] == 4.0 * (q.x * q.w)
    requires 1.0 + e[0] - e[4] - e[8] == 4.0 * (q.x * q.x)
    ensures Decodable(e) && FromEntries(e, m) == SignedLike(q.x, q)
  {
    BranchRecovers(m, 1.0 + e[0] - e[4] - e[8], q.x, q.y, q.z, q.w, e[1] + e[3], e[2] + e[6], e[7] - e[5]);
  }

  /** The third branch (m11 the largest) recovers sign(y) * q. */
  lemma DecodeYBranch(q: Quat, e: seq<real>, m: MathLib)
    requires SqrtLaws(m) && |e| == 9 && !(e[0] + e[4] + e[8] > 0.0) && !(e[0] > e[4] && e[0] > e[8])
    requires e[4] > e[8] && 1.0 + e[4] - e[0] - e[8] > 0.0
    requires e[1] + e[3] == 4.0 * (q.y * q.x) && e[5] + e[7] == 4.0 * (q.y * q.z)
    requires e[2] - e[6] == 4.0 * (q.y * q.w)
    requires 1.0 + e[4] - e[0] - e[8] == 4.0 * (q.y * q.y)
    ensures Decodable(e) && FromEntries(e, m) == SignedLike(q.y, q)
  {
    BranchRecovers(m, 1.0 + e[4] - e[0] - e[8], q.y, q.x, q.z, q.w, e[1] + e[3], e[5] + e[7], e[2] - e[6]);
  }

  /** The last branch (m22 the largest) recovers sign(z) * q. */
  lemma DecodeZBranch(q: Quat, e: seq<real>, m: MathLib)
    requires SqrtLaws(m) && |e| == 9 && !(e[0] + e[4] + e[8] > 0.0) && !(e[0] > e[4] && e[0] > e[8])
    requires !(e[4] > e[8]) && 1.0 + e[8] - e[0] - e[4] > 0.0
    requires e[2] + e[6] == 4.0 * (q.z * q.x) && e[5] + e[7] == 4.0 * (q.z * q.y)
    requires e[3] - e[1] == 4.0 * (q.z * q.w)
    requires 1.0 + e[8] - e[0] - e[4] == 4.0 * (q.z * q.z)
    ensures Decodable(e) && FromEntries(e, m) == SignedLike(q.z, q)
  {
    BranchRecovers(m, 1.0 + e[8] - e[0] - e[4], q.z, q.x, q.y, q.w, e[2] + e[6], e[5] + e[7], e[3] - e[1]);
  }

  /**
   * Whichever branch the trace and diagonal select, its radicand is positive
   * for a unit quaternion's entries (xx, yy, zz, ww stand for the squares).
   */
  lemma BranchRadicandPositive(xx: real, yy: real, zz: real, ww: real, e0: real, e4: real, e8: real)
    requires xx + yy + zz + ww == 1.0
    requires e0 + e4 + e8 + 1.0 == 4.0 * ww && 1.0 + e0 - e4 - e8 == 4.0 * xx
    requires 1.0 + e4 - e0 - e8 == 4.0 * yy && 1.0 + e8 - e0 - e4 == 4.0 * zz
    ensures !(e0 + e4 + e8 > 0.0) && e0 > e4 && e0 > e8 ==> 1.0 + e0 - e4 - e8 > 0.0
    ensures !(e0 + e4 + e8 > 0.0) && !(e0 > e4 && e0 > e8) && e4 > e8 ==> 1.0 + e4 - e0 - e8 > 0.0
    ensures !(e0 + e4 + e8 > 0.0) && !(e0 > e4 && e0 > e8) && !(e4 > e8) ==> 1.0 + e8 - e0 - e4 > 0.0
  {
  }

  /**
   * Reading back the matrix of a unit quaternion recovers it up to sign (q and
   * -q are the same rotation): the diagonal branch taken always has a positive
   * root, and the component it recovers directly is never zero.
   */
  lemma MatrixRoundTrip(q: Quat, m: MathLib)
    requires SqrtLaws(m) && NormSq(q) == 1.0
    ensures Decodable(RotationEntries(q))
    ensures FromEntries(RotationEntries(q), m) == q || FromEntries(RotationEntries(q), m) == Neg(q)
  {
    var e := RotationEntries(q);
    EntryCombinations(q);
    DiagonalSquares(q);
    BranchRadicandPositive(q.x * q.x, q.y * q.y, q.z * q.z, q.w * q.w, e[0], e[4], e[8]);
    if e[0] + e[4] + e[8] > 0.0 {
      DecodeTraceBranch(q, e, m);
    } else if e[0] > e[4] && e[0] > e[8] {
      DecodeXBranch(q, e, m);
    } else if e[4] > e[8] {
      DecodeYBranch(q, e, m);
    } else {
      DecodeZBranch(q, e, m);
    }
  }

  /** `setColumnMajor` on the output of `toMatrixColMajor` gives back q or -q. */
  lemma ColumnMajorRoundTrip(q: Quat, m: MathLib)
    requires SqrtLaws(m) && NormSq(q) == 1.0
    ensures Decodable(Entries(ColMajor(q), true))
    ensures var r := FromEntries(Entries(ColMajor(q), true), m); r == q || r == Neg(q)
  {
    EntriesOfWriters(q);
    MatrixRoundTrip(q, m);
  }

  /** `setRowMajor` on the output of `toMatrixRowMajor` gives back q or -q. */
  lemma RowMajorRoundTrip(q: Quat, m: MathLib)
    requires SqrtLaws(m) && NormSq(q) == 1.0
    ensures Decodable(Entries(RowMajor(q), false))
    ensures var r := FromEntries(Entries(RowMajor(q), false), m); r == q || r == Neg(q)
  {
    EntriesOfWriters(q);
    MatrixRoundTrip(q, m);
  }

  /** Whatever the layout flag, decoding the cache through that layout's index table gives back q or -q. */
  lemma LayoutRoundTrip(q: Quat, columnMajor: bool, m: MathLib)
    requires SqrtLaws(m) && NormSq(q) == 1.0
    ensures Decodable(Entries(Layout(q, columnMajor), columnMajor))
    ensures var r := FromEntries(Entries(Layout(q, columnMajor), columnMajor), m); r == q || r == Neg(q)
  {
    if columnMajor {
      ColumnMajorRoundTrip(q, m);
    } else {
      RowMajorRoundTrip(q, m);
    }
  }

  // ---------------------------------------------------------------------
  // Spherical interpolation (slerp, Quaternion.java:518-575)
  // ---------------------------------------------------------------------

  /** The end point actually used: `b`, or `-b` when it lies on the far hemisphere. */
  function NearSide(a: Quat, b: Quat): Quat
  {
    if Dot(a, b) < 0.0 then Neg(b) else b
  }

  /** 0 <= c < 1 implies c² < 1. */
  lemma SquareBelowOne(c: real)
    requires 0.0 <= c < 1.0
    ensures c * c < 1.0
  {
    assert c * c <= c * 1.0;
  }

  /** slerp's weight sin(u * acos c) / sqrt(1 - c²), for the fraction u of the half-angle. */
  function SlerpRatio(c: real, u: real, m: MathLib): real
    requires SqrtLaws(m) && 0.0 <= c < 1.0
  {
    SquareBelowOne(c);
    SqrtPositive(m, OneMinusSquare(c));
    m.sin(u * m.acos(c)) / m.sqrt(OneMinusSquare(c))
  }

  /** The full half-angle has weight one and the empty one weight zero. */
  lemma SlerpRatioEnds(c: real, m: MathLib)
    requires Lawful(m) && 0.0 <= c < 1.0
    ensures SlerpRatio(c, 1.0, m) == 1.0 && SlerpRatio(c, 0.0, m) == 0.0
  {
    SquareBelowOne(c);
    SqrtPositive(m, OneMinusSquare(c));
    assert 1.0 * m.acos(c) == m.acos(c);
    assert 0.0 * m.acos(c) == 0.0;
    assert m.sin(m.acos(c)) == m.sqrt(OneMinusSquare(c));
  }

  /** Weights (1, 0) select the first point and (0, 1) the second. */
  lemma CombineUnitWeights(a: Quat, b: Quat)
    ensures Combine(a, 1.0, b, 0.0) == a && Combine(a, 0.0, b, 1.0) == b
  {
  }

  /**
   * `slerp(input, output, t)` with this = a and input = b: for |cos| >= 1
   * the output is a copy of a; otherwise the sine-weighted combination of a
   * and the near-side b with half-angle acos(|cos|).
   */
  function Slerp(a: Quat, b: Quat, t: real, m: MathLib): Quat
    requires SqrtLaws(m)
  {
    var cosHalf := Abs(Dot(a, b));
    if cosHalf >= 1.0 then a
    else Combine(a, SlerpRatio(cosHalf, 1.0 - t, m), NearSide(a, b), SlerpRatio(cosHalf, t, m))
  }

  /** The interpolation weights are those of the near-side end point. */
  lemma NearSideDot(a: Quat, b: Quat)
    ensures Dot(a, NearSide(a, b)) == Abs(Dot(a, b))
  {
    DotNeg(a, b);
  }

  /** At t = 0 the interpolation is the start point. */
  lemma SlerpAtZero(a: Quat, b: Quat, m: MathLib)
    requires Lawful(m)
    ensures Slerp(a, b, 0.0, m) == a
  {
    var c := Abs(Dot(a, b));
    if c < 1.0 {
      SlerpRatioEnds(c, m);
      assert 1.0 - 0.0 == 1.0;
      CombineUnitWeights(a, NearSide(a, b));
    }
  }

  /** At t = 1 the interpolation is the near-side end point, unless the two are parallel. */
  lemma SlerpAtOne(a: Quat, b: Quat, m: MathLib)
    requires Lawful(m)
    ensures Abs(Dot(a, b)) < 1.0 ==> Slerp(a, b, 1.0, m) == NearSide(a, b)
    ensures Abs(Dot(a, b)) >= 1.0 ==> Slerp(a, b, 1.0, m) == a
  {
    var c := Abs(Dot(a, b));
    if c < 1.0 {
      SlerpRatioEnds(c, m);
      assert 1.0 - 1.0 == 0.0;
      CombineUnitWeights(a, NearSide(a, b));
    }
  }

  /** q and -q are the same rotation: swapping the end point for its negation changes nothing. */
  lemma SlerpDoubleCover(a: Quat, b: Quat, t: real, m: MathLib)
    requires SqrtLaws(m) && Dot(a, b) != 0.0
    ensures Slerp(a, Neg(b), t, m) == Slerp(a, b, t, m)
  {
    DotNeg(a, b);
    assert Abs(Dot(a, Neg(b))) == Abs(Dot(a, b));
    assert NearSide(a, Neg(b)) == NearSide(a, b);
  }

  /**
   * For a given cosine, each output component is computed from the same
   * component of the two operands and from nothing else.
   */
  lemma SlerpComponentwise(a: Quat, b: Quat, a': Quat, b': Quat, t: real, m: MathLib)
    requires SqrtLaws(m) && Dot(a, b) == Dot(a', b')
    ensures a.x == a'.x && b.x == b'.x ==> Slerp(a, b, t, m).x == Slerp(a', b', t, m).x
    ensures a.y == a'.y && b.y == b'.y ==> Slerp(a, b, t, m).y == Slerp(a', b', t, m).y
    ensures a.z == a'.z && b.z == b'.z ==> Slerp(a, b, t, m).z == Slerp(a', b', t, m).z
    ensures a.w == a'.w && b.w == b'.w ==> Slerp(a, b, t, m).w == Slerp(a', b', t, m).w
  {
    var d := Dot(a, b);
    SlerpByCosine(a, b, t, m, d);
    SlerpByCosine(a', b', t, m, d);
    if Abs(d) < 1.0 {
      var r0, r1 := SlerpRatio(Abs(d), 1.0 - t, m), SlerpRatio(Abs(d), t, m);
      var n, n' := (if d < 0.0 then Neg(b) else b), (if d < 0.0 then Neg(b') else b');
      CombineComponentwise(a, n, a', n', r0, r1);
    }
  }

  /** Each component of a weighted sum depends only on the same component of its operands. */
  lemma CombineComponentwise(a: Quat, b: Quat, a': Quat, b': Quat, ra: real, rb: real)
    ensures a.x == a'.x && b.x == b'.x ==> Combine(a, ra, b, rb).x == Combine(a', ra, b', rb).x
    ensures a.y == a'.y && b.y == b'.y ==> Combine(a, ra, b, rb).y == Combine(a', ra, b', rb).y
    ensures a.z == a'.z && b.z == b'.z ==> Combine(a, ra, b, rb).z == Combine(a', ra, b', rb).z
    ensures a.w == a'.w && b.w == b'.w ==> Combine(a, ra, b, rb).w == Combine(a', ra, b', rb).w
  {
  }

  /** Slerp written with its cosine as a parameter. */
  lemma SlerpByCosine(a: Quat, b: Quat, t: real, m: MathLib, d: real)
    requires SqrtLaws(m) && d == Dot(a, b)
    ensures Slerp(a, b, t, m)
         == if Abs(d) >= 1.0 then a
            else Combine(a, SlerpRatio(Abs(d), 1.0 - t, m), if d < 0.0 then Neg(b) else b, SlerpRatio(Abs(d), t, m))
  {
  }

  // ---------------------------------------------------------------------
  // slerp2 (Quaternion.java:586-623)
  // ---------------------------------------------------------------------

  /** The outcome of `slerp2`: the end quaternion as the call leaves it, and the output. */
  datatype Slerp2Result = Slerp2Result(endAfter: Quat, output: Quat)

  /** slerp2's weight sin(u * theta) * (1 / sin theta), theta = acos c. */
  function Slerp2Ratio(c: real, u: real, m: MathLib): real
    requires Lawful(m) && 0.0 <= c < 1.0
  {
    SquareBelowOne(c);
    SqrtPositive(m, OneMinusSquare(c));
    var theta := m.acos(c);
    assert m.sin(theta) == m.sqrt(OneMinusSquare(c));
    m.sin(u * theta) * (1.0 / m.sin(theta))
  }

  /** As for slerp, the full angle has weight one and the empty one weight zero. */
  lemma Slerp2RatioEnds(c: real, m: MathLib)
    requires Lawful(m) && 0.0 <= c < 1.0
    ensures Slerp2Ratio(c, 1.0, m) == 1.0 && Slerp2Ratio(c, 0.0, m) == 0.0
  {
    SquareBelowOne(c);
    SqrtPositive(m, OneMinusSquare(c));
    var theta := m.acos(c);
    assert m.sin(theta) == m.sqrt(OneMinusSquare(c));
    assert 1.0 * theta == theta;
    assert 0.0 * theta == 0.0;
    assert m.sin(theta) * (1.0 / m.sin(theta)) == 1.0;
  }

  /**
   * `slerp2(end, output, alpha)` with this = a: equal values are copied; an
   * end on the far hemisphere is negated IN PLACE (the caller's quaternion
   * changes); the weights are linear unless 1 - |cos| exceeds 0.1.
   */
  function Slerp2(a: Quat, end: Quat, alpha: real, m: MathLib): Slerp2Result
    requires Lawful(m)
  {
    if a == end then Slerp2Result(end, a)
    else
      var end' := if Dot(a, end) < 0.0 then Scale(end, -1.0) else end;
      var result := Abs(Dot(a, end));
      if 1.0 - result > 0.1 then
        Slerp2Result(end', Combine(a, Slerp2Ratio(result, 1.0 - alpha, m), end', Slerp2Ratio(result, alpha, m)))
      else
        Slerp2Result(end', Combine(a, 1.0 - alpha, end', alpha))
  }

  /** Equal inputs are copied and the end is left alone. */
  lemma Slerp2Equal(a: Quat, alpha: real, m: MathLib)
    requires Lawful(m)
    ensures Slerp2(a, a, alpha, m) == Slerp2Result(a, a)
  {
  }

  /** The end quaternion is negated exactly when it lies on the far hemisphere of a different start. */
  lemma Slerp2NegatesEnd(a: Quat, end: Quat, alpha: real, m: MathLib)
    requires Lawful(m)
    ensures Slerp2(a, end, alpha, m).endAfter == (if a != end && Dot(a, end) < 0.0 then Neg(end) else end)
  {
  }

  /** Close inputs (1 - |cos| <= 0.1) are blended linearly with weights 1 - alpha and alpha. */
  lemma Slerp2LinearWhenClose(a: Quat, end: Quat, alpha: real, m: MathLib)
    requires Lawful(m) && a != end && 1.0 - Abs(Dot(a, end)) <= 0.1
    ensures Slerp2(a, end, alpha, m).output == Combine(a, 1.0 - alpha, NearSide(a, end), alpha)
  {
    assert Scale(end, -1.0) == Neg(end);
  }

  /** alpha = 0 gives the start point on every branch. */
  lemma Slerp2AtZero(a: Quat, end: Quat, m: MathLib)
    requires Lawful(m)
    ensures Slerp2(a, end, 0.0, m).output == a
  {
    var result := Abs(Dot(a, end));
    var end' := Slerp2(a, end, 0.0, m).endAfter;
    CombineUnitWeights(a, end');
    if a != end && 1.0 - result > 0.1 {
      Slerp2RatioEnds(result, m);
      assert 1.0 - 0.0 == 1.0;
    }
  }

  /** alpha = 1 gives the (possibly negated) end point on every branch. */
  lemma Slerp2AtOne(a: Quat, end: Quat, m: MathLib)
    requires Lawful(m)
    ensures Slerp2(a, end, 1.0, m).output == Slerp2(a, end, 1.0, m).endAfter
  {
    var result := Abs(Dot(a, end));
    var end' := Slerp2(a, end, 1.0, m).endAfter;
    CombineUnitWeights(a, end');
    if a != end && 1.0 - result > 0.1 {
      Slerp2RatioEnds(result, m);
      assert 1.0 - 1.0 == 0.0;
    }
  }

  // ---------------------------------------------------------------------
  // Axis-angle (toAxisAngle, Quaternion.java:295-320; setAxisAngle, 490-498)
  // ---------------------------------------------------------------------

  /** A unit quaternion's components lie in [-1, 1]; the scalar part is the one used here. */
  lemma UnitScalarBounded(q: Quat)
    requires NormSq(q) == 1.0
    ensures -1.0 <= q.w <= 1.0
  {
    assert q.w * q.w <= 1.0;
  }

  /** A scalar part above one makes the norm positive. */
  lemma LargeScalarPositiveNorm(q: Quat)
    requires q.w > 1.0
    ensures NormSq(q) > 1.0
  {
    assert q.w * q.w > q.w * 1.0;
  }

  /** The quaternion `toAxisAngle` works on: normalised first when (and only when) w > 1. */
  function AxisAngleSource(q: Quat, m: MathLib): (r: Quat)
    requires SqrtLaws(m)
    ensures r.w <= 1.0
    ensures q.w <= 1.0 ==> r == q
  {
    if q.w > 1.0 then
      LargeScalarPositiveNorm(q);
      var r := Normalized(q, m);
      UnitScalarBounded(r);
      r
    else q
  }

  /** What `toAxisAngle` writes into its output vector: the axis in points[0..2], the angle in points[3]. */
  datatype AxisAngleValue = AxisAngleValue(axis: Vec3, angle: real)

  /** sqrt(1 - w²): sin(angle / 2) for a unit quaternion. */
  function ScalarRoot(p: Quat, m: MathLib): real
  {
    m.sqrt(OneMinusSquare(p.w))
  }

  /** The axis (x, y, z) / sqrt(1 - w²), left undivided when that root is below 0.001, and the angle 2 acos w in radians. */
  function AxisAngleOf(p: Quat, m: MathLib): AxisAngleValue
  {
    var angle := 2.0 * m.acos(p.w);
    var s := ScalarRoot(p, m);
    if s < 0.001 then AxisAngleValue(Vec3(p.x, p.y, p.z), angle)
    else AxisAngleValue(Vec3(p.x / s, p.y / s, p.z / s), angle)
  }

  /** `toAxisAngle`: normalise when w > 1, then read off the axis and the angle. */
  function AxisAngle(q: Quat, m: MathLib): AxisAngleValue
    requires SqrtLaws(m)
  {
    AxisAngleOf(AxisAngleSource(q, m), m)
  }

  /** Reading an axis-angle with sqrt(1 - w²) >= 0.001 divides the vector part by that root. */
  lemma AxisAngleOfDivides(q: Quat, m: MathLib)
    requires ScalarRoot(q, m) >= 0.001
    ensures var s := ScalarRoot(q, m);
      AxisAngleOf(q, m) == AxisAngleValue(Vec3(q.x / s, q.y / s, q.z / s), 2.0 * m.acos(q.w))
  {
  }

  /** `setAxisAngle(vec, rot)`, rot in degrees: (vec * sin(rot/2), cos(rot/2)). */
  function AxisAngleQuat(v: Vec3, rot: real, m: MathLib): Quat
  {
    var s := m.sin(ToRadians(rot / 2.0, m));
    Quat(v.x * s, v.y * s, v.z * s, m.cos(ToRadians(rot / 2.0, m)))
  }

  function Norm3Sq(v: Vec3): real
  {
    v.x * v.x + v.y * v.y + v.z * v.z
  }

  /** A unit axis gives a unit quaternion, whatever the angle. */
  lemma AxisAngleQuatIsUnit(v: Vec3, rot: real, m: MathLib)
    requires TrigLaws(m) && Norm3Sq(v) == 1.0
    ensures NormSq(AxisAngleQuat(v, rot, m)) == 1.0
  {
    var h := ToRadians(rot / 2.0, m);
    var s, c := m.sin(h), m.cos(h);
    assert s * s + c * c == 1.0;
    calc {
      NormSq(AxisAngleQuat(v, rot, m));
      (v.x * s) * (v.x * s) + (v.y * s) * (v.y * s) + (v.z * s) * (v.z * s) + c * c;
      Norm3Sq(v) * (s * s) + c * c;
    }
  }

  /** The zero angle gives the identity, whatever the axis. */
  lemma AxisAngleZero(v: Vec3, m: MathLib)
    requires TrigLaws(m)
    ensures AxisAngleQuat(v, 0.0, m) == Identity()
  {
    assert ToRadians(0.0 / 2.0, m) == 0.0;
  }

  /** Dividing the vector part by s = sqrt(x² + y² + z²) gives a unit axis. */
  lemma DividedAxisIsUnit(x: real, y: real, z: real, s: real)
    requires s > 0.0 && s * s == x * x + y * y + z * z
    ensures (x / s) * (x / s) + (y / s) * (y / s) + (z / s) * (z / s) == 1.0
  {
    var k := 1.0 / s;
    assert k * s == 1.0;
    assert x / s == x * k && y / s == y * k && z / s == z * k;
    calc {
      (x * k) * (x * k) + (y * k) * (y * k) + (z * k) * (z * k);
      (x * x + y * y + z * z) * (k * k);
      (s * s) * (k * k);
      (k * s) * (k * s);
    }
  }

  /** For a unit quaternion, 1 - w² is the squared length of the vector part. */
  lemma UnitVectorPart(q: Quat)
    requires NormSq(q) == 1.0
    ensures 1.0 - q.w * q.w == q.x * q.x + q.y * q.y + q.z * q.z
  {
  }

  /** The axis returned for a unit quaternion is a unit vector whenever it is divided. */
  lemma AxisAngleAxisIsUnit(q: Quat, m: MathLib)
    requires SqrtLaws(m) && NormSq(q) == 1.0
    requires ScalarRoot(q, m) >= 0.001
    ensures Norm3Sq(AxisAngle(q, m).axis) == 1.0
  {
    UnitScalarBounded(q);
    UnitVectorPart(q);
    var s := ScalarRoot(q, m);
    assert AxisAngle(q, m) == AxisAngleOf(q, m);
    AxisAngleOfDivides(q, m);
    assert s * s == 1.0 - q.w * q.w;
    DividedAxisIsUnit(q.x, q.y, q.z, s);
  }

  /** For |w| <= 1 the half-angle acos w has sine sqrt(1 - w²) and cosine w. */
  lemma HalfAngleOfScalar(q: Quat, m: MathLib)
    requires TrigLaws(m) && -1.0 <= q.w <= 1.0
    ensures m.sin(m.acos(q.w)) == ScalarRoot(q, m) && m.cos(m.acos(q.w)) == q.w
  {
    SinCosOfAcos(m, q.w);
  }

  /** An axis divided by s, rotated by an angle whose half has sine s and cosine w, rebuilds (x, y, z, w). */
  lemma AxisAngleQuatUndivides(x: real, y: real, z: real, w: real, s: real, rot: real, m: MathLib)
    requires s > 0.0
    requires m.sin(ToRadians(rot / 2.0, m)) == s && m.cos(ToRadians(rot / 2.0, m)) == w
    ensures AxisAngleQuat(Vec3(x / s, y / s, z / s), rot, m) == Quat(x, y, z, w)
  {
    assert x / s * s == x && y / s * s == y && z / s * s == z;
  }

  /**
   * Feeding the axis-angle of a unit quaternion back into the axis-angle
   * constructor, with the angle converted from radians to the degrees that
   * `setAxisAngle` expects, rebuilds the quaternion.
   */
  lemma AxisAngleRoundTrip(q: Quat, m: MathLib)
    requires Lawful(m) && NormSq(q) == 1.0
    requires ScalarRoot(q, m) >= 0.001
    ensures var r := AxisAngle(q, m); AxisAngleQuat(r.axis, ToDegrees(r.angle, m), m) == q
  {
    UnitScalarBounded(q);
    var s := ScalarRoot(q, m);
    var half := m.acos(q.w);
    assert AxisAngle(q, m) == AxisAngleOf(q, m);
    AxisAngleOfDivides(q, m);
    HalfDegreesBack(2.0 * half, m);
    HalfAngleOfScalar(q, m);
    AxisAngleQuatUndivides(q.x, q.y, q.z, q.w, s, ToDegrees(2.0 * half, m), m);
  }

  // ---------------------------------------------------------------------
  // Euler angles (setEulerAngle, Quaternion.java:462-482)
  // ---------------------------------------------------------------------

  /** Half of an angle given in degrees, in radians: `toRadians(a) / 2`. */
  function HalfRadians(deg: real, m: MathLib): real
  {
    ToRadians(deg, m) / 2.0
  }

  /**
   * `setEulerAngle(azimuth, pitch, roll)`, all in degrees: heading = roll,
   * attitude = pitch, bank = azimuth, combined with the half-angle products.
   */
  function EulerQuat(azimuth: real, pitch: real, roll: real, m: MathLib): Quat
  {
    var c1, s1 := m.cos(HalfRadians(roll, m)), m.sin(HalfRadians(roll, m));
    var c2, s2 := m.cos(HalfRadians(pitch, m)), m.sin(HalfRadians(pitch, m));
    var c3, s3 := m.cos(HalfRadians(azimuth, m)), m.sin(HalfRadians(azimuth, m));
    var c1c2, s1s2 := c1 * c2, s1 * s2;
    Quat(c1c2 * s3 + s1s2 * c3, s1 * c2 * c3 + c1 * s2 * s3, c1 * s2 * c3 - s1 * c2 * s3, c1c2 * c3 - s1s2 * s3)
  }

  const XAxis := Vec3(1.0, 0.0, 0.0)
  const YAxis := Vec3(0.0, 1.0, 0.0)
  const ZAxis := Vec3(0.0, 0.0, 1.0)

  /** The product of a y-, a z- and an x-rotation, written out in half-angle sines and cosines. */
  lemma AxisProduct(c1: real, s1: real, c2: real, s2: real, c3: real, s3: real)
    ensures Mul(Mul(Quat(0.0, s1, 0.0, c1), Quat(0.0, 0.0, s2, c2)), Quat(s3, 0.0, 0.0, c3))
         == Quat(c1 * c2 * s3 + s1 * s2 * c3, s1 * c2 * c3 + c1 * s2 * s3,
                 c1 * s2 * c3 - s1 * c2 * s3, c1 * c2 * c3 - s1 * s2 * s3)
  {
    assert Mul(Quat(0.0, s1, 0.0, c1), Quat(0.0, 0.0, s2, c2)) == Quat(s1 * s2, s1 * c2, c1 * s2, c1 * c2);
  }

  /** The rotation about a coordinate axis, with its zero products simplified. */
  lemma AxisRotations(rot: real, m: MathLib)
    ensures var h := HalfRadians(rot, m);
      && AxisAngleQuat(XAxis, rot, m) == Quat(m.sin(h), 0.0, 0.0, m.cos(h))
      && AxisAngleQuat(YAxis, rot, m) == Quat(0.0, m.sin(h), 0.0, m.cos(h))
      && AxisAngleQuat(ZAxis, rot, m) == Quat(0.0, 0.0, m.sin(h), m.cos(h))
  {
    assert ToRadians(rot / 2.0, m) == HalfRadians(rot, m);
  }

  /**
   * The Euler construction is the rotation by roll about y, then by pitch
   * about z, then by azimuth about x: the product of three axis-angle
   * quaternions.
   */
  lemma EulerIsAxisProduct(azimuth: real, pitch: real, roll: real, m: MathLib)
    ensures EulerQuat(azimuth, pitch, roll, m)
         == Mul(Mul(AxisAngleQuat(YAxis, roll, m), AxisAngleQuat(ZAxis, pitch, m)), AxisAngleQuat(XAxis, azimuth, m))
  {
    AxisRotations(roll, m);
    AxisRotations(pitch, m);
    AxisRotations(azimuth, m);
    var h1, h2, h3 := HalfRadians(roll, m), HalfRadians(pitch, m), HalfRadians(azimuth, m);
    AxisProduct(m.cos(h1), m.sin(h1), m.cos(h2), m.sin(h2), m.cos(h3), m.sin(h3));
  }

  /** With two angles zero, the Euler construction is the single axis-angle rotation of the third. */
  lemma EulerSingleAxis(angle: real, m: MathLib)
    requires TrigLaws(m)
    ensures EulerQuat(0.0, 0.0, angle, m) == AxisAngleQuat(YAxis, angle, m)
    ensures EulerQuat(0.0, angle, 0.0, m) == AxisAngleQuat(ZAxis, angle, m)
    ensures EulerQuat(angle, 0.0, 0.0, m) == AxisAngleQuat(XAxis, angle, m)
  {
    AxisAngleZero(XAxis, m);
    AxisAngleZero(YAxis, m);
    AxisAngleZero(ZAxis, m);
    EulerIsAxisProduct(0.0, 0.0, angle, m);
    EulerIsAxisProduct(0.0, angle, 0.0, m);
    EulerIsAxisProduct(angle, 0.0, 0.0, m);
    IdentityNeutral(AxisAngleQuat(YAxis, angle, m));
    IdentityNeutral(AxisAngleQuat(ZAxis, angle, m));
    IdentityNeutral(AxisAngleQuat(XAxis, angle, m));
    IdentityNeutral(Identity());
  }

  /** All angles zero give the identity. */
  lemma EulerZero(m: MathLib)
    requires TrigLaws(m)
    ensures EulerQuat(0.0, 0.0, 0.0, m) == Identity()
  {
    EulerSingleAxis(0.0, m);
    AxisAngleZero(XAxis, m);
  }
}
