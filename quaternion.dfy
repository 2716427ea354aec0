/**
 * The mutable `Quaternion` object of `Quaternion.java`: four components in
 * a `points` array, a cached 16-entry rotation matrix guarded by a `dirty`
 * flag, and two scratch objects (`inputCopy`, `bufferQuaternion`) used by the
 * Hamilton product. Every formula is taken from `QuatAlgebra`; this module
 * states what each method does to the arrays it is allowed to touch.
 */
module Representation {
  import opened RealMath
  import opened QuatAlgebra

  class Quaternion {
    /** x, y, z, w, inherited from `Vector4f`. */
    const points: array<real>
    /** The backing array of the `Matrixf4x4` cache. */
    const matrix: array<real>
    /** The `Matrixf4x4` layout flag, set by `setColumnMajor` and `setRowMajor`. */
    var columnMajor: bool
    /** True when `matrix` may be out of date. */
    var dirty: bool
    /** Scratch vector for `multiplyByQuat(input, output)` when input == output. */
    const inputCopy: array<real>
    /** Scratch quaternion for `multiplyByQuat(input)`, created on first use. */
    var bufferQuaternion: Quaternion?

    /** The array sizes, and the scratch vector apart from the components. */
    ghost predicate Local()
    {
      points.Length == 4 && matrix.Length == 16 && inputCopy.Length == 4 && points != inputCopy
    }

    /** The buffer, when present, is a plain quaternion of its own that shares nothing with this one. */
    ghost predicate Valid()
      reads this, if bufferQuaternion == null then {} else {bufferQuaternion}
    {
      && Local()
      && (bufferQuaternion != null ==>
            && bufferQuaternion != this
            && bufferQuaternion.Local()
            && bufferQuaternion.bufferQuaternion == null
            && ApartFrom(bufferQuaternion))
    }

    /** Two quaternion objects are the same object or share no array. */
    ghost predicate ApartFrom(other: Quaternion)
    {
      || this == other
      || (&& points != other.points && points != other.matrix && points != other.inputCopy
          && matrix != other.points && matrix != other.matrix && matrix != other.inputCopy
          && inputCopy != other.points && inputCopy != other.matrix && inputCopy != other.inputCopy)
    }

    /** The value the four components hold. */
    function Value(): Quat
      reads points
      requires Local()
    {
      QuatOf(points)
    }

    /** The cache invariant: a clean cache holds the matrix of the current value, in the current layout. */
    ghost predicate CacheCoherent()
      reads this, points, matrix
      requires Local()
    {
      !dirty ==> matrix[..] == Layout(Value(), columnMajor)
    }

    /** `new Quaternion()`: the identity, with its matrix still to be computed. */
    constructor ()
      ensures Valid() && fresh(points) && fresh(matrix) && fresh(inputCopy)
      ensures Value() == Identity() && dirty && columnMajor
      ensures bufferQuaternion == null
    {
      points := new real[4];
      matrix := new real[16];
      inputCopy := new real[4];
      columnMajor := true;
      bufferQuaternion := null;
      new;
      LoadIdentityQuat();
    }

    /** `loadIdentityQuat`. */
    method LoadIdentityQuat()
      requires Local()
      modifies points, `dirty
      ensures Value() == Identity() && dirty && CacheCoherent()
    {
      dirty := true;
      points[0] := 0.0;
      points[1] := 0.0;
      points[2] := 0.0;
      points[3] := 1.0;
    }

    /** `normalise`: the magnitude is taken once, before any component changes. */
    method Normalise(m: MathLib)
      requires Local() && SqrtLaws(m) && 0.0 < NormSq(Value())
      modifies points, `dirty
      ensures Local() && (old(Valid()) ==> Valid()) && dirty && CacheCoherent()
      ensures Value() == Normalized(old(Value()), m)
      ensures NormSq(Value()) == 1.0
    {
      dirty := true;
      SqrtPositive(m, NormSq(Value()));
      var mag := Magnitude(Value(), m);
      points[3] := points[3] / mag;
      points[0] := points[0] / mag;
      points[1] := points[1] / mag;
      points[2] := points[2] / mag;
    }

    /** `set(quat)`: copy the components of another quaternion (or of this one). */
    method Set(quat: Quaternion)
      requires Local() && quat.Local() && ApartFrom(quat)
      modifies points, `dirty
      ensures Local() && (old(Valid()) ==> Valid()) && dirty && CacheCoherent()
      ensures Value() == old(quat.Value())
      ensures quat != this ==> quat.Value() == old(quat.Value())
    {
      dirty := true;
      points[0] := quat.points[0];
      points[1] := quat.points[1];
      points[2] := quat.points[2];
      points[3] := quat.points[3];
    }

    /** The `copyVec4` override: copy, then mark the cache dirty. */
    method CopyVec4(vec: Quaternion)
      requires Local() && vec.Local() && ApartFrom(vec)
      modifies points, `dirty
      ensures Local() && (old(Valid()) ==> Valid()) && dirty && CacheCoherent()
      ensures Value() == old(vec.Value())
      ensures vec != this ==> vec.Value() == old(vec.Value())
    {
      points[0] := vec.points[0];
      points[1] := vec.points[1];
      points[2] := vec.points[2];
      points[3] := vec.points[3];
      dirty := true;
    }

    /** The `setXYZW` override. */
    method SetXYZW(x: real, y: real, z: real, w: real)
      requires Local()
      modifies points, `dirty
      ensures Local() && (old(Valid()) ==> Valid()) && dirty && CacheCoherent()
      ensures Value() == Quat(x, y, z, w)
    {
      points[0] := x;
      points[1] := y;
      points[2] := z;
      points[3] := w;
      dirty := true;
    }

    /** The `setX` override: one component, then the cache is dirty. */
    method SetX(v: real)
      requires Local()
      modifies points, `dirty
      ensures Local() && (old(Valid()) ==> Valid()) && dirty && CacheCoherent()
      ensures Value() == old(Value()).(x := v)
    {
      points[0] := v;
      dirty := true;
    }

    /** The `setY` override: one component, then the cache is dirty. */
    method SetY(v: real)
      requires Local()
      modifies points, `dirty
      ensures Local() && (old(Valid()) ==> Valid()) && dirty && CacheCoherent()
      ensures Value() == old(Value()).(y := v)
    {
      points[1] := v;
      dirty := true;
    }

    /** The `setZ` override: one component, then the cache is dirty. */
    method SetZ(v: real)
      requires Local()
      modifies points, `dirty
      ensures Local() && (old(Valid()) ==> Valid()) && dirty && CacheCoherent()
      ensures Value() == old(Value()).(z := v)
    {
      points[2] := v;
      dirty := true;
    }

    /** The `setW` override: one component, then the cache is dirty. */
    method SetW(v: real)
      requires Local()
      modifies points, `dirty
      ensures Local() && (old(Valid()) ==> Valid()) && dirty && CacheCoherent()
      ensures Value() == old(Value()).(w := v)
    {
      points[3] := v;
      dirty := true;
    }

    /** `multiplyByScalar`: every component times the scalar. */
    method MultiplyByScalar(scalar: real)
      requires Local()
      modifies points, `dirty
      ensures Local() && (old(Valid()) ==> Valid()) && dirty && CacheCoherent()
      ensures Value() == Scale(old(Value()), scalar)
    {
      dirty := true;
      points[0] := points[0] * scalar;
      points[1] := points[1] * scalar;
      points[2] := points[2] * scalar;
      points[3] := points[3] * scalar;
    }

    /** `addQuat(input, output)`: output := this + input, through output's setters. */
    method AddQuatInto(input: Quaternion, output: Quaternion)
      requires Local() && input.Local() && output.Local()
      requires ApartFrom(input) && ApartFrom(output) && input.ApartFrom(output)
      modifies output.points, output`dirty
      ensures output.Local() && output.dirty && output.CacheCoherent()
      ensures output.Value() == Add(old(Value()), old(input.Value()))
      ensures output != this ==> Value() == old(Value())
      ensures output != input ==> input.Value() == old(input.Value())
    {
      WriteSum(points, input.points, output.points);
      output.dirty := true;
    }

    /** `addQuat(input)`: this := this + input. */
    method AddQuat(input: Quaternion)
      requires Local() && input.Local() && ApartFrom(input)
      modifies points, `dirty
      ensures Local() && (old(Valid()) ==> Valid()) && dirty && CacheCoherent()
      ensures Value() == Add(old(Value()), old(input.Value()))
      ensures input != this ==> input.Value() == old(input.Value())
    {
      dirty := true;
      AddQuatInto(input, this);
    }

    /** `subQuat(input, output)`: output := this - input, through output's setters. */
    method SubQuatInto(input: Quaternion, output: Quaternion)
      requires Local() && input.Local() && output.Local()
      requires ApartFrom(input) && ApartFrom(output) && input.ApartFrom(output)
      modifies output.points, output`dirty
      ensures output.Local() && output.dirty && output.CacheCoherent()
      ensures output.Value() == Sub(old(Value()), old(input.Value()))
      ensures output != this ==> Value() == old(Value())
      ensures output != input ==> input.Value() == old(input.Value())
    {
      WriteDifference(points, input.points, output.points);
      output.dirty := true;
    }

    /** `subQuat(input)`: this := this - input. */
    method SubQuat(input: Quaternion)
      requires Local() && input.Local() && ApartFrom(input)
      modifies points, `dirty
      ensures Local() && (old(Valid()) ==> Valid()) && dirty && CacheCoherent()
      ensures Value() == Sub(old(Value()), old(input.Value()))
      ensures input != this ==> input.Value() == old(input.Value())
    {
      dirty := true;
      SubQuatInto(input, this);
    }

    /**
     * `multiplyByQuat(input, output)`: output := this * input, with this the
     * left factor. When output is input the input is first copied to
     * `inputCopy`; when output is this, nothing is copied and the later
     * components read the already overwritten w (and x, y) of this, which
     * gives `InPlaceProduct` rather than the product.
     */
    method MultiplyByQuatInto(input: Quaternion, output: Quaternion)
      requires Local() && input.Local() && output.Local()
      requires ApartFrom(input) && ApartFrom(output) && input.ApartFrom(output)
      modifies output.points, output`dirty, inputCopy
      ensures Local() && (old(Valid()) ==> Valid()) && input.Local() && output.Local()
      ensures output.dirty && output.CacheCoherent()
      ensures output.Value() == if output == this then InPlaceProduct(old(Value()), old(input.Value()))
                                else Mul(old(Value()), old(input.Value()))
      ensures output != this ==> Value() == old(Value())
      ensures output != input ==> input.Value() == old(input.Value())
    {
      if input != output {
        WriteProduct(points, input.points, output.points);
      } else {
        inputCopy[0] := input.points[0];
        inputCopy[1] := input.points[1];
        inputCopy[2] := input.points[2];
        inputCopy[3] := input.points[3];
        WriteProduct(points, inputCopy, output.points);
      }
      output.dirty := true;
    }

    /** Does `q` stay clear of the scratch quaternion? */
    ghost predicate ApartFromBuffer(q: Quaternion)
      reads this, q, bufferQuaternion
    {
      bufferQuaternion != null ==> q != bufferQuaternion && q.ApartFrom(bufferQuaternion)
    }

    /**
     * `multiplyByQuat(input)`: this := this * input, computed in the scratch
     * quaternion (created on first use) and copied back, so that it is the
     * true product even when input is this.
     */
    method MultiplyByQuat(input: Quaternion)
      requires Valid() && input.Local() && ApartFrom(input) && ApartFromBuffer(input)
      modifies `dirty, `bufferQuaternion, points, inputCopy
      modifies if bufferQuaternion == null then {} else {bufferQuaternion, bufferQuaternion.points}
      ensures Valid() && dirty && CacheCoherent() && bufferQuaternion != null
      ensures old(bufferQuaternion) != null ==> bufferQuaternion == old(bufferQuaternion)
      ensures old(bufferQuaternion) == null ==> fresh(bufferQuaternion)
      ensures Value() == Mul(old(Value()), old(input.Value()))
      ensures input != this ==> input.Value() == old(input.Value())
    {
      ghost var a, b := Value(), input.Value();
      EnsureBuffer();
      dirty := true;
      var buffer := bufferQuaternion;
      buffer.CopyVec4(this);
      assert buffer.Value() == a && input.Value() == b;
      MultiplyByQuatInto(input, buffer);
      assert buffer.Value() == Mul(a, b);
      CopyVec4(buffer);
    }

    /** The lazy `new Quaternion()` of `multiplyByQuat(input)`. */
    method EnsureBuffer()
      requires Valid()
      modifies `bufferQuaternion
      ensures Valid() && bufferQuaternion != null
      ensures old(bufferQuaternion) != null ==> bufferQuaternion == old(bufferQuaternion)
      ensures old(bufferQuaternion) == null ==> fresh(bufferQuaternion) && fresh(bufferQuaternion.points) && fresh(bufferQuaternion.matrix) && fresh(bufferQuaternion.inputCopy)
    {
      if bufferQuaternion == null {
        bufferQuaternion := new Quaternion();
      }
    }

    /**
     * `convertQuatToMatrix`: the rotation matrix of the current value,
     * through the layout-aware `Matrixf4x4` setters.
     */
    method ConvertQuatToMatrix()
      requires Local()
      modifies matrix
      ensures matrix[..] == Layout(Value(), columnMajor)
    {
      if columnMajor {
        Fill(matrix, ColMajor(Value()));
      } else {
        Fill(matrix, RowMajor(Value()));
      }
    }

    /** `toMatrixColMajor`: the column-major entries, whatever the layout flag says. */
    method ToMatrixColMajor() returns (r: array<real>)
      requires Local()
      modifies matrix
      ensures r == matrix && matrix[..] == ColMajor(Value())
      ensures CacheCoherent() <==> (dirty || columnMajor || RowMajor(Value()) == ColMajor(Value()))
    {
      Fill(matrix, ColMajor(Value()));
      r := matrix;
    }

    /**
     * `toMatrixRowMajor`: the row-major entries into the same cache, without
     * touching `dirty`, so a clean column-major cache stays coherent only
     * for a symmetric matrix.
     */
    method ToMatrixRowMajor() returns (r: array<real>)
      requires Local()
      modifies matrix
      ensures r == matrix && matrix[..] == RowMajor(Value())
      ensures CacheCoherent() <==> (dirty || !columnMajor || (Value().w * Value().x == 0.0 && Value().w * Value().y == 0.0 && Value().w * Value().z == 0.0))
    {
      Fill(matrix, RowMajor(Value()));
      r := matrix;
      LayoutsAgreeIff(Value());
    }

    /** `getMatrix4x4`: recompute only when dirty, then the cache is clean and matches the value. */
    method GetMatrix4x4() returns (r: array<real>)
      requires Local() && CacheCoherent()
      modifies matrix, `dirty
      ensures r == matrix && !dirty && CacheCoherent()
      ensures matrix[..] == Layout(Value(), columnMajor)
      ensures !old(dirty) ==> matrix[..] == old(matrix[..])
    {
      if dirty {
        ConvertQuatToMatrix();
        dirty := false;
      }
      r := matrix;
    }

    /** `generateQuaternionFromMatrix` on a 16-entry cache: the four-branch selection over the layout's table. */
    method GenerateQuaternionFromMatrix(m: MathLib)
      requires Local() && SqrtLaws(m) && Decodable(Entries(matrix[..], columnMajor))
      modifies points, `dirty
      ensures Local() && (old(Valid()) ==> Valid()) && dirty && CacheCoherent()
      ensures Value() == FromEntries(Entries(matrix[..], columnMajor), m)
    {
      var q := FromEntries(Entries(matrix[..], columnMajor), m);
      SetXYZW(q.x, q.y, q.z, q.w);
    }

    /** `setColumnMajor(matrix)` (and `setRowMajor` with `columnMajor` false): store the matrix, then decode it. */
    method SetFromMatrix(mat: array<real>, layoutColumnMajor: bool, m: MathLib)
      requires Local() && SqrtLaws(m) && mat.Length == 16
      requires Decodable(Entries(mat[..], layoutColumnMajor))
      modifies matrix, `columnMajor, points, `dirty
      ensures Local() && (old(Valid()) ==> Valid()) && dirty && CacheCoherent()
      ensures matrix[..] == old(mat[..]) && columnMajor == layoutColumnMajor
      ensures Value() == FromEntries(Entries(old(mat[..]), layoutColumnMajor), m)
    {
      Fill(matrix, mat[..]);
      columnMajor := layoutColumnMajor;
      GenerateQuaternionFromMatrix(m);
    }

    /** `setColumnMajor`. */
    method SetColumnMajor(mat: array<real>, m: MathLib)
      requires Local() && SqrtLaws(m) && mat.Length == 16 && Decodable(Entries(mat[..], true))
      modifies matrix, `columnMajor, points, `dirty
      ensures Local() && (old(Valid()) ==> Valid()) && dirty && CacheCoherent() && columnMajor
      ensures Value() == FromEntries(Entries(old(mat[..]), true), m)
    {
      SetFromMatrix(mat, true, m);
    }

    /** `setRowMajor`. */
    method SetRowMajor(mat: array<real>, m: MathLib)
      requires Local() && SqrtLaws(m) && mat.Length == 16 && Decodable(Entries(mat[..], false))
      modifies matrix, `columnMajor, points, `dirty
      ensures Local() && (old(Valid()) ==> Valid()) && dirty && CacheCoherent() && !columnMajor
      ensures Value() == FromEntries(Entries(old(mat[..]), false), m)
    {
      SetFromMatrix(mat, false, m);
    }

    /** `setAxisAngle(vec, rot)`, rot in degrees. */
    method SetAxisAngle(vec: Vec3, rot: real, m: MathLib)
      requires Local()
      modifies points, `dirty
      ensures Local() && (old(Valid()) ==> Valid()) && dirty && CacheCoherent()
      ensures Value() == AxisAngleQuat(vec, rot, m)
    {
      var s := m.sin(ToRadians(rot / 2.0, m));
      points[0] := vec.x * s;
      points[1] := vec.y * s;
      points[2] := vec.z * s;
      points[3] := m.cos(ToRadians(rot / 2.0, m));
      dirty := true;
    }

    /** `setEulerAngle(azimuth, pitch, roll)`, all in degrees. */
    method SetEulerAngle(azimuth: real, pitch: real, roll: real, m: MathLib)
      requires Local()
      modifies points, `dirty
      ensures Local() && (old(Valid()) ==> Valid()) && dirty && CacheCoherent()
      ensures Value() == EulerQuat(azimuth, pitch, roll, m)
    {
      var c1, s1 := m.cos(HalfRadians(roll, m)), m.sin(HalfRadians(roll, m));
      var c2, s2 := m.cos(HalfRadians(pitch, m)), m.sin(HalfRadians(pitch, m));
      var c3, s3 := m.cos(HalfRadians(azimuth, m)), m.sin(HalfRadians(azimuth, m));
      var c1c2, s1s2 := c1 * c2, s1 * s2;
      points[3] := c1c2 * c3 - s1s2 * s3;
      points[0] := c1c2 * s3 + s1s2 * c3;
      points[1] := s1 * c2 * c3 + c1 * s2 * s3;
      points[2] := c1 * s2 * c3 - s1 * c2 * s3;
      dirty := true;
    }

    /**
     * `toAxisAngle(output)`: normalise this only when w > 1, then write the
     * axis and the angle (radians). The values are computed before any write,
     * so output may even be this quaternion's own array.
     */
    method ToAxisAngle(output: array<real>, m: MathLib)
      requires Local() && SqrtLaws(m) && output.Length == 4
      modifies points, `dirty, output
      ensures Local() && (old(Valid()) ==> Valid())
      ensures old(CacheCoherent()) && output != points ==> CacheCoherent()
      ensures var r := AxisAngle(old(Value()), m);
        output[..] == [r.axis.x, r.axis.y, r.axis.z, r.angle]
      ensures output != points ==> Value() == AxisAngleSource(old(Value()), m)
      ensures old(Value()).w > 1.0 ==> dirty
      ensures old(Value()).w <= 1.0 ==> dirty == old(dirty) && (output != points ==> Value() == old(Value()))
    {
      if points[3] > 1.0 {
        LargeScalarPositiveNorm(Value());
        Normalise(m);
      }
      assert Value() == AxisAngleSource(old(Value()), m);
      WriteAxisAngle(points, output, m);
    }

    /**
     * `slerp(input, output, t)`. A far-hemisphere input is negated into a
     * fresh quaternion, so input itself is never changed; every output
     * component reads only the same component of the operands, so output may
     * be this or input.
     */
    method Slerp(input: Quaternion, output: Quaternion, t: real, m: MathLib)
      requires Local() && input.Local() && output.Local() && SqrtLaws(m)
      requires ApartFrom(input) && ApartFrom(output) && input.ApartFrom(output)
      modifies output.points, output`dirty
      ensures output.Local() && output.dirty && output.CacheCoherent()
      ensures output.Value() == QuatAlgebra.Slerp(old(Value()), old(input.Value()), t, m)
      ensures output != this ==> Value() == old(Value())
      ensures output != input ==> input.Value() == old(input.Value())
    {
      ghost var a, b := Value(), input.Value();
      var cosHalfTheta := Dot(Value(), input.Value());
      var bufferQuat: Quaternion;
      if cosHalfTheta < 0.0 {
        bufferQuat := NegatedCopy(input);
        cosHalfTheta := -cosHalfTheta;
      } else {
        bufferQuat := input;
      }
      assert bufferQuat.Value() == NearSide(a, b) && Value() == a && cosHalfTheta == Abs(Dot(a, b));
      if Abs(cosHalfTheta) >= 1.0 {
        WriteCopy(points, output.points);
      } else {
        var ratioA := SlerpRatio(cosHalfTheta, 1.0 - t, m);
        var ratioB := SlerpRatio(cosHalfTheta, t, m);
        WriteCombination(points, ratioA, bufferQuat.points, ratioB, output.points);
      }
      output.dirty := true;
    }

    /** `equals`: the same object, or four equal components. */
    function Equals(other: Quaternion): (r: bool)
      reads points, other.points
      requires Local() && other.Local()
      ensures r <==> Value() == other.Value()
    {
      this == other
      || (points[0] == other.points[0] && points[1] == other.points[1]
          && points[2] == other.points[2] && points[3] == other.points[3])
    }

    /** The first half of `slerp2` for distinct values: an end on the far side is negated in place. */
    method TurnEndNear(end: Quaternion) returns (result: real)
      requires Local() && end.Local() && this != end && ApartFrom(end)
      modifies end.points, end`dirty
      ensures end.Local() && Value() == old(Value()) && result == Abs(Dot(old(Value()), old(end.Value())))
      ensures end.Value() == (if Dot(old(Value()), old(end.Value())) < 0.0 then Scale(old(end.Value()), -1.0) else old(end.Value()))
      ensures end.dirty <==> old(end.dirty) || Dot(old(Value()), old(end.Value())) < 0.0
      ensures old(end.CacheCoherent()) ==> end.CacheCoherent()
    {
      result := Dot(Value(), end.Value());
      if result < 0.0 {
        end.MultiplyByScalar(-1.0);
        result := -result;
      }
    }

    /**
     * `slerp2(end, output, alpha)`: equal values are copied; otherwise a
     * far-hemisphere end is negated in place, and the weights are the
     * trigonometric ones only when 1 - cos exceeds 0.1.
     */
    method Slerp2(end: Quaternion, output: Quaternion, alpha: real, m: MathLib)
      requires Local() && end.Local() && output.Local() && Lawful(m)
      requires ApartFrom(end) && ApartFrom(output) && end.ApartFrom(output)
      modifies end.points, end`dirty, output.points, output`dirty
      ensures end.Local() && output.Local() && output.dirty && output.CacheCoherent()
      ensures var r := QuatAlgebra.Slerp2(old(Value()), old(end.Value()), alpha, m);
        && output.Value() == r.output
        && (end != output ==> end.Value() == r.endAfter)
      ensures output != this ==> Value() == old(Value())
      ensures end != output ==>
        (end.dirty <==> old(end.dirty) || (old(Value()) != old(end.Value()) && Dot(old(Value()), old(end.Value())) < 0.0))
      ensures end != output && old(end.CacheCoherent()) ==> end.CacheCoherent()
    {
      ghost var a, e := Value(), end.Value();
      if Equals(end) {
        output.Set(this);
        return;
      }
      var result := TurnEndNear(end);
      ghost var r := QuatAlgebra.Slerp2(a, e, alpha, m);
      assert Value() == a && end.Value() == r.endAfter && result == Abs(Dot(a, e));
      var scale0 := 1.0 - alpha;
      var scale1 := alpha;
      if 1.0 - result > 0.1 {
        scale0 := Slerp2Ratio(result, 1.0 - alpha, m);
        scale1 := Slerp2Ratio(result, alpha, m);
      }
      assert r.output == Combine(a, scale0, end.Value(), scale1);
      var q := Combine(Value(), scale0, end.Value(), scale1);
      output.SetXYZW(q.x, q.y, q.z, q.w);
    }
  }

  /** The four components stored in a `points`-like array. */
  function QuatOf(v: array<real>): Quat
    reads v
    requires v.Length == 4
  {
    Quat(v[0], v[1], v[2], v[3])
  }

  /** The `new Quaternion()` of `slerp` holding the negation of `input`. */
  method NegatedCopy(input: Quaternion) returns (q: Quaternion)
    requires input.Local()
    ensures fresh(q) && fresh(q.points) && fresh(q.matrix) && fresh(q.inputCopy) && q.Local()
    ensures q.Value() == Neg(input.Value())
  {
    q := new Quaternion();
    q.points[0] := -input.points[0];
    q.points[1] := -input.points[1];
    q.points[2] := -input.points[2];
    q.points[3] := -input.points[3];
  }

  /**
   * The reading half of `toAxisAngle`: angle and axis are computed from `v`
   * before the first write, so `output` may be `v` itself.
   */
  method WriteAxisAngle(v: array<real>, output: array<real>, m: MathLib)
    requires v.Length == 4 && output.Length == 4
    modifies output
    ensures var r := AxisAngleOf(old(QuatOf(v)), m);
      output[..] == [r.axis.x, r.axis.y, r.axis.z, r.angle]
  {
    var p := QuatOf(v);
    var angle := 2.0 * m.acos(v[3]);
    var x, y, z;
    var s := ScalarRoot(p, m);
    if s < 0.001 {
      x, y, z := v[0], v[1], v[2];
    } else {
      x, y, z := v[0] / s, v[1] / s, v[2] / s;
    }
    output[0] := x;
    output[1] := y;
    output[2] := z;
    output[3] := angle;
  }

  /** `out := v` component by component, in index order. */
  method WriteCopy(v: array<real>, out: array<real>)
    requires v.Length == 4 && out.Length == 4
    modifies out
    ensures QuatOf(out) == old(QuatOf(v))
  {
    out[0] := v[0];
    out[1] := v[1];
    out[2] := v[2];
    out[3] := v[3];
  }

  /** `out := left + right` component by component; any of the three arrays may coincide. */
  method WriteSum(left: array<real>, right: array<real>, out: array<real>)
    requires left.Length == 4 && right.Length == 4 && out.Length == 4
    modifies out
    ensures QuatOf(out) == Add(old(QuatOf(left)), old(QuatOf(right)))
  {
    out[0] := left[0] + right[0];
    out[1] := left[1] + right[1];
    out[2] := left[2] + right[2];
    out[3] := left[3] + right[3];
  }

  /** `out := left - right` component by component; any of the three arrays may coincide. */
  method WriteDifference(left: array<real>, right: array<real>, out: array<real>)
    requires left.Length == 4 && right.Length == 4 && out.Length == 4
    modifies out
    ensures QuatOf(out) == Sub(old(QuatOf(left)), old(QuatOf(right)))
  {
    out[0] := left[0] - right[0];
    out[1] := left[1] - right[1];
    out[2] := left[2] - right[2];
    out[3] := left[3] - right[3];
  }

  /** `out := left * ra + right * rb`, w first as in `slerp`; any of the three arrays may coincide. */
  method WriteCombination(left: array<real>, ra: real, right: array<real>, rb: real, out: array<real>)
    requires left.Length == 4 && right.Length == 4 && out.Length == 4
    modifies out
    ensures QuatOf(out) == Combine(old(QuatOf(left)), ra, old(QuatOf(right)), rb)
  {
    out[3] := left[3] * ra + right[3] * rb;
    out[0] := left[0] * ra + right[0] * rb;
    out[1] := left[1] * ra + right[1] * rb;
    out[2] := left[2] * ra + right[2] * rb;
  }

  /**
   * Store the entries `s` into `mat`: the 16 assignments of `toMatrixColMajor`,
   * `toMatrixRowMajor` and `convertQuatToMatrix`, each of which writes every
   * index once, and the copy `Matrixf4x4.setMatrix` performs.
   */
  method Fill(mat: array<real>, s: seq<real>)
    requires mat.Length == |s|
    modifies mat
    ensures mat[..] == s
  {
    forall i | 0 <= i < mat.Length {
      mat[i] := s[i];
    }
  }

  /**
   * The four assignments of `multiplyByQuat(input, output)`, on the arrays
   * of this (`left`), of the right factor and of output. When output is this,
   * the later assignments read the components already overwritten.
   */
  method WriteProduct(left: array<real>, right: array<real>, out: array<real>)
    requires left.Length == 4 && right.Length == 4 && out.Length == 4
    requires right != out
    modifies out
    ensures QuatOf(out) == if out == left then InPlaceProduct(old(QuatOf(left)), old(QuatOf(right)))
                           else Mul(old(QuatOf(left)), old(QuatOf(right)))
  {
    if out == left {
      WriteProductOverLeft(left, right);
    } else {
      WriteProductApart(left, right, out);
    }
  }

  /** With output apart from both factors, the operands are read before any write. */
  method WriteProductApart(left: array<real>, right: array<real>, out: array<real>)
    requires left.Length == 4 && right.Length == 4 && out.Length == 4
    requires right != out && out != left
    modifies out
    ensures QuatOf(out) == Mul(old(QuatOf(left)), old(QuatOf(right)))
  {
    var q := Mul(QuatOf(left), QuatOf(right));
    out[3] := q.w;
    out[0] := q.x;
    out[1] := q.y;
    out[2] := q.z;
  }

  /** With output the receiver, each assignment reads the components already written. */
  method WriteProductOverLeft(left: array<real>, right: array<real>)
    requires left.Length == 4 && right.Length == 4 && right != left
    modifies left
    ensures QuatOf(left) == InPlaceProduct(old(QuatOf(left)), old(QuatOf(right)))
  {
    ghost var b := QuatOf(right);
    ghost var a := QuatOf(left);
    left[3] := left[3] * right[3] - left[0] * right[0] - left[1] * right[1] - left[2] * right[2];
    assert QuatOf(left) == AssignW(a, b);
    a := QuatOf(left);
    left[0] := left[3] * right[0] + left[0] * right[3] + left[1] * right[2] - left[2] * right[1];
    assert QuatOf(left) == AssignX(a, b);
    a := QuatOf(left);
    left[1] := left[3] * right[1] + left[1] * right[3] + left[2] * right[0] - left[0] * right[2];
    assert QuatOf(left) == AssignY(a, b);
    a := QuatOf(left);
    left[2] := left[3] * right[2] + left[2] * right[3] + left[0] * right[1] - left[1] * right[0];
    assert QuatOf(left) == AssignZ(a, b);
  }
}
