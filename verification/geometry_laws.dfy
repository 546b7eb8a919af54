/**
 * Laws of projection, reflection, refraction, face-forward, length and
 * distance.
 */
module GeometryLaws {
  import opened VectorMath
  import opened DotLaws

  // ---------------------------------------------------------------------
  // Projection
  // ---------------------------------------------------------------------

  /**
   * Projection divides by zero exactly when the vector projected onto is
   * the zero vector (the empty vector included).
   */
  lemma ProjectionFailsOnZero(v1: Vector, v2: Vector)
    ensures VectorProjection(v1, v2) == Err(DivisionByZero) <==> |v1| == |v2| && IsZero(v2)
  {
    DotSelf(v2);
  }

  /** A successful projection onto `v2` is a scalar multiple of `v2`. */
  lemma ProjectionIsMultiple(v1: Vector, v2: Vector)
    ensures VectorProjection(v1, v2).Ok? ==>
      exists c :: VectorProjection(v1, v2).value == ScalarMultiplication(v2, c)
  {
    if VectorProjection(v1, v2).Ok? {
      var c := Dot(v1, v2) / Dot(v2, v2);
      assert VectorProjection(v1, v2).value == ScalarMultiplication(v2, c);
    }
  }

  /** Projecting a non-zero vector onto itself gives it back. */
  lemma ProjectOntoSelf(v: Vector)
    requires !IsZero(v)
    ensures VectorProjection(v, v) == Ok(v)
  {
    DotSelf(v);
    var dd := Dot(v, v);
    assert dd / dd == 1.0;
    var p := ScalarMultiplication(v, dd / dd);
    assert p == v by {
      forall i | 0 <= i < |v| ensures p[i] == v[i] {
        assert p[i] == 1.0 * v[i];
      }
    }
  }

  /** What projection leaves over, `v1 - proj(v1, v2)`, is orthogonal to `v2`. */
  lemma ProjectionResidualOrthogonal(v1: Vector, v2: Vector)
    ensures VectorProjection(v1, v2).Ok? ==>
      Dot(VectorSubtraction(v1, VectorProjection(v1, v2).value).value, v2) == 0.0
  {
    if VectorProjection(v1, v2).Ok? {
      var dd := Dot(v2, v2);
      var c := Dot(v1, v2) / dd;
      var p := VectorProjection(v1, v2).value;
      var res := VectorSubtraction(v1, p).value;
      forall i | 0 <= i < |res| ensures res[i] == 1.0 * v1[i] - c * v2[i] {
        assert p[i] == c * v2[i];
      }
      DotLinear(res, v1, v2, v2, 1.0, c);
      assert c * dd == Dot(v1, v2);
    }
  }

  /** Projecting a projection onto the same vector changes nothing. */
  lemma ProjectionIdempotent(v1: Vector, v2: Vector)
    ensures VectorProjection(v1, v2).Ok? ==>
      VectorProjection(VectorProjection(v1, v2).value, v2) == VectorProjection(v1, v2)
  {
    if VectorProjection(v1, v2).Ok? {
      var dd := Dot(v2, v2);
      var c := Dot(v1, v2) / dd;
      var p := VectorProjection(v1, v2).value;
      ScaledDot(v2, v2, c);
      assert Dot(p, v2) / dd == c;
    }
  }

  // ---------------------------------------------------------------------
  // Reflection
  // ---------------------------------------------------------------------

  /** Reflection divides by zero exactly when the normal is the zero vector. */
  lemma ReflectionFailsOnZero(v: Vector, normal: Vector)
    ensures VectorReflection(v, normal) == Err(DivisionByZero) <==> |v| == |normal| && IsZero(normal)
  {
    DotSelf(normal);
  }

  /** Reflection negates the component along the normal. */
  lemma ReflectionNegatesNormalComponent(v: Vector, normal: Vector)
    ensures VectorReflection(v, normal).Ok? ==>
      Dot(VectorReflection(v, normal).value, normal) == -Dot(v, normal)
  {
    if VectorReflection(v, normal).Ok? {
      var nn := Dot(normal, normal);
      var c := 2.0 * Dot(v, normal) / nn;
      var r := VectorReflection(v, normal).value;
      forall i | 0 <= i < |v| ensures r[i] == 1.0 * v[i] - c * normal[i] {
      }
      DotLinear(r, v, normal, normal, 1.0, c);
      assert c * nn == 2.0 * Dot(v, normal);
    }
  }

  /** Negating the numerator negates `2 x / y`. */
  lemma NegatedQuotient(x: real, y: real)
    requires y != 0.0
    ensures 2.0 * -x / y == -(2.0 * x / y)
  {
  }

  /** `(-c) x == -(c x)`. */
  lemma NegatedProduct(c: real, x: real)
    ensures (-c) * x == -(c * x)
  {
  }

  /** Reflecting twice about the same normal gives back the original vector. */
  lemma ReflectionInvolution(v: Vector, normal: Vector)
    ensures VectorReflection(v, normal).Ok? ==>
      VectorReflection(VectorReflection(v, normal).value, normal) == Ok(v)
  {
    if VectorReflection(v, normal).Ok? {
      var nn := Dot(normal, normal);
      var c := 2.0 * Dot(v, normal) / nn;
      var r := VectorReflection(v, normal).value;
      var c' := 2.0 * Dot(r, normal) / nn;
      assert c' == -c by {
        ReflectionNegatesNormalComponent(v, normal);
        NegatedQuotient(Dot(v, normal), nn);
      }
      var rr := VectorReflection(r, normal).value;
      assert rr == v by {
        forall i | 0 <= i < |v| ensures rr[i] == v[i] {
          assert rr[i] == r[i] - c' * normal[i];
          assert r[i] == v[i] - c * normal[i];
          NegatedProduct(c, normal[i]);
        }
      }
    }
  }

  /** Reflection preserves the squared length. */
  lemma ReflectionPreservesLength(v: Vector, normal: Vector)
    ensures VectorReflection(v, normal).Ok? ==>
      Dot(VectorReflection(v, normal).value, VectorReflection(v, normal).value) == Dot(v, v)
  {
    if VectorReflection(v, normal).Ok? {
      var nn := Dot(normal, normal);
      var d := Dot(v, normal);
      var c := 2.0 * d / nn;
      var r := VectorReflection(v, normal).value;
      forall i | 0 <= i < |v| ensures r[i] == 1.0 * v[i] - c * normal[i] {
      }
      ReflectionNegatesNormalComponent(v, normal);
      DotLinear(r, v, normal, r, 1.0, c);
      DotLinear(r, v, normal, v, 1.0, c);
      DotSymmetric(v, r);
      DotSymmetric(normal, r);
      DotSymmetric(normal, v);
      assert Dot(r, r) == Dot(v, v) - c * d + c * d;
    }
  }

  // ---------------------------------------------------------------------
  // Refraction
  // ---------------------------------------------------------------------

  /** Total internal reflection: `v = [1,0]`, normal `[0,1]`, `eta = 2` gives `[0,0]`. */
  lemma RefractionTotalInternalReflectionExample(sqrt: real -> real)
    ensures VectorRefraction([1.0, 0.0], [0.0, 1.0], 2.0, sqrt) == Ok([0.0, 0.0])
  {
    Dot2([1.0, 0.0], [0.0, 1.0]);
    assert RefractionDiscriminant(0.0, 2.0) == -3.0;
    assert Zeros(2) == [0.0, 0.0];
  }

  /**
   * Refracting a unit vector through a surface with a unit normal gives a
   * unit vector whose component along the normal is `-sqrt(k)`, as long as
   * `sqrt` returns a square root of the discriminant `k`.
   */
  lemma RefractionOfUnitVectors(v: Vector, normal: Vector, eta: real, sqrt: real -> real)
    requires |v| == |normal| && Dot(v, v) == 1.0 && Dot(normal, normal) == 1.0
    requires RefractionDiscriminant(Dot(v, normal), eta) >= 0.0
    requires sqrt(RefractionDiscriminant(Dot(v, normal), eta)) * sqrt(RefractionDiscriminant(Dot(v, normal), eta))
      == RefractionDiscriminant(Dot(v, normal), eta)
    ensures VectorRefraction(v, normal, eta, sqrt).Ok?
    ensures Dot(VectorRefraction(v, normal, eta, sqrt).value, normal)
      == -sqrt(RefractionDiscriminant(Dot(v, normal), eta))
    ensures Dot(VectorRefraction(v, normal, eta, sqrt).value, VectorRefraction(v, normal, eta, sqrt).value) == 1.0
  {
    var d := Dot(v, normal);
    var s := sqrt(RefractionDiscriminant(d, eta));
    var m := eta * d + s;
    var t := VectorRefraction(v, normal, eta, sqrt).value;
    forall i | 0 <= i < |t| ensures t[i] == eta * v[i] - m * normal[i] {
    }
    RefractedUnitVector(t, v, normal, eta, d, s, m);
  }

  /**
   * `t = eta v - m normal`, with `v` and `normal` unit vectors,
   * `d = dot(v, normal)`, `m = eta d + s` and `s` a square root of the
   * discriminant, is a unit vector with `dot(t, normal) == -s`.
   */
  lemma RefractedUnitVector(t: Vector, v: Vector, normal: Vector, eta: real, d: real, s: real, m: real)
    requires |t| == |v| == |normal|
    requires Dot(v, v) == 1.0 && Dot(normal, normal) == 1.0 && Dot(v, normal) == d
    requires forall i :: 0 <= i < |t| ==> t[i] == eta * v[i] - m * normal[i]
    requires m == eta * d + s
    requires s * s == RefractionDiscriminant(d, eta)
    ensures Dot(t, normal) == -s
    ensures Dot(t, t) == 1.0
  {
    var tv, tn, tt := Dot(t, v), Dot(t, normal), Dot(t, t);
    assert tv == eta * 1.0 - m * d && tn == eta * d - m * 1.0 && tt == eta * tv - m * tn by {
      CombinationDots(t, v, normal, eta, m);
    }
    RefractionAlgebra(eta, d, s, m, tv, tn, tt);
  }

  /**
   * For unit vectors `v` and `normal` and `t = p v - q normal`, the dot
   * products of `t` with `v`, `normal` and itself in terms of
   * `d = dot(v, normal)`.
   */
  lemma CombinationDots(t: Vector, v: Vector, normal: Vector, p: real, q: real)
    requires |t| == |v| == |normal|
    requires Dot(v, v) == 1.0 && Dot(normal, normal) == 1.0
    requires forall i :: 0 <= i < |t| ==> t[i] == p * v[i] - q * normal[i]
    ensures Dot(t, v) == p * 1.0 - q * Dot(v, normal)
    ensures Dot(t, normal) == p * Dot(v, normal) - q * 1.0
    ensures Dot(t, t) == p * Dot(t, v) - q * Dot(t, normal)
  {
    DotLinear(t, v, normal, v, p, q);
    DotSymmetric(normal, v);
    DotLinear(t, v, normal, normal, p, q);
    DotLinear(t, v, normal, t, p, q);
    DotSymmetric(v, t);
    DotSymmetric(normal, t);
  }

  /**
   * The scalar identities behind `RefractionOfUnitVectors`, with
   * `m = eta d + s`, `tv = dot(t, v)`, `tn = dot(t, n)` and `tt = dot(t, t)`.
   */
  lemma RefractionAlgebra(eta: real, d: real, s: real, m: real, tv: real, tn: real, tt: real)
    requires m == eta * d + s
    requires tv == eta * 1.0 - m * d
    requires tn == eta * d - m * 1.0
    requires tt == eta * tv - m * tn
    requires s * s == RefractionDiscriminant(d, eta)
    ensures tn == -s
    ensures tt == 1.0
  {
    assert tn == -s;
    assert m * tn == -(m * s);
    assert tt == eta * tv + m * s;
    assert eta * tv == eta * eta - eta * m * d;
    assert eta * m * d == eta * eta * d * d + eta * s * d;
    assert m * s == eta * d * s + s * s;
  }

  // ---------------------------------------------------------------------
  // Face-forward
  // ---------------------------------------------------------------------

  /**
   * Face-forward returns `i` or `-i`, whichever points against `n`: the
   * result's dot product with `n` is never positive and has the magnitude
   * of `dot(n, i)`.
   */
  lemma FaceForwardOpposesNormal(n: Vector, i: Vector, ng: Vector)
    ensures VectorFaceForward(n, i, ng).Ok? ==>
      Dot(n, VectorFaceForward(n, i, ng).value) <= 0.0 &&
      Dot(n, VectorFaceForward(n, i, ng).value) == -Abs(Dot(n, i))
  {
    if VectorFaceForward(n, i, ng).Ok? && Dot(n, i) >= 0.0 {
      var r := VectorFaceForward(n, i, ng).value;
      forall j | 0 <= j < |r| ensures r[j] == -1.0 * i[j] - 0.0 * i[j] {
        assert r[j] == -i[j];
      }
      DotLinear(r, i, i, n, -1.0, 0.0);
      DotSymmetric(n, r);
      DotSymmetric(n, i);
    }
  }

  /** The third argument of face-forward never changes its outcome. */
  lemma FaceForwardIgnoresNg(n: Vector, i: Vector, ng1: Vector, ng2: Vector)
    ensures VectorFaceForward(n, i, ng1) == VectorFaceForward(n, i, ng2)
  {
  }

  // ---------------------------------------------------------------------
  // Length and distance
  // ---------------------------------------------------------------------

  /** The distance from `v1` to `v2` is the distance from `v2` to `v1`. */
  lemma DistanceSymmetric(v1: Vector, v2: Vector, sqrt: real -> real)
    ensures VectorDistance(v1, v2, sqrt) == VectorDistance(v2, v1, sqrt)
  {
    if |v1| == |v2| {
      var d := VectorSubtraction(v1, v2).value;
      var e := VectorSubtraction(v2, v1).value;
      forall i | 0 <= i < |e| ensures e[i] == -1.0 * d[i] - 0.0 * d[i] {
        assert e[i] == v2[i] - v1[i];
      }
      DotLinear(e, d, d, e, -1.0, 0.0);
      DotLinear(e, d, d, d, -1.0, 0.0);
      DotSymmetric(d, e);
      assert Dot(e, e) == Dot(d, d);
    }
  }

  /** With a square root that is never negative, no length is negative. */
  lemma LengthNonNegative(v: Vector, sqrt: real -> real)
    requires forall x :: 0.0 <= x ==> 0.0 <= sqrt(x)
    ensures 0.0 <= VectorLength(v, sqrt)
  {
    DotSelf(v);
  }

  /** `vector_length([3, 4])` is `5`, given that `sqrt(25)` is `5`. */
  lemma LengthExample(sqrt: real -> real)
    requires sqrt(25.0) == 5.0
    ensures VectorLength([3.0, 4.0], sqrt) == 5.0
  {
    Dot2([3.0, 4.0], [3.0, 4.0]);
  }
}
