/**
 * Laws of addition, subtraction, scaling and the cross product.
 */
module ArithmeticLaws {
  import opened VectorMath
  import opened DotLaws

  /** Subtracting `b` undoes adding `b`, exactly, over the reals. */
  lemma AddSubRoundTrip(a: Vector, b: Vector)
    requires |a| == |b|
    ensures VectorAddition(a, b).Ok?
    ensures VectorSubtraction(VectorAddition(a, b).value, b) == Ok(a)
  {
    var s := VectorAddition(a, b).value;
    var d := VectorSubtraction(s, b).value;
    assert d == a by {
      forall i | 0 <= i < |a| ensures d[i] == a[i] {
        assert d[i] == s[i] - b[i] && s[i] == a[i] + b[i];
      }
    }
  }

  /** Adding `b` undoes subtracting `b`. */
  lemma SubAddRoundTrip(a: Vector, b: Vector)
    requires |a| == |b|
    ensures VectorSubtraction(a, b).Ok?
    ensures VectorAddition(VectorSubtraction(a, b).value, b) == Ok(a)
  {
    var d := VectorSubtraction(a, b).value;
    var s := VectorAddition(d, b).value;
    assert s == a by {
      forall i | 0 <= i < |a| ensures s[i] == a[i] {
        assert s[i] == d[i] + b[i] && d[i] == a[i] - b[i];
      }
    }
  }

  /** Addition is commutative, on every input, failures included. */
  lemma AdditionCommutes(a: Vector, b: Vector)
    ensures VectorAddition(a, b) == VectorAddition(b, a)
  {
    if |a| == |b| {
      assert VectorAddition(a, b).value == VectorAddition(b, a).value;
    }
  }

  /** `vector_addition([1,2,3], [4,5,6])` is `[5,7,9]`. */
  lemma AdditionExample()
    ensures VectorAddition([1.0, 2.0, 3.0], [4.0, 5.0, 6.0]) == Ok([5.0, 7.0, 9.0])
  {
    assert VectorAddition([1.0, 2.0, 3.0], [4.0, 5.0, 6.0]).value == [5.0, 7.0, 9.0];
  }

  /** `vector_scale` and `scalar_multiplication` give identical results. */
  lemma ScaleMatchesScalarMultiplication(v: Vector, s: real)
    ensures VectorScale(v, s) == ScalarMultiplication(v, s)
  {
    assert VectorScale(v, s) == ScalarMultiplication(v, s) by {
      forall i | 0 <= i < |v| ensures VectorScale(v, s)[i] == ScalarMultiplication(v, s)[i] {
        assert v[i] * s == s * v[i];
      }
    }
  }

  /** Multiplying by a non-zero scalar and then by its reciprocal gives the vector back. */
  lemma ScalarMultiplicationInverse(v: Vector, s: real)
    requires s != 0.0
    ensures ScalarMultiplication(ScalarMultiplication(v, s), 1.0 / s) == v
  {
    var w := ScalarMultiplication(ScalarMultiplication(v, s), 1.0 / s);
    forall i | 0 <= i < |v| ensures w[i] == v[i] {
      assert w[i] == (1.0 / s) * (s * v[i]);
      assert (1.0 / s) * (s * v[i]) == ((1.0 / s) * s) * v[i];
      assert (1.0 / s) * s == 1.0;
    }
    assert w == v;
  }

  /** Swapping the operands of the cross product negates it. */
  lemma CrossAntiCommutative(a: Vector, b: Vector)
    ensures CrossProduct(a, b).Ok? <==> CrossProduct(b, a).Ok?
    ensures CrossProduct(a, b).Ok? ==>
      CrossProduct(a, b).value == ScalarMultiplication(CrossProduct(b, a).value, -1.0)
  {
    if |a| == 3 && |b| == 3 {
      var ab := CrossProduct(a, b).value;
      var ba := ScalarMultiplication(CrossProduct(b, a).value, -1.0);
      assert ab[0] == ba[0] && ab[1] == ba[1] && ab[2] == ba[2];
    }
  }

  /**
   * `(x × y) · x == 0` and `(x × y) · y == 0` written out on components: every monomial appears
   * once with each sign.
   */
  lemma MixedProductVanishes(x0: real, x1: real, x2: real, y0: real, y1: real, y2: real)
    ensures (x1 * y2 - x2 * y1) * x0 + (x2 * y0 - x0 * y2) * x1 + (x0 * y1 - x1 * y0) * x2 == 0.0
    ensures (x1 * y2 - x2 * y1) * y0 + (x2 * y0 - x0 * y2) * y1 + (x0 * y1 - x1 * y0) * y2 == 0.0
  {
  }

  /** The cross product is orthogonal to both of its operands. */
  lemma CrossOrthogonal(a: Vector, b: Vector)
    ensures CrossProduct(a, b).Ok? ==>
      DotProduct(CrossProduct(a, b).value, a) == Ok(0.0) &&
      DotProduct(CrossProduct(a, b).value, b) == Ok(0.0)
  {
    if |a| == 3 && |b| == 3 {
      var c := CrossProduct(a, b).value;
      Dot3(c, a);
      Dot3(c, b);
      assert c[0] == a[1] * b[2] - a[2] * b[1];
      assert c[1] == a[2] * b[0] - a[0] * b[2];
      assert c[2] == a[0] * b[1] - a[1] * b[0];
      MixedProductVanishes(a[0], a[1], a[2], b[0], b[1], b[2]);
      assert Dot(c, a) == 0.0;
      assert Dot(c, b) == 0.0;
    }
  }

  /** `cross([1,0,0], [0,1,0])` is `[0,0,1]`. */
  lemma CrossExample()
    ensures CrossProduct([1.0, 0.0, 0.0], [0.0, 1.0, 0.0]) == Ok([0.0, 0.0, 1.0])
  {
  }
}
