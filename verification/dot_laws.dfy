/**
 * Algebra of the dot product: symmetry, linearity, positivity, and the
 * closed forms that the cross-product and length lemmas need.
 */
module DotLaws {
  import opened VectorMath

  /** The sum of products does not depend on the order of the operands. */
  lemma {:induction false} DotSymmetric(a: Vector, b: Vector)
    requires |a| == |b|
    ensures Dot(a, b) == Dot(b, a)
  {
    if |a| > 0 {
      DotSymmetric(a[..|a| - 1], b[..|b| - 1]);
    }
  }

  /**
   * Linearity in the first operand: if `x` is, component by component,
   * `p u - q w`, then `dot(x, n) == p dot(u, n) - q dot(w, n)`.
   */
  lemma {:induction false} DotLinear(x: Vector, u: Vector, w: Vector, n: Vector, p: real, q: real)
    requires |x| == |u| == |w| == |n|
    requires forall i :: 0 <= i < |x| ==> x[i] == p * u[i] - q * w[i]
    ensures Dot(x, n) == p * Dot(u, n) - q * Dot(w, n)
  {
    if |x| > 0 {
      var m := |x| - 1;
      DotLinear(x[..m], u[..m], w[..m], n[..m], p, q);
      assert x[m] * n[m] == p * (u[m] * n[m]) - q * (w[m] * n[m]);
    }
  }

  /** A multiple of `u` has a multiple of `dot(u, n)` as its dot product with `n`. */
  lemma ScaledDot(u: Vector, n: Vector, c: real)
    requires |u| == |n|
    ensures Dot(ScalarMultiplication(u, c), n) == c * Dot(u, n)
  {
    var x := ScalarMultiplication(u, c);
    forall i | 0 <= i < |x| ensures x[i] == c * u[i] - 0.0 * u[i] {
      assert 0.0 * u[i] == 0.0;
    }
    DotLinear(x, u, u, n, c, 0.0);
  }

  /**
   * A vector's dot product with itself is never negative, and is zero
   * exactly when every component is zero.
   */
  lemma {:induction false} DotSelf(a: Vector)
    ensures Dot(a, a) >= 0.0
    ensures Dot(a, a) == 0.0 <==> IsZero(a)
  {
    if |a| > 0 {
      var m := |a| - 1;
      DotSelf(a[..m]);
      assert a[m] * a[m] >= 0.0;
      if Dot(a, a) == 0.0 {
        assert Dot(a[..m], a[..m]) == 0.0 && a[m] * a[m] == 0.0;
        ProductZero(a[m], a[m]);
        forall i | 0 <= i < |a| ensures a[i] == 0.0 {
          if i < m {
            assert a[..m][i] == a[i];
          }
        }
      }
      if IsZero(a) {
        assert IsZero(a[..m]) by {
          forall i | 0 <= i < m ensures a[..m][i] == 0.0 {
            assert a[..m][i] == a[i];
          }
        }
      }
    }
  }

  /** A product is zero only when a factor is. */
  lemma ProductZero(x: real, y: real)
    requires x * y == 0.0
    ensures x == 0.0 || y == 0.0
  {
  }

  /** The dot product of two 3-vectors written out. */
  lemma Dot3(a: Vector, b: Vector)
    requires |a| == 3 && |b| == 3
    ensures Dot(a, b) == a[0] * b[0] + a[1] * b[1] + a[2] * b[2]
  {
    assert Dot(a, b) == Dot(a[..2], b[..2]) + a[2] * b[2];
    Dot2(a[..2], b[..2]);
  }

  /** The dot product of two 2-vectors written out. */
  lemma Dot2(a: Vector, b: Vector)
    requires |a| == 2 && |b| == 2
    ensures Dot(a, b) == a[0] * b[0] + a[1] * b[1]
  {
    assert Dot(a, b) == Dot(a[..1], b[..1]) + a[1] * b[1];
    assert Dot(a[..1], b[..1]) == Dot(a[..1][..0], b[..1][..0]) + a[0] * b[0];
  }

  /** `dot_product` is commutative, on every input, failures included. */
  lemma DotProductCommutes(v1: Vector, v2: Vector)
    ensures DotProduct(v1, v2) == DotProduct(v2, v1)
  {
    if |v1| == |v2| {
      DotSymmetric(v1, v2);
    }
  }

  /** `dot_product(v, v)` always succeeds and is never negative. */
  lemma DotProductSelfNonNegative(v: Vector)
    ensures DotProduct(v, v).Ok? && DotProduct(v, v).value >= 0.0
  {
    DotSelf(v);
  }

  /** `dot([1,0,0], [0,1,0])` is `0`. */
  lemma DotProductExample()
    ensures DotProduct([1.0, 0.0, 0.0], [0.0, 1.0, 0.0]) == Ok(0.0)
  {
    Dot3([1.0, 0.0, 0.0], [0.0, 1.0, 0.0]);
  }
}
