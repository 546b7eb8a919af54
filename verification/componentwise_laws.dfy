/**
 * Laws of the componentwise operations: minimum, maximum, absolute value,
 * floor, ceiling, snapping and clamping.
 */
module ComponentwiseLaws {
  import opened VectorMath

  /** The minimum of a vector with itself is that vector. */
  lemma MinimumSelf(v: Vector)
    ensures VectorMinimum(v, v) == Ok(v)
  {
    assert VectorMinimum(v, v).value == v;
  }

  /** The maximum of a vector with itself is that vector. */
  lemma MaximumSelf(v: Vector)
    ensures VectorMaximum(v, v) == Ok(v)
  {
    assert VectorMaximum(v, v).value == v;
  }

  /** Minimum and maximum do not depend on the order of their operands. */
  lemma MinimumMaximumCommute(a: Vector, b: Vector)
    ensures VectorMinimum(a, b) == VectorMinimum(b, a)
    ensures VectorMaximum(a, b) == VectorMaximum(b, a)
  {
    if |a| == |b| {
      assert VectorMinimum(a, b).value == VectorMinimum(b, a).value;
      assert VectorMaximum(a, b).value == VectorMaximum(b, a).value;
    }
  }

  /** Minimum and maximum split each pair of components between them. */
  lemma MinimumPlusMaximum(a: Vector, b: Vector)
    requires |a| == |b|
    ensures VectorAddition(VectorMinimum(a, b).value, VectorMaximum(a, b).value) == VectorAddition(a, b)
  {
    var lo, hi := VectorMinimum(a, b).value, VectorMaximum(a, b).value;
    assert VectorAddition(lo, hi).value == VectorAddition(a, b).value;
  }

  /** Taking absolute values twice is the same as once. */
  lemma AbsoluteIdempotent(v: Vector)
    ensures VectorAbsolute(VectorAbsolute(v)) == VectorAbsolute(v)
  {
  }

  /** A vector and its negation have the same absolute values. */
  lemma AbsoluteOfNegation(v: Vector)
    ensures VectorAbsolute(ScalarMultiplication(v, -1.0)) == VectorAbsolute(v)
  {
    assert VectorAbsolute(ScalarMultiplication(v, -1.0)) == VectorAbsolute(v) by {
      forall i | 0 <= i < |v|
        ensures VectorAbsolute(ScalarMultiplication(v, -1.0))[i] == VectorAbsolute(v)[i]
      {
        assert ScalarMultiplication(v, -1.0)[i] == -v[i];
      }
    }
  }

  /**
   * Floor and ceiling bracket every component; they are equal exactly when
   * the component is an integer, and otherwise one apart.
   */
  lemma FloorCeilBracket(v: Vector)
    ensures |VectorFloor(v)| == |VectorCeil(v)| == |v|
    ensures forall i :: 0 <= i < |v| ==>
      VectorFloor(v)[i] as real <= v[i] <= VectorCeil(v)[i] as real &&
      (VectorCeil(v)[i] == VectorFloor(v)[i] <==> v[i] == VectorFloor(v)[i] as real) &&
      (VectorCeil(v)[i] != VectorFloor(v)[i] ==> VectorCeil(v)[i] == VectorFloor(v)[i] + 1)
  {
  }

  /** An integer rounds to itself. */
  lemma RoundInteger(k: int)
    ensures RoundHalfEven(k as real) == k
  {
    assert (k as real).Floor == k;
  }

  /**
   * `|R inc - x| <= |inc| / 2` whenever `R` is within one half of
   * `x / inc`.
   */
  lemma ScaledRoundingError(x: real, inc: real, rounded: real)
    requires inc != 0.0
    requires Abs(rounded - x / inc) <= 0.5
    ensures Abs(rounded * inc - x) <= Abs(inc) / 2.0
  {
    var e := rounded - x / inc;
    assert rounded * inc - x == e * inc;
    if inc > 0.0 {
      if e >= 0.0 { assert e * inc <= 0.5 * inc; } else { assert -e * inc <= 0.5 * inc; }
    } else {
      if e >= 0.0 { assert e * -inc <= 0.5 * -inc; } else { assert -e * -inc <= 0.5 * -inc; }
    }
  }

  /** Snapping moves no component by more than half the increment. */
  lemma SnapWithinHalfIncrement(v: Vector, increment: real)
    ensures VectorSnap(v, increment).Ok? ==>
      forall i :: 0 <= i < |v| ==> Abs(VectorSnap(v, increment).value[i] - v[i]) <= Abs(increment) / 2.0
  {
    if VectorSnap(v, increment).Ok? && |v| > 0 {
      var r := VectorSnap(v, increment).value;
      forall i | 0 <= i < |v| ensures Abs(r[i] - v[i]) <= Abs(increment) / 2.0 {
        var k := RoundHalfEven(v[i] / increment);
        assert r[i] == k as real * increment;
        ScaledRoundingError(v[i], increment, k as real);
      }
    }
  }

  /** A vector whose components are multiples of the increment snaps to itself. */
  lemma SnapFixesMultiples(v: Vector, increment: real, ks: seq<int>)
    requires increment != 0.0
    requires |ks| == |v| && forall i :: 0 <= i < |v| ==> v[i] == ks[i] as real * increment
    ensures VectorSnap(v, increment) == Ok(v)
  {
    if |v| > 0 {
      var r := VectorSnap(v, increment).value;
      forall i | 0 <= i < |v| ensures r[i] == v[i] {
        assert v[i] / increment == ks[i] as real;
        RoundInteger(ks[i]);
      }
      assert r == v;
    }
  }

  /** Snapping is idempotent. */
  lemma SnapIdempotent(v: Vector, increment: real)
    ensures VectorSnap(v, increment).Ok? ==>
      VectorSnap(VectorSnap(v, increment).value, increment) == VectorSnap(v, increment)
  {
    if VectorSnap(v, increment).Ok? && |v| > 0 {
      var r := VectorSnap(v, increment).value;
      var ks := seq(|v|, i requires 0 <= i < |v| => RoundHalfEven(v[i] / increment));
      SnapFixesMultiples(r, increment, ks);
    }
  }

  /** Clamping a clamped vector with the same bounds changes nothing. */
  lemma WrapIdempotent(v: Vector, minValues: Vector, maxValues: Vector)
    ensures VectorWrap(v, minValues, maxValues).Ok? ==>
      VectorWrap(VectorWrap(v, minValues, maxValues).value, minValues, maxValues)
        == VectorWrap(v, minValues, maxValues)
  {
    if VectorWrap(v, minValues, maxValues).Ok? {
      var c := VectorWrap(v, minValues, maxValues).value;
      assert VectorWrap(c, minValues, maxValues).value == c;
    }
  }

  /** `vector_wrap([5,-2,10], [0,0,0], [8,8,8])` is `[5,0,8]`. */
  lemma WrapExample()
    ensures VectorWrap([5.0, -2.0, 10.0], [0.0, 0.0, 0.0], [8.0, 8.0, 8.0]) == Ok([5.0, 0.0, 8.0])
  {
    assert VectorWrap([5.0, -2.0, 10.0], [0.0, 0.0, 0.0], [8.0, 8.0, 8.0]).value == [5.0, 0.0, 8.0];
  }
}
