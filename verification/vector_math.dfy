/**
 * The vector operations of the Vector Math Calculator, as pure functions
 * over sequences of reals.
 *
 * The calculator computes with Python floats. This model computes with
 * exact `real` arithmetic: it captures the algebra the code intends, not
 * IEEE-754 rounding, NaN or infinity. Each `ValueError` the code raises
 * and each Python `ZeroDivisionError` it can hit becomes an `Err` outcome
 * of `Result`; nothing fails silently.
 *
 * `math.sqrt` has no exact model here. The operations that call it take
 * the square-root function as a parameter, and the lemmas that need it to
 * be a square root say so in their preconditions.
 */
module VectorMath {

  /** A vector is a flat sequence of components; its dimension is its length. */
  type Vector = seq<real>

  /** The failures the calculator's operations can raise. */
  datatype Error =
    | DimensionMismatch    // ValueError: the operands have different lengths
    | NotThreeDimensional  // ValueError: cross product of vectors that are not 3-dimensional
    | DivisionByZero       // ZeroDivisionError

  datatype Result<T> = Ok(value: T) | Err(error: Error)

  /** The vector of `n` zero components, Python's `[0] * n`. */
  function Zeros(n: nat): (r: Vector)
    ensures |r| == n && forall i :: 0 <= i < n ==> r[i] == 0.0
  {
    seq(n, _ => 0.0)
  }

  /** Every component is zero (also true of the empty vector). */
  predicate IsZero(v: Vector)
  {
    forall i :: 0 <= i < |v| ==> v[i] == 0.0
  }

  // ---------------------------------------------------------------------
  // Python built-ins on one component
  // ---------------------------------------------------------------------

  /** Python's `min(a, b)`: `b` only when it is strictly smaller. */
  function Min(a: real, b: real): (r: real)
    ensures r <= a && r <= b
    ensures r == a || r == b
  {
    if b < a then b else a
  }

  /** Python's `max(a, b)`: `b` only when it is strictly larger. */
  function Max(a: real, b: real): (r: real)
    ensures a <= r && b <= r
    ensures r == a || r == b
  {
    if b > a then b else a
  }

  /** Python's `abs`. */
  function Abs(x: real): (r: real)
    ensures 0.0 <= r
    ensures r == x || r == -x
  {
    if x < 0.0 then -x else x
  }

  /** `math.floor`: the largest integer not above `x`. */
  function Floor(x: real): (r: int)
    ensures r as real <= x < r as real + 1.0
  {
    x.Floor
  }

  /** `math.ceil`: the smallest integer not below `x`. */
  function Ceil(x: real): (r: int)
    ensures r as real - 1.0 < x <= r as real
  {
    -((-x).Floor)
  }

  /**
   * Python's `round` on one argument: to the nearest integer, and on a tie
   * to the even one.
   */
  function RoundHalfEven(x: real): (r: int)
    ensures Abs(r as real - x) <= 0.5
    ensures Abs(r as real - x) == 0.5 ==> r % 2 == 0
  {
    var f := x.Floor;
    var frac := x - f as real;
    if frac < 0.5 then f
    else if frac > 0.5 then f + 1
    else if f % 2 == 0 then f
    else f + 1
  }

  // ---------------------------------------------------------------------
  // Arithmetic
  // ---------------------------------------------------------------------

  /** `vector_addition`: componentwise sum of two vectors of the same length. */
  function VectorAddition(v1: Vector, v2: Vector): (r: Result<Vector>)
    ensures r.Err? <==> |v1| != |v2|
    ensures r.Err? ==> r.error == DimensionMismatch
    ensures r.Ok? ==> |r.value| == |v1| && forall i :: 0 <= i < |v1| ==> r.value[i] == v1[i] + v2[i]
  {
    if |v1| != |v2| then Err(DimensionMismatch)
    else Ok(seq(|v1|, i requires 0 <= i < |v1| => v1[i] + v2[i]))
  }

  /** `vector_subtraction`: componentwise difference of two vectors of the same length. */
  function VectorSubtraction(v1: Vector, v2: Vector): (r: Result<Vector>)
    ensures r.Err? <==> |v1| != |v2|
    ensures r.Err? ==> r.error == DimensionMismatch
    ensures r.Ok? ==> |r.value| == |v1| && forall i :: 0 <= i < |v1| ==> r.value[i] == v1[i] - v2[i]
  {
    if |v1| != |v2| then Err(DimensionMismatch)
    else Ok(seq(|v1|, i requires 0 <= i < |v1| => v1[i] - v2[i]))
  }

  /** `scalar_multiplication`: every component multiplied by `scalar`; never fails. */
  function ScalarMultiplication(v: Vector, scalar: real): (r: Vector)
    ensures |r| == |v| && forall i :: 0 <= i < |v| ==> r[i] == scalar * v[i]
  {
    seq(|v|, i requires 0 <= i < |v| => scalar * v[i])
  }

  /** `vector_scale`: the same as `scalar_multiplication`, factor on the right. */
  function VectorScale(v: Vector, s: real): (r: Vector)
    ensures |r| == |v| && forall i :: 0 <= i < |v| ==> r[i] == v[i] * s
  {
    seq(|v|, i requires 0 <= i < |v| => v[i] * s)
  }

  /**
   * The sum of the products of matching components, accumulated from the
   * first component to the last starting at 0, as Python's `sum` does.
   */
  function Dot(a: Vector, b: Vector): (r: real)
    requires |a| == |b|
    decreases |a|
  {
    if |a| == 0 then 0.0
    else Dot(a[..|a| - 1], b[..|b| - 1]) + a[|a| - 1] * b[|b| - 1]
  }

  /** `dot_product`: fails on a length mismatch, otherwise the sum of products. */
  function DotProduct(v1: Vector, v2: Vector): (r: Result<real>)
    ensures r.Err? <==> |v1| != |v2|
    ensures r.Err? ==> r.error == DimensionMismatch
    ensures r.Ok? ==> r.value == Dot(v1, v2)
  {
    if |v1| != |v2| then Err(DimensionMismatch)
    else Ok(Dot(v1, v2))
  }

  /** `cross_product`: defined only when both vectors have exactly 3 components. */
  function CrossProduct(v1: Vector, v2: Vector): (r: Result<Vector>)
    ensures r.Ok? <==> |v1| == 3 && |v2| == 3
    ensures r.Err? ==> r.error == NotThreeDimensional
    ensures r.Ok? ==> |r.value| == 3
  {
    if |v1| != 3 || |v2| != 3 then Err(NotThreeDimensional)
    else Ok([ v1[1] * v2[2] - v1[2] * v2[1],
              v1[2] * v2[0] - v1[0] * v2[2],
              v1[0] * v2[1] - v1[1] * v2[0] ])
  }

  // ---------------------------------------------------------------------
  // Geometry
  // ---------------------------------------------------------------------

  /**
   * `vector_projection`: the projection of `v1` onto `v2`. The division by
   * `dot(v2, v2)` is always performed, so a zero `v2` (the empty vector
   * included) raises a division by zero.
   */
  function VectorProjection(v1: Vector, v2: Vector): (r: Result<Vector>)
    ensures |v1| != |v2| ==> r == Err(DimensionMismatch)
    ensures |v1| == |v2| ==> (r.Err? <==> Dot(v2, v2) == 0.0)
    ensures |v1| == |v2| && r.Err? ==> r.error == DivisionByZero
    ensures r.Ok? ==> |r.value| == |v2|
    ensures r.Ok? ==> (var c := Dot(v1, v2) / Dot(v2, v2);
      forall i :: 0 <= i < |v2| ==> r.value[i] == c * v2[i])
  {
    if |v1| != |v2| then Err(DimensionMismatch)
    else
      var dotV1V2 := Dot(v1, v2);
      var magV2Squared := Dot(v2, v2);
      if magV2Squared == 0.0 then Err(DivisionByZero)
      else Ok(ScalarMultiplication(v2, dotV1V2 / magV2Squared))
  }

  /**
   * `vector_reflection`: `v - (2 dot(v, normal) / dot(normal, normal)) normal`;
   * a zero normal raises a division by zero.
   */
  function VectorReflection(v: Vector, normal: Vector): (r: Result<Vector>)
    ensures |v| != |normal| ==> r == Err(DimensionMismatch)
    ensures |v| == |normal| ==> (r.Err? <==> Dot(normal, normal) == 0.0)
    ensures |v| == |normal| && r.Err? ==> r.error == DivisionByZero
    ensures r.Ok? ==> |r.value| == |v|
    ensures r.Ok? ==> (var c := 2.0 * Dot(v, normal) / Dot(normal, normal);
      forall i :: 0 <= i < |v| ==> r.value[i] == v[i] - c * normal[i])
  {
    if |v| != |normal| then Err(DimensionMismatch)
    else
      var magNormalSquared := Dot(normal, normal);
      if magNormalSquared == 0.0 then Err(DivisionByZero)
      else
        var scalar := 2.0 * Dot(v, normal) / magNormalSquared;
        VectorSubtraction(v, ScalarMultiplication(normal, scalar))
  }

  /** The discriminant `k = 1 - eta^2 (1 - dot(v, normal)^2)` of a refraction. */
  function RefractionDiscriminant(dotVN: real, eta: real): (k: real)
  {
    1.0 - eta * eta * (1.0 - dotVN * dotVN)
  }

  /**
   * `vector_refraction`: on a negative discriminant (total internal
   * reflection) the zero vector of the incident vector's length, otherwise
   * `eta v - (eta dot(v, normal) + sqrt(k)) normal`.
   */
  function VectorRefraction(v: Vector, normal: Vector, eta: real, sqrt: real -> real): (r: Result<Vector>)
    ensures r.Err? <==> |v| != |normal|
    ensures r.Err? ==> r.error == DimensionMismatch
    ensures r.Ok? ==> |r.value| == |v|
    ensures r.Ok? && RefractionDiscriminant(Dot(v, normal), eta) < 0.0 ==> r.value == Zeros(|v|)
    ensures r.Ok? && RefractionDiscriminant(Dot(v, normal), eta) >= 0.0 ==>
      (var d := Dot(v, normal);
       var m := eta * d + sqrt(RefractionDiscriminant(d, eta));
       forall i :: 0 <= i < |v| ==> r.value[i] == eta * v[i] - m * normal[i])
  {
    if |v| != |normal| then Err(DimensionMismatch)
    else
      var dotVN := Dot(v, normal);
      var k := RefractionDiscriminant(dotVN, eta);
      if k < 0.0 then Ok(Zeros(|v|))
      else VectorSubtraction(ScalarMultiplication(v, eta), ScalarMultiplication(normal, eta * dotVN + sqrt(k)))
  }

  /**
   * `vector_face_forward`: `i` when `dot(n, i) < 0`, otherwise `-i`. The
   * third vector `ng` is accepted and never read, so it neither changes the
   * result nor causes a failure.
   */
  function VectorFaceForward(n: Vector, i: Vector, ng: Vector): (r: Result<Vector>)
    ensures r.Err? <==> |n| != |i|
    ensures r.Err? ==> r.error == DimensionMismatch
    ensures r.Ok? ==> |r.value| == |i|
    ensures r.Ok? && Dot(n, i) < 0.0 ==> r.value == i
    ensures r.Ok? && Dot(n, i) >= 0.0 ==> forall j :: 0 <= j < |i| ==> r.value[j] == -i[j]
  {
    if |n| != |i| then Err(DimensionMismatch)
    else if Dot(n, i) < 0.0 then Ok(i)
    else Ok(ScalarMultiplication(i, -1.0))
  }

  /**
   * `vector_distance`: `sqrt` of the sum of squared componentwise
   * differences (`x ** 2` is `x * x`).
   */
  function VectorDistance(v1: Vector, v2: Vector, sqrt: real -> real): (r: Result<real>)
    ensures r.Err? <==> |v1| != |v2|
    ensures r.Err? ==> r.error == DimensionMismatch
  {
    if |v1| != |v2| then Err(DimensionMismatch)
    else
      var d := VectorSubtraction(v1, v2).value;
      Ok(sqrt(Dot(d, d)))
  }

  /**
   * `vector_length`: `sqrt` of the sum of squared components; never fails.
   * It is the distance of `v` from the origin.
   */
  function VectorLength(v: Vector, sqrt: real -> real): (r: real)
    ensures VectorDistance(v, Zeros(|v|), sqrt) == Ok(r)
  {
    assert VectorSubtraction(v, Zeros(|v|)).value == v;
    sqrt(Dot(v, v))
  }

  // ---------------------------------------------------------------------
  // Componentwise functions
  // ---------------------------------------------------------------------

  /** `vector_absolute`: the absolute value of every component. */
  function VectorAbsolute(v: Vector): (r: Vector)
    ensures |r| == |v|
    ensures forall i :: 0 <= i < |v| ==> 0.0 <= r[i] && (r[i] == v[i] || r[i] == -v[i])
  {
    seq(|v|, i requires 0 <= i < |v| => Abs(v[i]))
  }

  /** `vector_minimum`: the smaller of the matching components. */
  function VectorMinimum(v1: Vector, v2: Vector): (r: Result<Vector>)
    ensures r.Err? <==> |v1| != |v2|
    ensures r.Err? ==> r.error == DimensionMismatch
    ensures r.Ok? ==> |r.value| == |v1|
    ensures r.Ok? ==> forall i :: 0 <= i < |v1| ==>
      r.value[i] <= v1[i] && r.value[i] <= v2[i] && (r.value[i] == v1[i] || r.value[i] == v2[i])
  {
    if |v1| != |v2| then Err(DimensionMismatch)
    else Ok(seq(|v1|, i requires 0 <= i < |v1| => Min(v1[i], v2[i])))
  }

  /** `vector_maximum`: the larger of the matching components. */
  function VectorMaximum(v1: Vector, v2: Vector): (r: Result<Vector>)
    ensures r.Err? <==> |v1| != |v2|
    ensures r.Err? ==> r.error == DimensionMismatch
    ensures r.Ok? ==> |r.value| == |v1|
    ensures r.Ok? ==> forall i :: 0 <= i < |v1| ==>
      v1[i] <= r.value[i] && v2[i] <= r.value[i] && (r.value[i] == v1[i] || r.value[i] == v2[i])
  {
    if |v1| != |v2| then Err(DimensionMismatch)
    else Ok(seq(|v1|, i requires 0 <= i < |v1| => Max(v1[i], v2[i])))
  }

  /** `vector_floor`: every component rounded down to an integer. */
  function VectorFloor(v: Vector): (r: seq<int>)
    ensures |r| == |v|
    ensures forall i :: 0 <= i < |v| ==> r[i] as real <= v[i] < r[i] as real + 1.0
  {
    seq(|v|, i requires 0 <= i < |v| => Floor(v[i]))
  }

  /** `vector_ceil`: every component rounded up to an integer. */
  function VectorCeil(v: Vector): (r: seq<int>)
    ensures |r| == |v|
    ensures forall i :: 0 <= i < |v| ==> r[i] as real - 1.0 < v[i] <= r[i] as real
  {
    seq(|v|, i requires 0 <= i < |v| => Ceil(v[i]))
  }

  /**
   * `vector_snap`: every component moved to the nearest multiple of
   * `increment` (`round(v[i] / increment) * increment`). The division is
   * made once per component, so a zero increment raises a division by zero
   * only when there is a component to divide.
   */
  function VectorSnap(v: Vector, increment: real): (r: Result<Vector>)
    ensures r.Err? <==> increment == 0.0 && |v| > 0
    ensures r.Err? ==> r.error == DivisionByZero
    ensures r.Ok? ==> |r.value| == |v|
  {
    if |v| == 0 then Ok([])
    else if increment == 0.0 then Err(DivisionByZero)
    else Ok(seq(|v|, i requires 0 <= i < |v| => RoundHalfEven(v[i] / increment) as real * increment))
  }

  /**
   * `vector_wrap`: despite its name a clamp, `min(max(v[i], lo[i]), hi[i])`.
   * All three vectors must have the same length.
   */
  function VectorWrap(v: Vector, minValues: Vector, maxValues: Vector): (r: Result<Vector>)
    ensures r.Err? <==> |v| != |minValues| || |v| != |maxValues|
    ensures r.Err? ==> r.error == DimensionMismatch
    ensures r.Ok? ==> |r.value| == |v|
    ensures r.Ok? ==> forall i :: 0 <= i < |v| ==>
      r.value[i] <= maxValues[i] &&
      (minValues[i] <= maxValues[i] ==> minValues[i] <= r.value[i]) &&
      (minValues[i] <= v[i] <= maxValues[i] ==> r.value[i] == v[i]) &&
      (v[i] < minValues[i] <= maxValues[i] ==> r.value[i] == minValues[i]) &&
      (maxValues[i] < v[i] || maxValues[i] < minValues[i] ==> r.value[i] == maxValues[i])
  {
    if |v| != |minValues| || |v| != |maxValues| then Err(DimensionMismatch)
    else Ok(seq(|v|, i requires 0 <= i < |v| => Min(Max(v[i], minValues[i]), maxValues[i])))
  }
}
