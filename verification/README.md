# Vector Math Calculator: a verified model of its vector operations

The Vector Math Calculator is a small Python program. It offers elementary
vector operations through a numbered text menu: addition and subtraction,
scalar multiplication and scaling, dot and cross products, projection,
reflection, refraction, face-forward, distance and length, absolute value,
componentwise minimum, maximum, floor and ceiling, snapping to an increment,
clamping (named "wrap" in the program) and componentwise trigonometry. This
project models those operations as pure Dafny functions over `seq<real>` and
proves the algebraic laws they are meant to satisfy.

Files:

- `vector_math.dfy`, module `VectorMath`: the operations. It holds the
  `Vector`, `Error` and `Result` types, Python's `min`, `max`, `abs`,
  `math.floor`, `math.ceil` and `round` on one component, and one function
  per operation.
- `dot_laws.dfy`, module `DotLaws`: symmetry, linearity and positivity of
  the dot product.
- `arithmetic_laws.dfy`, module `ArithmeticLaws`: the addition/subtraction
  round trip, scaling, and the cross product's anti-commutativity and
  orthogonality.
- `geometry_laws.dfy`, module `GeometryLaws`: projection, reflection,
  refraction, face-forward, length and distance.
- `componentwise_laws.dfy`, module `ComponentwiseLaws`: minimum and maximum,
  absolute value, floor and ceiling, snapping and clamping.

Modelling decisions:

- **Exact reals.** The program computes with Python floats. The model
  computes with exact `real` arithmetic. It captures what the code intends
  algebraically, not IEEE-754 rounding, NaN or infinity. This is why laws
  such as `subtraction(addition(a, b), b) == a` hold exactly here.
- **Failures are values.** Every `ValueError` the program raises becomes a
  `Result.Err`. A length mismatch gives `DimensionMismatch`. A cross product
  of vectors that are not both 3-dimensional gives `NotThreeDimensional`.
  Every Python `ZeroDivisionError` the code can reach becomes
  `DivisionByZero`. Python raises this error for float division by zero too,
  so the model makes no choice of its own here.
- **Division by zero follows the code's evaluation order.**
  - Projection and reflection always compute their quotient. A zero vector
    to project onto, or a zero normal, therefore fails. The empty vector
    counts as zero, because `sum` of nothing is `0`.
  - Snapping divides once per component. A zero increment therefore fails
    only when the vector has components; snapping `[]` by `0` gives `[]`.
- **Square roots are a parameter.** `math.sqrt` has no exact model. The
  operations that call it (length, distance, and the `k >= 0` branch of
  refraction) take the square-root function as a parameter `sqrt`. A lemma
  that needs `sqrt` to return a square root says so in its `requires`.
- **Face-forward keeps `ng`.** `vector_face_forward` accepts a third vector
  `ng` and never reads it. The model keeps the parameter and ignores it, so
  `ng` neither affects the result nor causes a failure.
- **"Wrap" is a clamp.** `vector_wrap` computes `min(max(v[i], lo[i]),
  hi[i])`, and so does `VectorWrap`. When `lo[i] > hi[i]` the result is
  `hi[i]`, as in the code.
- **Zero vector of refraction.** `[0] * len(v)` builds Python integer
  zeros. The model returns the real `0.0`, which has the same value.
- **`round`.** Python's `round` rounds to the nearest integer and breaks
  ties towards the even integer. `RoundHalfEven` is specified by exactly
  these two properties.

## Model

| member | source | states |
|---|---|---|
| `VectorMath.VectorAddition` | vector_math_calculator.py:3-7 | fails with a dimension mismatch exactly when the lengths differ; otherwise same length and component `i` is `v1[i] + v2[i]` |
| `VectorMath.VectorSubtraction` | vector_math_calculator.py:9-13 | fails with a dimension mismatch exactly when the lengths differ; otherwise same length and component `i` is `v1[i] - v2[i]` |
| `VectorMath.ScalarMultiplication` | vector_math_calculator.py:15-17 | never fails; same length, component `i` is `scalar * v[i]` |
| `VectorMath.VectorScale` | vector_math_calculator.py:66-68 | never fails; same length, component `i` is `v[i] * s` |
| `VectorMath.DotProduct` | vector_math_calculator.py:19-23 | fails with a dimension mismatch exactly when the lengths differ; otherwise the left-to-right sum of `v1[i] * v2[i]` |
| `VectorMath.CrossProduct` | vector_math_calculator.py:25-33 | succeeds exactly when both vectors have length 3, with a 3-component result; otherwise fails as not three-dimensional |
| `VectorMath.VectorProjection` | vector_math_calculator.py:35-41 | a length mismatch fails first; with equal lengths it fails with division by zero exactly when `dot(v2, v2) == 0`; otherwise component `i` is `(dot(v1, v2) / dot(v2, v2)) * v2[i]` |
| `VectorMath.VectorReflection` | vector_math_calculator.py:43-48 | a length mismatch fails first; with equal lengths it fails with division by zero exactly when `dot(n, n) == 0`; otherwise component `i` is `v[i] - (2 dot(v, n) / dot(n, n)) n[i]` |
| `VectorMath.VectorRefraction` | vector_math_calculator.py:50-59 | fails exactly on a length mismatch; a negative discriminant `k` gives the zero vector of `v`'s length; otherwise component `i` is `eta v[i] - (eta dot(v, n) + sqrt(k)) n[i]` |
| `VectorMath.VectorFaceForward` | vector_math_calculator.py:61-64 | fails exactly when `n` and `i` differ in length (the error comes from the dot product); otherwise `i` when `dot(n, i) < 0` and `-i` componentwise otherwise; `ng` is never read |
| `VectorMath.VectorDistance` | vector_math_calculator.py:70-74 | fails with a dimension mismatch exactly when the lengths differ |
| `VectorMath.VectorLength` | vector_math_calculator.py:70-78 | never fails; the length of `v` is its distance from the origin, `distance(v, zero vector) == Ok(length(v))` |
| `VectorMath.VectorAbsolute` | vector_math_calculator.py:80-82 | same length; every component is non-negative and equals `v[i]` or `-v[i]` |
| `VectorMath.VectorMinimum` | vector_math_calculator.py:84-88 | fails exactly on a length mismatch; otherwise each component is at most both inputs and equals one of them |
| `VectorMath.VectorMaximum` | vector_math_calculator.py:90-94 | fails exactly on a length mismatch; otherwise each component is at least both inputs and equals one of them |
| `VectorMath.VectorFloor` | vector_math_calculator.py:96-98 | same length; each component is the integer `f` with `f <= v[i] < f + 1` |
| `VectorMath.VectorCeil` | vector_math_calculator.py:100-102 | same length; each component is the integer `c` with `c - 1 < v[i] <= c` |
| `VectorMath.RoundHalfEven` | vector_math_calculator.py:106 | the result is within one half of `x`, and on an exact tie it is even (Python's `round`) |
| `VectorMath.VectorSnap` | vector_math_calculator.py:104-106 | fails with division by zero exactly when the increment is zero and the vector is non-empty; otherwise same length |
| `VectorMath.VectorWrap` | vector_math_calculator.py:108-112 | fails exactly when `min_values` or `max_values` differs in length from `v`; otherwise each component is at most `max[i]`, at least `min[i]` when `min[i] <= max[i]`, equal to `v[i]` when `v[i]` is already in range, equal to `min[i]` when `v[i]` is below a consistent range, and equal to `max[i]` when `v[i]` is above it or `min[i] > max[i]` |
| `DotLaws.DotSymmetric` | vector_math_calculator.py:23 | the sum of products is symmetric in its operands (proved by induction) |
| `DotLaws.DotLinear` | vector_math_calculator.py:23 | the sum of products is linear in its first operand (proved by induction) |
| `DotLaws.ScaledDot` | vector_math_calculator.py:17-23 | `dot(s u, n) == s dot(u, n)` |
| `DotLaws.DotSelf` | vector_math_calculator.py:23 | `dot(v, v) >= 0`, with equality exactly when every component is zero (proved by induction) |
| `DotLaws.DotProductCommutes` | vector_math_calculator.py:19-23 | `dot_product(a, b) == dot_product(b, a)` on every input, failures included |
| `DotLaws.DotProductSelfNonNegative` | vector_math_calculator.py:19-23 | `dot_product(v, v)` always succeeds with a non-negative value |
| `DotLaws.DotProductExample` | vector_math_calculator.py:19-23 | `dot([1,0,0], [0,1,0]) == 0` |
| `ArithmeticLaws.AddSubRoundTrip` | vector_math_calculator.py:3-13 | `subtraction(addition(a, b), b) == a` for equal lengths |
| `ArithmeticLaws.SubAddRoundTrip` | vector_math_calculator.py:3-13 | `addition(subtraction(a, b), b) == a` for equal lengths |
| `ArithmeticLaws.AdditionCommutes` | vector_math_calculator.py:3-7 | `addition(a, b) == addition(b, a)` on every input |
| `ArithmeticLaws.AdditionExample` | vector_math_calculator.py:3-7 | `addition([1,2,3], [4,5,6]) == [5,7,9]` |
| `ArithmeticLaws.ScaleMatchesScalarMultiplication` | vector_math_calculator.py:15-17 | `vector_scale` and `scalar_multiplication` give identical results |
| `ArithmeticLaws.ScalarMultiplicationInverse` | vector_math_calculator.py:15-17 | multiplying by `s != 0` and then by `1/s` gives the vector back |
| `ArithmeticLaws.CrossAntiCommutative` | vector_math_calculator.py:25-33 | `cross(a, b) == scalar_multiplication(cross(b, a), -1)`, and one succeeds exactly when the other does |
| `ArithmeticLaws.CrossOrthogonal` | vector_math_calculator.py:25-33 | a successful `cross(a, b)` has dot product `0` with both `a` and `b` |
| `ArithmeticLaws.CrossExample` | vector_math_calculator.py:25-33 | `cross([1,0,0], [0,1,0]) == [0,0,1]` |
| `GeometryLaws.ProjectionFailsOnZero` | vector_math_calculator.py:35-41 | projection raises division by zero exactly when the lengths agree and `v2` is the zero vector |
| `GeometryLaws.ProjectionIsMultiple` | vector_math_calculator.py:35-41 | a successful projection is a scalar multiple of `v2` |
| `GeometryLaws.ProjectOntoSelf` | vector_math_calculator.py:35-41 | projecting a non-zero vector onto itself returns it |
| `GeometryLaws.ProjectionResidualOrthogonal` | vector_math_calculator.py:35-41 | `v1 - proj(v1, v2)` is orthogonal to `v2` |
| `GeometryLaws.ProjectionIdempotent` | vector_math_calculator.py:35-41 | projecting a projection onto the same vector changes nothing |
| `GeometryLaws.ReflectionFailsOnZero` | vector_math_calculator.py:43-48 | reflection raises division by zero exactly when the lengths agree and the normal is the zero vector |
| `GeometryLaws.ReflectionNegatesNormalComponent` | vector_math_calculator.py:43-48 | `dot(reflect(v, n), n) == -dot(v, n)` |
| `GeometryLaws.ReflectionInvolution` | vector_math_calculator.py:43-48 | reflecting twice about the same normal returns `v` |
| `GeometryLaws.ReflectionPreservesLength` | vector_math_calculator.py:43-48 | reflection preserves `dot(v, v)` |
| `GeometryLaws.RefractionTotalInternalReflectionExample` | vector_math_calculator.py:50-57 | `v = [1,0]`, `n = [0,1]`, `eta = 2` gives `k < 0` and the zero vector `[0,0]` |
| `GeometryLaws.RefractionOfUnitVectors` | vector_math_calculator.py:50-59 | for unit `v` and `n`, `k >= 0` and a true square root, the refracted vector is a unit vector with `dot(t, n) == -sqrt(k)` |
| `GeometryLaws.FaceForwardOpposesNormal` | vector_math_calculator.py:61-64 | the result `r` satisfies `dot(n, r) == -abs(dot(n, i)) <= 0` |
| `GeometryLaws.FaceForwardIgnoresNg` | vector_math_calculator.py:61-64 | the result does not depend on `ng` |
| `GeometryLaws.DistanceSymmetric` | vector_math_calculator.py:70-74 | `distance(v1, v2) == distance(v2, v1)` on every input |
| `GeometryLaws.LengthNonNegative` | vector_math_calculator.py:76-78 | with a square root that is never negative, the length is never negative |
| `GeometryLaws.LengthExample` | vector_math_calculator.py:76-78 | `length([3,4]) == 5` given `sqrt(25) == 5` |
| `ComponentwiseLaws.MinimumSelf` | vector_math_calculator.py:84-88 | `minimum(v, v) == v` |
| `ComponentwiseLaws.MaximumSelf` | vector_math_calculator.py:90-94 | `maximum(v, v) == v` |
| `ComponentwiseLaws.MinimumMaximumCommute` | vector_math_calculator.py:84-94 | minimum and maximum are commutative on every input |
| `ComponentwiseLaws.MinimumPlusMaximum` | vector_math_calculator.py:84-94 | `minimum(a, b) + maximum(a, b) == a + b` |
| `ComponentwiseLaws.AbsoluteIdempotent` | vector_math_calculator.py:80-82 | `absolute(absolute(v)) == absolute(v)` |
| `ComponentwiseLaws.AbsoluteOfNegation` | vector_math_calculator.py:80-82 | `absolute(-v) == absolute(v)` |
| `ComponentwiseLaws.FloorCeilBracket` | vector_math_calculator.py:96-102 | `floor[i] <= v[i] <= ceil[i]`; floor and ceiling are equal exactly on integers and otherwise one apart |
| `ComponentwiseLaws.SnapWithinHalfIncrement` | vector_math_calculator.py:104-106 | snapping moves no component by more than half the increment |
| `ComponentwiseLaws.SnapFixesMultiples` | vector_math_calculator.py:104-106 | a vector of multiples of the increment snaps to itself |
| `ComponentwiseLaws.SnapIdempotent` | vector_math_calculator.py:104-106 | snapping twice with the same increment is snapping once |
| `ComponentwiseLaws.WrapIdempotent` | vector_math_calculator.py:108-112 | clamping a clamped vector with the same bounds changes nothing |
| `ComponentwiseLaws.WrapExample` | vector_math_calculator.py:108-112 | `wrap([5,-2,10], [0,0,0], [8,8,8]) == [5,0,8]` |

## Left out

- `main` and `print_vector` (vector_math_calculator.py:130-341) are the menu loop, text parsing with `float(...)` and printing. They are console I/O with no logic to prove.
- `vector_sin`, `vector_cos` and `vector_tan` (vector_math_calculator.py:114-124) call transcendental functions. Exact reals have no model of these, and the only property left would be that the length is preserved.
- `math.sqrt` is a parameter of `VectorDistance`, `VectorLength` and `VectorRefraction`, not a definition. No lemma here assumes anything about it beyond what its `requires` state.
- VectorLength: its contract ties the length to the distance from the origin but does not state the value `sqrt(dot(v, v))` outright, since `sqrt` is a parameter; `LengthNonNegative` and `LengthExample` state what follows once `sqrt` is constrained.
- VectorDistance: its contract states only the failure condition; the value is `sqrt` of the sum of squared differences (`x ** 2` taken as `x * x`), and its properties are stated by the contract of `VectorLength` and by `DistanceSymmetric`.
- Float behaviour is out of scope: rounding, overflow to infinity, NaN, and signed zeros. Python's `ZeroDivisionError` is modelled; IEEE-754 results of other operations are not.
