/** Plane geometry shared by the motion estimator: points, the similarity
    transform in its 4-parameter and 2x3-matrix forms, and the two tests
    RANSAC uses to reject degenerate samples. Coordinates are exact reals. */
module Geometry {

  /** A cv::Point2f. */
  datatype Point2 = Point2(x: real, y: real)

  function Abs(r: real): real
  {
    if r < 0.0 then -r else r
  }

  /** Manhattan (L1) distance, the metric of both the coincidence test and
      the inlier residual. */
  function L1Distance(p: Point2, q: Point2): real
  {
    Abs(p.x - q.x) + Abs(p.y - q.y)
  }

  /** FLT_EPSILON, the machine epsilon of float32: 2^-23. */
  const FloatEpsilon: real := 1.0 / 8388608.0

  /** Two points closer than 2*FLT_EPSILON in L1 distance. */
  predicate Coincident(p: Point2, q: Point2)
  {
    L1Distance(p, q) < 2.0 * FloatEpsilon
  }

  /** Relative tolerance of the colinearity test. */
  const ColinearityEps: real := 0.01

  /** The colinearity test on a cross product c of two legs whose squared
      lengths are a and b: |c| < eps * sqrt(a) * sqrt(b). All three sides
      are non-negative, so the test is stated on squares, which removes the
      square roots. */
  predicate ColinearBound(c: real, a: real, b: real)
  {
    c * c < ColinearityEps * ColinearityEps * a * b
  }

  /** The test on the legs (dx1, dy1) and (dx2, dy2) of a triangle. */
  predicate LegsNearColinear(dx1: real, dy1: real, dx2: real, dy2: real)
  {
    ColinearBound(dx1 * dy2 - dy1 * dx2, dx1 * dx1 + dy1 * dy1, dx2 * dx2 + dy2 * dy2)
  }

  /** The triangle (p0, p1, p2) is near-colinear: the cross product of its
      legs p1-p0 and p2-p0 is smaller in magnitude than eps times the
      product of the legs' lengths. */
  predicate NearColinear(p0: Point2, p1: Point2, p2: Point2)
  {
    LegsNearColinear(p1.x - p0.x, p1.y - p0.y, p2.x - p0.x, p2.y - p0.y)
  }

  /** The cross product of the legs p1-p0 and p2-p0: zero exactly when the
      three points lie on one line. */
  function LegCross(p0: Point2, p1: Point2, p2: Point2): real
  {
    (p1.x - p0.x) * (p2.y - p0.y) - (p1.y - p0.y) * (p2.x - p0.x)
  }

  /** Legs of non-zero length with a zero cross product fail the test. */
  lemma ZeroCrossFailsTest(c: real, dx1: real, dy1: real, dx2: real, dy2: real)
    requires c == 0.0
    requires dx1 != 0.0 || dy1 != 0.0
    requires dx2 != 0.0 || dy2 != 0.0
    ensures ColinearBound(c, dx1 * dx1 + dy1 * dy1, dx2 * dx2 + dy2 * dy2)
  {
    assert ColinearityEps * ColinearityEps == 0.0001;
  }

  lemma ParallelLegsNearColinear(dx1: real, dy1: real, dx2: real, dy2: real)
    requires dx1 * dy2 - dy1 * dx2 == 0.0
    requires dx1 != 0.0 || dy1 != 0.0
    requires dx2 != 0.0 || dy2 != 0.0
    ensures LegsNearColinear(dx1, dy1, dx2, dy2)
  {
    ZeroCrossFailsTest(dx1 * dy2 - dy1 * dx2, dx1, dy1, dx2, dy2);
  }

  /** Three points on one line, the second and third apart from the first,
      always fail the colinearity test. */
  lemma OnOneLineIsNearColinear(p0: Point2, p1: Point2, p2: Point2)
    requires LegCross(p0, p1, p2) == 0.0
    requires p1 != p0 && p2 != p0
    ensures NearColinear(p0, p1, p2)
  {
    ParallelLegsNearColinear(p1.x - p0.x, p1.y - p0.y, p2.x - p0.x, p2.y - p0.y);
  }

  lemma ProductZero(a: real, b: real)
    requires a * b == 0.0
    ensures a == 0.0 || b == 0.0
  {
  }

  lemma SumOfSquaresPositive(a: real, b: real)
    requires a != 0.0 || b != 0.0
    ensures a * a + b * b > 0.0
  {
  }

  lemma SquareZero(a: real)
    requires a * a == 0.0
    ensures a == 0.0
  {
    ProductZero(a, a);
  }

  /** A 4-vector: the solved parameters (s*cos(theta), s*sin(theta), tx, ty)
      or a right-hand side of the normal equations. */
  type Vec4 = v: seq<real> | |v| == 4 witness [0.0, 0.0, 0.0, 0.0]

  const ZeroVec: Vec4 := [0.0, 0.0, 0.0, 0.0]

  /** A 4x4 matrix, row by row. */
  type Mat4 = m: seq<Vec4> | |m| == 4 witness [ZeroVec, ZeroVec, ZeroVec, ZeroVec]

  /** A continuous 2x3 matrix of doubles, row-major: entries 0..2 are the
      first row, 3..5 the second. */
  type Mat23 = m: seq<real> | |m| == 6 witness [0.0, 0.0, 0.0, 0.0, 0.0, 0.0]

  /** The similarity with parameters m = (s*cos(theta), s*sin(theta), tx, ty):
      rotate by theta, scale by s, translate by (tx, ty). */
  function Apply(m: Vec4, p: Point2): Point2
  {
    Point2(m[0] * p.x - m[1] * p.y + m[2], m[1] * p.x + m[0] * p.y + m[3])
  }

  /** A 2x3 matrix applied to a point, as the scoring loop of RANSAC does. */
  function MatApply(M: Mat23, p: Point2): Point2
  {
    Point2(M[0] * p.x + M[1] * p.y + M[2], M[3] * p.x + M[4] * p.y + M[5])
  }

  /** A 2x3 matrix without shear or non-uniform scale. */
  predicate IsSimilarityForm(M: Mat23)
  {
    M[0] == M[4] && M[1] == -M[3]
  }

  /** The four parameters read back from a matrix of similarity form. */
  function ParamsOf(M: Mat23): Vec4
  {
    [M[0], M[3], M[2], M[5]]
  }

  /** The 2x3 matrix of a similarity: it has similarity form, gives its
      parameters back, and acts on every point as the similarity does. */
  function SimilarityMatrix(m: Vec4): (M: Mat23)
    ensures IsSimilarityForm(M) && ParamsOf(M) == m
    ensures forall p :: MatApply(M, p) == Apply(m, p)
  {
    [m[0], -m[1], m[2], m[1], m[0], m[3]]
  }

  /** Matrices of similarity form are exactly the images of SimilarityMatrix. */
  lemma SimilarityFormIsImage(M: Mat23)
    ensures IsSimilarityForm(M) <==> SimilarityMatrix(ParamsOf(M)) == M
  {
    if SimilarityMatrix(ParamsOf(M)) == M {
      assert SimilarityMatrix(ParamsOf(M))[4] == M[4];
      assert SimilarityMatrix(ParamsOf(M))[1] == M[1];
    }
  }

  /** Points far enough apart to pass the coincidence test are distinct. */
  lemma NotCoincidentIsDistinct(p: Point2, q: Point2)
    requires !Coincident(p, q)
    ensures p != q
  {
  }
}
