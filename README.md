# Motion estimation and ground-truth evaluation of the speckle velocimeter

This project models two parts of the velocimeter in Dafny and proves properties about them.

The first part is the motion estimator of `FeaturesMethod`:

- `getRTMatrix` fits a similarity transform (uniform scale, rotation, translation) to point correspondences. It uses closed-form least-squares normal equations.
- `RANSAC` wraps that fit. It draws random triples of correspondences and rejects repeated, coincident or near-colinear ones. It fits a transform to each triple and counts the pairs the transform explains within a threshold that scales with the bounding box. It stops once enough pairs agree. On success it compacts both point vectors, in place, to those pairs.

The second part is the `Evaluator`. It reads the ground-truth file `moves.txt` next to the video: a scale line, then one `x,y[,z]` record per frame. For each frame it compares the measured motion with the recorded one and accumulates the absolute error.

Modules:

- `Geometry` (geometry.dfy): points, the L1 metric and the two sample-rejection tests. It also holds the similarity in two forms, as four parameters (s·cos θ, s·sin θ, tx, ty) and as the continuous 2x3 output matrix.
- `RigidTransform` (rigid_transform.dfy): `GetRTMatrix`, imperative over `array2`/`array` as in the source. It comes with a reference definition of the least-squares problem, sum over i of J(pᵢ)ᵀJ(pᵢ) and J(pᵢ)ᵀqᵢ. Lemmas show that the assembled system is that problem. They also show that the fit recovers any exact similarity as soon as two `before` points differ.
- `SampleConsensus` (ransac.dfy): `Ransac`, with the vectors `pA`/`pB` as objects edited in place. The sampling loop is `DrawSample`, the scoring loop `CountInliers`, and the compaction and `resize` are `KeepInliers`. All of them are proved against the specification functions `ValidSample`, `Inliers` and `Select`.
- `Evaluation` (evaluator.dfy): the `Evaluator` class with its fields, the reading loop of its path constructor, `evaluate`, `getStatus` and `getLastError`.
- `Wrappers` (wrappers.dfy): `Option` and `Result`.

Arithmetic is on exact reals. `cv::solve`, the random generator, `boundingRect`, `std::stod` and file access are parameters of the model:

- A solver is any function `(Mat4, Vec4) -> Vec4`. The recovery theorems assume only that it solves systems that have a solution (`SolvesConsistentSystems`).
- The generator is a function `draw(t, n)`: the value of the t-th call `rng.uniform(0, n)`. It is assumed to lie in `[0, n)`.
- `boundingRect(pB)` becomes its width and height.
- A file is a function from paths to their lines, or to None when the file cannot be opened.

## Model

| member | source | states |
|---|---|---|
| Geometry.SimilarityMatrix | FinalThesis/FeaturesMethod.h:68-73 | the output matrix built from the four parameters has similarity form (om[0] == om[4], om[1] == -om[3]), gives the parameters back, and moves every point exactly as the similarity with those parameters does |
| Geometry.SimilarityFormIsImage | FinalThesis/FeaturesMethod.h:68-73 | a 2x3 matrix has similarity form if and only if it is the matrix of the parameters read back from it |
| Geometry.ZeroCrossFailsTest | FinalThesis/FeaturesMethod.h:149 | a zero cross product between two non-zero legs is below the 0.01 bound, so such a triangle is rejected |
| Geometry.ParallelLegsNearColinear | FinalThesis/FeaturesMethod.h:143-151 | two non-zero legs whose cross product is zero fail the colinearity test |
| Geometry.OnOneLineIsNearColinear | FinalThesis/FeaturesMethod.h:143-151 | three points on one line, the second and third distinct from the first, are rejected as near-colinear |
| Geometry.NotCoincidentIsDistinct | FinalThesis/FeaturesMethod.h:122-127 | two points that pass the 2·FLT_EPSILON coincidence test are different points |
| RigidTransform.SumNormSq | FinalThesis/FeaturesMethod.h:50 | the accumulated sum of squared norms is never negative |
| RigidTransform.NormalMatrix | FinalThesis/FeaturesMethod.h:48-64 | the assembled normal matrix is symmetric, has N at [2][2] and [3][3], zero at [0][1] and [2][3], and equal non-negative entries at [0][0] and [1][1] |
| RigidTransform.NormalMatrixDeterminedBySums | FinalThesis/FeaturesMethod.h:48-64 | two point lists with the same count, sum of squared norms and coordinate sums give the same normal matrix |
| RigidTransform.AccumulateSums | FinalThesis/FeaturesMethod.h:43-58 | after the loop, pA[0][0], pA[0][2] and pA[0][3] hold the sum of squared norms and the coordinate sums of `before`; pB holds the sums of before·after, before×after, after.x and after.y; pA[0][1] and every entry of rows 1 to 3, which the loop does not touch, are still zero |
| RigidTransform.AddPair | FinalThesis/FeaturesMethod.h:50-57 | one pass of the loop body adds the pair's terms to pA[0][0], pA[0][2], pA[0][3] and to all of pB, and leaves every other entry of pA as it was |
| RigidTransform.CompleteSymmetric | FinalThesis/FeaturesMethod.h:60-64 | the fill statements give every entry of pA as a function of the accumulated first row and N (the new state in full) |
| RigidTransform.StoreParams | FinalThesis/FeaturesMethod.h:68-73 | the six output entries are exactly the similarity matrix of the solved parameters |
| RigidTransform.GetRTMatrix | FinalThesis/FeaturesMethod.h:37-74 | succeeds if and only if N > 1 and both lists have N points (the CV_Assert); on success the output is the similarity matrix of the solver's answer to the system built from the sums, so it has similarity form; on failure the output buffer is unchanged |
| RigidTransform.NormalMatrixStep | FinalThesis/FeaturesMethod.h:50-52 | one more `before` point adds exactly its share J(p)ᵀJ(p) to the normal matrix |
| RigidTransform.NormalMatrixIsGramSum | FinalThesis/FeaturesMethod.h:48-64 | the assembled normal matrix equals the least-squares normal matrix, the sum of J(p)ᵀJ(p) of the similarity model |
| RigidTransform.ProjectionEntries | FinalThesis/FeaturesMethod.h:54-57 | one pair's share J(p)ᵀq of the right-hand side is (p·q, p×q, q.x, q.y) |
| RigidTransform.NormalRhsIsProjectionSum | FinalThesis/FeaturesMethod.h:54-57 | the assembled right-hand side equals the least-squares right-hand side, the sum of J(p)ᵀq |
| RigidTransform.GramTimesParams | FinalThesis/FeaturesMethod.h:48-57 | for one point, the normal matrix times any parameters equals the right-hand side of the pair that the similarity with those parameters produces |
| RigidTransform.GramQuadratic | FinalThesis/FeaturesMethod.h:48-64 | for one point, dᵀ J(p)ᵀJ(p) d is the squared norm of the point moved by d |
| RigidTransform.GramSumSolves | FinalThesis/FeaturesMethod.h:48-57 | summed over the points, exact pairs satisfy the least-squares normal equations |
| RigidTransform.ExactPairsSolveNormalEquations | FinalThesis/FeaturesMethod.h:48-66 | when every `after` point is the image of its `before` point under parameters m, m solves the system getRTMatrix assembles (A m == B) |
| RigidTransform.GramSumQuadratic | FinalThesis/FeaturesMethod.h:48-64 | dᵀ (sum of J(p)ᵀJ(p)) d is the sum of the squared norms of the points moved by d |
| RigidTransform.NormalMatrixQuadraticForm | FinalThesis/FeaturesMethod.h:48-64 | the assembled normal matrix is positive semidefinite: dᵀ A d is a sum of squared norms |
| RigidTransform.SumNormSqZero | FinalThesis/FeaturesMethod.h:50 | a sum of squared norms is zero only when every point is the origin |
| RigidTransform.ZeroAtTwoPoints | FinalThesis/FeaturesMethod.h:66-73 | a similarity that sends two distinct points to the origin has all four parameters zero |
| RigidTransform.NormalEquationsUnique | FinalThesis/FeaturesMethod.h:48-66 | with two distinct `before` points the assembled system has at most one solution |
| RigidTransform.FitRecoversSimilarity | FinalThesis/FeaturesMethod.h:37-74 | round trip: for pairs made exactly by a similarity, with two distinct `before` points and a solver that solves consistent systems, the fitted matrix is that similarity's matrix |
| SampleConsensus.PointVector.constructor | FinalThesis/FeaturesMethod.h:83 | a vector reference starts out with the given points |
| SampleConsensus.PointVector.Resize | FinalThesis/FeaturesMethod.h:195-196 | vector::resize gives length n: it truncates to the prefix, or keeps all points and pads with the origin |
| SampleConsensus.CheckDraw | FinalThesis/FeaturesMethod.h:117-153 | a draw is kept if and only if it differs from, and is not coincident in pA or in pB with, every index drawn before it, and, for the third slot, the triangle is near-colinear in neither set |
| SampleConsensus.DrawSample | FinalThesis/FeaturesMethod.h:105-159 | a sample that is found is valid: three in-range indices, pairwise different and not coincident in pA or in pB, and not near-colinear in either set; a and b are the sampled points; when no sample is found, some slot saw 300 consecutive draws all rejected for the indices already drawn; the generator is called at least 3 (found) or 300 (not found) times and at most 900 times |
| SampleConsensus.InlierThreshold | FinalThesis/FeaturesMethod.h:173 | the threshold times 20 is the larger of the rectangle's width and height, so a non-empty rectangle gives a positive threshold |
| SampleConsensus.Inliers | FinalThesis/FeaturesMethod.h:170-175 | the inlier list is strictly increasing, has at most n entries, and every entry is below n |
| SampleConsensus.InliersAreTheGoodPairs | FinalThesis/FeaturesMethod.h:170-175 | an index is in the inlier list if and only if it is below n and its pair's L1 residual under the model is below the threshold |
| SampleConsensus.CountInliers | FinalThesis/FeaturesMethod.h:169-175 | the scoring loop leaves exactly the inlier list in good_idx[0..good_count) |
| SampleConsensus.IncreasingBounds | FinalThesis/FeaturesMethod.h:186-194 | the k-th entry of a strictly increasing list of indices below n lies between k and n - length + k, so the compaction only copies downward |
| SampleConsensus.FullIndexListIsIdentity | FinalThesis/FeaturesMethod.h:186 | when every pair is an inlier, good_idx is 0..count-1 and skipping the compaction loses nothing |
| SampleConsensus.KeepInliers | FinalThesis/FeaturesMethod.h:185-196 | after the compaction and resize, both vectors hold exactly the original pairs at the kept indices, in their original order |
| SampleConsensus.Round | FinalThesis/FeaturesMethod.h:104-178 | a round is accepted if and only if a sample was found and good_count >= count·good_ratio; a found sample is valid, its model is getRTMatrix on the sampled points and good_idx holds exactly that model's inliers; a round that found no sample ended on a slot whose 300 draws were all rejected |
| SampleConsensus.Ransac | FinalThesis/FeaturesMethod.h:83-199 | fewer than 3 pairs means failure; failure leaves both vectors unchanged; success means both vectors hold exactly the pairs within the threshold of the model fitted to a valid sample, in original order, and enough of them to meet the ratio |
| SampleConsensus.EveryPairExplained | FinalThesis/FeaturesMethod.h:170-175 | when the model explains every pair, the inlier list is 0..n-1 |
| SampleConsensus.SurvivorsAreTheGoodPairs | FinalThesis/FeaturesMethod.h:170-196 | each survivor is an original pair whose residual is below the threshold, and every pair below the threshold survives |
| SampleConsensus.ExactMotionKeepsEveryPair | FinalThesis/FeaturesMethod.h:103-196 | on data made exactly by one similarity, any valid sample fits that similarity; when the bounding rectangle is not empty, every pair is then an inlier and the compaction keeps the vectors whole |
| SampleConsensus.OneLineHasNoValidSample | FinalThesis/FeaturesMethod.h:149-163 | when all points of pA lie on one line, every spread triple is near-colinear in pA, so no sample is valid, and by Ransac's contract no run succeeds |
| Evaluation.AbsDiff | Velocimeter/Evaluator.h:97-99 | each component of the error is non-negative, and the error is zero exactly when the two points are equal |
| Evaluation.Find | Velocimeter/Evaluator.h:52 | string::find gives the first position of the character, or None exactly when it does not occur |
| Evaluation.FindLast | Velocimeter/Evaluator.h:27-28 | string::find_last_of gives the last position of the character, or None exactly when it does not occur |
| Evaluation.GroundTruthPath | Velocimeter/Evaluator.h:26-32 | there is no path exactly when the video path has no backslash and no slash; otherwise the path is the prefix up to the last backslash (or, without one, the last slash) followed by "//moves.txt" |
| Evaluation.Trunc | Velocimeter/Evaluator.h:47 | assigning the scale from a double truncates toward zero |
| Evaluation.FirstCommaAt | Velocimeter/Evaluator.h:52 | the first comma of a line is the one after a comma-free prefix |
| Evaluation.RecordOfTwoFields | Velocimeter/Evaluator.h:52-70 | a line without a comma gives no record; "x,y" gives (x, y, 0) |
| Evaluation.RecordOfThreeFields | Velocimeter/Evaluator.h:52-70 | "x,y,z" gives (x, y, z), with z = 0 when the third field is empty |
| Evaluation.ParseRecord | Velocimeter/Evaluator.h:52-70 | the find/resize/erase statements give exactly the record of the line, and fail exactly when the line has no comma |
| Evaluation.Evaluator.Empty | Velocimeter/Evaluator.h:22 | the default evaluator has no ground truth, no results, zero errors, scale 0 and status false |
| Evaluation.Evaluator.ReadGroundTruth | Velocimeter/Evaluator.h:41-78 | the first line only sets the scale (truncated); the reading fails at the first record line without a comma; otherwise there is one ground-truth point per record line, the record of that line, mGroundTruthSize follows the list and mStatus is true when a record was read; results and errors are untouched |
| Evaluation.Open | Velocimeter/Evaluator.h:24-81 | construction fails with "Directory not found" exactly when the path has no separator, and fails at a record line without a comma; otherwise the evaluator is valid, holds no results and zero errors, has the records of the file as ground truth (none when the file cannot be opened), and has as scale the truncated first line, or 0 when the file cannot be opened or is empty |
| Evaluation.Evaluator.Evaluate | Velocimeter/Evaluator.h:88-102 | out-of-range frames (no ground truth, frameNum < 1 or beyond the last record) change nothing; otherwise exactly one result, (-x, y, -z), is appended, mLastError becomes the frame's error against the ground-truth motion (frame 1 against the origin, later frames against the previous record) and mAvgError grows by exactly mLastError; the ground truth, its size, the status and the scale never change |
| Evaluation.Evaluator.Status | Velocimeter/Evaluator.h:104 | getStatus is true if and only if some ground-truth record was read |
| Evaluation.Evaluator.LastError | Velocimeter/Evaluator.h:137-140 | the last error is non-negative, zero before any frame is evaluated, and otherwise the error of the last evaluated frame |
| Evaluation.FrameErrorZeroIff | Velocimeter/Evaluator.h:92-100 | a frame's error is zero if and only if the inverted measurement equals the frame's ground-truth motion, and it is never negative |
| Evaluation.MotionsTelescope | Velocimeter/Evaluator.h:92-99 | the ground-truth motions of frames 1..n add up to the position recorded for frame n |
| Evaluation.SumBoundsEachTerm | Velocimeter/Evaluator.h:101 | a sum of non-negative errors is non-negative and bounds each of them |
| Evaluation.AvgErrorBoundsLastError | Velocimeter/Evaluator.h:100-101 | in a valid evaluator the accumulated error is non-negative and at least the last error, component by component |

The class invariant `Evaluation.Evaluator.Valid` ties the fields together:

- mGroundTruthSize equals the number of records.
- mStatus holds if and only if a record was read.
- There is one error per result.
- mAvgError is the sum of the errors, and mLastError is the last of them.

Every state-changing method preserves it.

On data made exactly by one similarity the code can still fail. Success needs a sample that passes the colinearity test (FeaturesMethod.h:149-151), drawn within the retry budget. When every point of pA lies on one line, no triple passes (`OneLineHasNoValidSample`), so every round gives up and the run fails. `ExactMotionKeepsEveryPair` proves what holds for every valid sample: it fits the similarity and keeps every pair.

## Left out

- Floating point: coordinates, sums and the solve are exact reals, so rounding in float/double and the float32 storage of `Point2f` and `Point3f` are not modelled. FLT_EPSILON is kept as the constant 2⁻²³.
- `sqrt` in the colinearity test: `|c| < eps·√a·√b` is stated as `c² < eps²·a·b`. Both sides are non-negative, so the two tests are equivalent on reals.
- `cv::solve(A, B, MM, DECOMP_EIG)` is an abstract solver function. For a singular system, what it returns is unknown to the model.
- `RNG rng(-1)` and `rng.uniform`: an abstract sequence of draws in `[0, count)`. The particular generator, and so which samples are drawn, is not modelled.
- `boundingRect(pB)` is given by its width and height.
- `std::stod` is an abstract function from text to a number. Its exceptions on text that is not a number are not modelled. Neither is stopping at the first character that does not belong to a number.
- File access (`ifstream`, `getline`) is a function from paths to lines. The console message for a file that cannot be opened is not modelled.
- `CV_Error`, and the `std::length_error` that `resize(npos)` throws on a record line without a comma, are `Failure` results of `Open`.
- The size check `CV_Assert(N > 1 && N == after.size())` in getRTMatrix is a `false` result of `GetRTMatrix`. RANSAC never makes it fail.
- `RigidTransform.GetRTMatrix`: RTMatrix is a buffer of six doubles (`requires om.Length == 6`). The `CV_Assert(RTMatrix.isContinuous())` of line 39 is not modelled, because a buffer is always continuous. RANSAC always passes a fresh continuous 2x3 matrix.
- `Evaluation.Open`: when the file cannot be opened, or opens but is empty, the source never assigns mScale, which stays uninitialised. The model gives it 0, the default constructor's value.
- `SampleConsensus.Ransac`: from 3 pairs on, indexing pB by indices below pA's size assumes pB has at least as many points as pA. This is stated as a precondition for that case only. The two vectors may be the same object.
- `SampleConsensus.Ransac`: for 3 or more pairs, its own contract does not say when the run fails. That depends on the generator. It says only that a failed run leaves both vectors unchanged. Each round's reason for giving up is stated by `Round`.
- `SampleConsensus.DrawSample`: the fixed `a` and `b` vectors of the source are fresh sequences here.
- Integer widths: `int` counters and `size_t` positions are unbounded. No count here comes near 2³¹.
- The `FeaturesMethod` constructor, the detector factory and the destructor are not modelled. They wrap classes that are not part of this model.
- `Evaluator::getPathImg` (image drawing), `getAvgError` and `getMeanMotion` (floating-point division and `sqrt`) and the destructor are not modelled.
- `Velocimeter/Gaussian5.h` is not part of this model. It is floating-point sub-pixel interpolation whose fallbacks rely on OpenCV's bounds-check exceptions.
