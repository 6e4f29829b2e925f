/** Ground-truth bookkeeping of the velocimeter: the file of recorded moves
    next to the video (a scale line, then one "x,y[,z]" record per frame)
    and the per-frame comparison of measured motion against it. */
module Evaluation {
  import opened Wrappers
  import Geometry

  /** A cv::Point3f: x and y displacement, z rotation in degrees. */
  datatype Point3 = Point3(x: real, y: real, z: real)

  const Origin: Point3 := Point3(0.0, 0.0, 0.0)

  function Add(p: Point3, q: Point3): Point3
  {
    Point3(p.x + q.x, p.y + q.y, p.z + q.z)
  }

  function Sub(p: Point3, q: Point3): Point3
  {
    Point3(p.x - q.x, p.y - q.y, p.z - q.z)
  }

  predicate NonNegative(p: Point3)
  {
    p.x >= 0.0 && p.y >= 0.0 && p.z >= 0.0
  }

  /** Componentwise |p - q|. */
  function AbsDiff(p: Point3, q: Point3): (r: Point3)
    ensures NonNegative(r)
    ensures r == Origin <==> p == q
  {
    Point3(Geometry.Abs(p.x - q.x), Geometry.Abs(p.y - q.y), Geometry.Abs(p.z - q.z))
  }

  /** Componentwise sum, peeling off the last point. */
  function SumPoints(ps: seq<Point3>): Point3
  {
    if |ps| == 0 then Origin else Add(SumPoints(ps[..|ps| - 1]), ps[|ps| - 1])
  }

  // ---- Strings.

  /** string::find(c): the first position of c. */
  function Find(s: string, c: char): (r: Option<nat>)
    ensures r.None? <==> c !in s
    ensures r.Some? ==> r.value < |s| && s[r.value] == c && c !in s[..r.value]
  {
    if |s| == 0 then None
    else if s[0] == c then Some(0)
    else
      match Find(s[1..], c)
      case None => None
      case Some(i) =>
        assert s[1..][..i] == s[1..i + 1];
        Some(i + 1)
  }

  /** string::find_last_of(c): the last position of c. */
  function FindLast(s: string, c: char): (r: Option<nat>)
    ensures r.None? <==> c !in s
    ensures r.Some? ==> r.value < |s| && s[r.value] == c && c !in s[r.value + 1..]
  {
    if |s| == 0 then None
    else if s[|s| - 1] == c then Some(|s| - 1)
    else
      match FindLast(s[..|s| - 1], c)
      case None => None
      case Some(i) =>
        assert s[i + 1..] == s[..|s| - 1][i + 1..] + [s[|s| - 1]];
        Some(i)
  }

  const MovesFile: string := "//moves.txt"

  /** The ground-truth file of a video: the video's directory, cut at the
      last backslash or, when there is none, at the last slash, followed by
      "//moves.txt". None when the path has neither separator (the
      constructor raises CV_StsBadArg "Directory not found"). */
  function GroundTruthPath(path: string): (r: Option<string>)
    ensures r.None? <==> '\\' !in path && '/' !in path
    ensures r.Some? ==>
      var d := |r.value| - |MovesFile|;
      0 <= d < |path| && r.value == path[..d] + MovesFile &&
      ((path[d] == '\\' && '\\' !in path[d + 1..]) ||
       (path[d] == '/' && '\\' !in path && '/' !in path[d + 1..]))
  {
    match FindLast(path, '\\')
    case Some(pos) => Some(path[..pos] + MovesFile)
    case None =>
      match FindLast(path, '/')
      case Some(pos) => Some(path[..pos] + MovesFile)
      case None => None
  }

  /** std::stod, left abstract: any conversion of text to a number. */
  type Stod = string -> real

  /** A conversion of a double to int: truncation toward zero. */
  function Trunc(r: real): (n: int)
    ensures 0.0 <= r ==> 0 <= n && n as real <= r < n as real + 1.0
    ensures r < 0.0 ==> n <= 0 && n as real - 1.0 < r <= n as real
  {
    if r >= 0.0 then r.Floor else -((-r).Floor)
  }

  /** The point a record line describes: x is the text before the first
      comma; y the text after it, up to a second comma or the end; z the
      text after the second comma, or 0 when there is none or it is empty.
      None when the line holds no comma (the constructor then throws
      std::length_error from string::resize(npos)). */
  function Record(line: string, stod: Stod): Option<Point3>
  {
    match Find(line, ',')
    case None => None
    case Some(i) =>
      var rest := line[i + 1..];
      match Find(rest, ',')
      case None => Some(Point3(stod(line[..i]), stod(rest), 0.0))
      case Some(j) =>
        var zText := rest[j + 1..];
        Some(Point3(stod(line[..i]), stod(rest[..j]), if zText == [] then 0.0 else stod(zText)))
  }

  /** Parsing a record of two comma-free fields gives back the numbers
      written in them, with z = 0; a line without a comma is rejected. */
  lemma RecordOfTwoFields(xText: string, yText: string, stod: Stod)
    requires ',' !in xText && ',' !in yText
    ensures Record(xText, stod) == None
    ensures Record(xText + "," + yText, stod) == Some(Point3(stod(xText), stod(yText), 0.0))
  {
    var two := xText + "," + yText;
    FirstCommaAt(two, xText);
    assert two[..|xText|] == xText;
    assert two[|xText| + 1..] == yText;
  }

  /** Parsing a record of three fields, the first two comma-free, gives
      back the numbers written in them, with z = 0 for an empty third
      field. */
  lemma RecordOfThreeFields(xText: string, yText: string, zText: string, stod: Stod)
    requires ',' !in xText && ',' !in yText
    ensures Record(xText + "," + yText + "," + zText, stod) ==
            Some(Point3(stod(xText), stod(yText), if zText == [] then 0.0 else stod(zText)))
  {
    var rest := yText + "," + zText;
    var three := xText + "," + rest;
    assert three == xText + "," + yText + "," + zText;
    FirstCommaAt(three, xText);
    assert three[|xText| + 1..] == rest;
    FirstCommaAt(rest, yText);
    RecordSplit(three, |xText|, |yText|, stod);
  }

  /** Record on a line whose first two commas are known. */
  lemma RecordSplit(line: string, i: nat, j: nat, stod: Stod)
    requires Find(line, ',') == Some(i) && Find(line[i + 1..], ',') == Some(j)
    ensures Record(line, stod) ==
      var zText := line[i + 1..][j + 1..];
      Some(Point3(stod(line[..i]), stod(line[i + 1..][..j]), if zText == [] then 0.0 else stod(zText)))
  {
  }

  lemma {:induction false} FirstCommaAt(s: string, prefix: string)
    requires |prefix| < |s| && s[..|prefix|] == prefix && s[|prefix|] == ','
    requires ',' !in prefix
    ensures Find(s, ',') == Some(|prefix|)
  {
    if |prefix| > 0 {
      assert s[0] == prefix[0];
      assert s[1..][..|prefix| - 1] == prefix[1..];
      FirstCommaAt(s[1..], prefix[1..]);
    }
  }

  /** The lines after the first one, which are the records. */
  function RecordLines(lines: seq<string>): seq<string>
  {
    if |lines| == 0 then [] else lines[1..]
  }

  // ---- The evaluator.

  class Evaluator {
    var groundTruth: seq<Point3>
    var results: seq<Point3>
    var groundTruthSize: int
    var scale: int
    var avgError: Point3
    var lastError: Point3
    var status: bool
    /** The error of every evaluated frame, in order. */
    ghost var errors: seq<Point3>

    /** The size counter follows the ground truth, the status says whether
        any record was read, one error is kept per stored result, the
        accumulated error is their sum and the last error the last one. */
    ghost predicate Valid()
      reads this
    {
      groundTruthSize == |groundTruth| &&
      (status <==> |groundTruth| > 0) &&
      |errors| == |results| &&
      (forall k :: 0 <= k < |errors| ==> NonNegative(errors[k])) &&
      avgError == SumPoints(errors) &&
      lastError == (if |errors| == 0 then Origin else errors[|errors| - 1])
    }

    /** Evaluator(): no ground truth, no results, zero errors. */
    constructor Empty()
      ensures Valid()
      ensures groundTruth == [] && results == [] && scale == 0 && !status
      ensures avgError == Origin && lastError == Origin
    {
      groundTruth := [];
      results := [];
      groundTruthSize := 0;
      scale := 0;
      avgError := Origin;
      lastError := Origin;
      status := false;
      errors := [];
    }

    /** The reading loop of Evaluator(path) over the lines of the file: the
        first line is the scale, every later line a record. Returns the
        index of the first record line without a comma, where the source
        throws, or None when every record was read. */
    method ReadGroundTruth(lines: seq<string>, stod: Stod) returns (bad: Option<nat>)
      requires Valid() && groundTruth == []
      modifies this
      ensures Valid()
      ensures results == old(results) && errors == old(errors)
      ensures avgError == old(avgError) && lastError == old(lastError)
      ensures bad.None? <==> forall k :: 0 <= k < |RecordLines(lines)| ==> ',' in RecordLines(lines)[k]
      ensures bad.Some? ==> 1 <= bad.value < |lines| && ',' !in lines[bad.value] &&
                            forall k :: 1 <= k < bad.value ==> ',' in lines[k]
      ensures bad.None? ==> |groundTruth| == |RecordLines(lines)| &&
                            forall k :: 0 <= k < |groundTruth| ==> Record(RecordLines(lines)[k], stod) == Some(groundTruth[k])
      ensures bad.None? && |lines| > 0 ==> scale == Trunc(stod(lines[0]))
      ensures |lines| == 0 ==> scale == old(scale)
    {
      var first := true;
      var i := 0;
      while i < |lines|
        invariant 0 <= i <= |lines|
        invariant first <==> i == 0
        invariant Valid()
        invariant results == old(results) && errors == old(errors)
        invariant avgError == old(avgError) && lastError == old(lastError)
        invariant i > 0 ==> scale == Trunc(stod(lines[0]))
        invariant i == 0 ==> scale == old(scale)
        invariant |groundTruth| == if i == 0 then 0 else i - 1
        invariant forall k :: 1 <= k < i ==> ',' in lines[k]
        invariant forall k :: 0 <= k < |groundTruth| ==> Record(lines[k + 1], stod) == Some(groundTruth[k])
      {
        var line := lines[i];
        if first {
          scale := Trunc(stod(line));
          first := false;
        } else {
          var p := ParseRecord(line, stod);
          if p.None? {
            assert RecordLines(lines)[i - 1] == lines[i];
            return Some(i);
          }
          groundTruth := groundTruth + [p.value];
          groundTruthSize := groundTruthSize + 1;
          status := true;
        }
        i := i + 1;
      }
      return None;
    }

    /** evaluate(result, frameNum): for a frame with ground truth, store the
        result with x and z negated and record its error against the
        frame's ground-truth motion. Any other frame number is ignored. */
    method Evaluate(result: Point3, frameNum: int)
      requires Valid()
      modifies this
      ensures Valid()
      ensures groundTruth == old(groundTruth) && groundTruthSize == old(groundTruthSize)
      ensures status == old(status) && scale == old(scale)
      ensures !HasFrame(groundTruth, frameNum) ==>
        results == old(results) && lastError == old(lastError) && avgError == old(avgError)
      ensures HasFrame(groundTruth, frameNum) ==>
        results == old(results) + [Inverted(result)] &&
        lastError == FrameError(groundTruth, frameNum, result) &&
        avgError == Add(old(avgError), lastError)
    {
      if groundTruthSize == 0 || frameNum > groundTruthSize || frameNum < 1 {
        return;
      }
      var correction := Origin;
      if frameNum > 1 {
        correction := groundTruth[frameNum - 2];
      }
      var invResult := Point3(-result.x, result.y, -result.z);
      results := results + [invResult];
      var xErr := Geometry.Abs(invResult.x - (groundTruth[frameNum - 1].x - correction.x));
      var yErr := Geometry.Abs(invResult.y - (groundTruth[frameNum - 1].y - correction.y));
      var degErr := Geometry.Abs(invResult.z - (groundTruth[frameNum - 1].z - correction.z));
      lastError := Point3(xErr, yErr, degErr);
      assert lastError == FrameError(groundTruth, frameNum, result);
      avgError := Add(avgError, lastError);
      ghost var before := errors;
      errors := errors + [lastError];
      assert errors[..|errors| - 1] == before;
      assert SumPoints(errors) == Add(SumPoints(before), lastError);
    }

    /** getStatus(): whether any ground truth was read. */
    function Status(): (r: bool)
      reads this
      requires Valid()
      ensures r <==> |groundTruth| > 0
    {
      status
    }

    /** getLastError(): the error of the last evaluated frame, zero before
        the first one. */
    function LastError(): (r: Point3)
      reads this
      requires Valid()
      ensures NonNegative(r)
      ensures |results| == 0 ==> r == Origin
      ensures |results| > 0 ==> r == errors[|errors| - 1]
    {
      lastError
    }
  }

  /** The record-splitting statements of the reading loop, on one line:
      find the first comma and cut x before it, erase through it, then cut
      y at the next comma or take the rest, and read z from what remains. */
  method ParseRecord(line: string, stod: Stod) returns (r: Option<Point3>)
    ensures r == Record(line, stod)
    ensures r.None? <==> ',' !in line
  {
    var pos := Find(line, ',');
    if pos.None? {
      return None;
    }
    var xString := line[..pos.value];
    var xVal := stod(xString);
    var rest := line[pos.value + 1..];
    pos := Find(rest, ',');
    var yString := rest;
    if pos.Some? {
      yString := rest[..pos.value];
      rest := rest[pos.value + 1..];
    } else {
      rest := [];
    }
    var yVal := stod(yString);
    var zVal := 0.0;
    if rest != [] {
      zVal := stod(rest);
    }
    return Some(Point3(xVal, yVal, zVal));
  }

  /** Why Evaluator(path) throws. */
  datatype OpenError = DirectoryNotFound | RecordWithoutComma(line: nat)

  /** Evaluator(path): locate the ground-truth file, and when it can be
      opened read it. `files` gives the lines of a file, or None when it
      cannot be opened (the evaluator is then built without ground truth). */
  method Open(path: string, files: string -> Option<seq<string>>, stod: Stod)
    returns (r: Result<Evaluator, OpenError>)
    ensures GroundTruthPath(path).None? <==> r == Failure(DirectoryNotFound)
    ensures r.Failure? && r.error.RecordWithoutComma? ==>
      var lines := files(GroundTruthPath(path).value);
      lines.Some? && 1 <= r.error.line < |lines.value| && ',' !in lines.value[r.error.line]
    ensures r.Success? ==> fresh(r.value) && r.value.Valid()
    ensures r.Success? ==> r.value.results == [] && r.value.lastError == Origin && r.value.avgError == Origin
    ensures r.Success? ==>
      var lines := files(GroundTruthPath(path).value);
      (lines.None? ==> r.value.groundTruth == []) &&
      (lines.Some? ==>
        |r.value.groundTruth| == |RecordLines(lines.value)| &&
        forall k :: 0 <= k < |r.value.groundTruth| ==>
          Record(RecordLines(lines.value)[k], stod) == Some(r.value.groundTruth[k]))
    ensures r.Success? ==>
      var lines := files(GroundTruthPath(path).value);
      (lines.Some? && |lines.value| > 0 ==> r.value.scale == Trunc(stod(lines.value[0]))) &&
      (lines.None? || |lines.value| == 0 ==> r.value.scale == 0)
  {
    var groundPath := GroundTruthPath(path);
    if groundPath.None? {
      return Failure(DirectoryNotFound);
    }
    var e := new Evaluator.Empty();
    var file := files(groundPath.value);
    if file.Some? {
      var bad := e.ReadGroundTruth(file.value, stod);
      if bad.Some? {
        return Failure(RecordWithoutComma(bad.value));
      }
    }
    return Success(e);
  }

  // ---- What the evaluation measures.

  /** Frame n (1-based) has ground truth. */
  predicate HasFrame(groundTruth: seq<Point3>, n: int)
  {
    1 <= n <= |groundTruth|
  }

  /** The measured motion in the ground truth's axes: x and z negated. */
  function Inverted(p: Point3): Point3
  {
    Point3(-p.x, p.y, -p.z)
  }

  /** The ground-truth motion of frame n: its position minus that of the
      frame before, or its position itself for the first frame. */
  function Motion(groundTruth: seq<Point3>, n: int): Point3
    requires HasFrame(groundTruth, n)
  {
    Sub(groundTruth[n - 1], if n > 1 then groundTruth[n - 2] else Origin)
  }

  /** The error evaluate records for frame n. */
  function FrameError(groundTruth: seq<Point3>, n: int, result: Point3): Point3
    requires HasFrame(groundTruth, n)
  {
    AbsDiff(Inverted(result), Motion(groundTruth, n))
  }

  /** A frame's error is zero exactly when the inverted measurement is the
      ground-truth motion of that frame. */
  lemma FrameErrorZeroIff(groundTruth: seq<Point3>, n: int, result: Point3)
    requires HasFrame(groundTruth, n)
    ensures FrameError(groundTruth, n, result) == Origin <==> Inverted(result) == Motion(groundTruth, n)
    ensures NonNegative(FrameError(groundTruth, n, result))
  {
  }

  /** The motions of frames 1..n, in order. */
  function Motions(groundTruth: seq<Point3>, n: nat): (ms: seq<Point3>)
    requires n <= |groundTruth|
    ensures |ms| == n
  {
    seq(n, k requires 0 <= k < n => Motion(groundTruth, k + 1))
  }

  /** The per-frame motions add up to the position of the last frame, so
      results matching every frame's motion track the recorded path. */
  lemma {:induction false} MotionsTelescope(groundTruth: seq<Point3>, n: nat)
    requires 1 <= n <= |groundTruth|
    ensures SumPoints(Motions(groundTruth, n)) == groundTruth[n - 1]
  {
    var ms := Motions(groundTruth, n);
    if n == 1 {
      assert ms[..0] == [];
    } else {
      MotionsTelescope(groundTruth, n - 1);
      assert ms[..n - 1] == Motions(groundTruth, n - 1);
    }
  }

  /** With non-negative errors, the accumulated error bounds each one. */
  lemma {:induction false} SumBoundsEachTerm(es: seq<Point3>, k: nat)
    requires forall j :: 0 <= j < |es| ==> NonNegative(es[j])
    requires k < |es|
    ensures NonNegative(SumPoints(es))
    ensures es[k].x <= SumPoints(es).x && es[k].y <= SumPoints(es).y && es[k].z <= SumPoints(es).z
  {
    var pre := es[..|es| - 1];
    if k < |es| - 1 {
      SumBoundsEachTerm(pre, k);
    } else if |pre| > 0 {
      SumBoundsEachTerm(pre, 0);
    }
  }

  /** In a valid evaluator the accumulated error is at least the last one. */
  lemma AvgErrorBoundsLastError(e: Evaluator)
    requires e.Valid()
    ensures NonNegative(e.avgError)
    ensures e.lastError.x <= e.avgError.x && e.lastError.y <= e.avgError.y && e.lastError.z <= e.avgError.z
  {
    if |e.errors| > 0 {
      SumBoundsEachTerm(e.errors, |e.errors| - 1);
    }
  }
}
