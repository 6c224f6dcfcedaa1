/**
 * The decision logic of the video screen: which camera to open, which
 * preview size to ask it for, and how the two are combined when the screen
 * configures its camera. The camera platform (enumeration, opening,
 * parameters) is reduced to the values it reports.
 */
module VideoActivity {
  import opened JavaInt

  // ---------------------------------------------------------------------
  // Preview sizes and their distance to a target
  // ---------------------------------------------------------------------

  /** A supported preview size, `(width, height)`, as the camera reports it. */
  type Size = (Int32, Int32)

  /** The preview size the screen asks for. */
  const TargetWidth: Int32 := 320
  const TargetHeight: Int32 := 240

  function Abs(x: int): nat { if x < 0 then -x else x }

  /**
   * `x * x`, built up as a sum of odd numbers so that reasoning about scores
   * stays within linear arithmetic; `SquareIsProduct` shows it is `x * x`.
   */
  function Square(x: int): (r: nat)
    ensures r == 0 <==> x == 0
    decreases Abs(x)
  {
    if x == 0 then 0
    else if x > 0 then Square(x - 1) + 2 * x - 1
    else Square(x + 1) - 2 * x - 1
  }

  lemma {:induction false} SquareIsProduct(x: int)
    ensures Square(x) == x * x
    decreases Abs(x)
  {
    if x > 0 {
      SquareIsProduct(x - 1);
      assert x * x == (x - 1) * (x - 1) + 2 * x - 1;
    } else if x < 0 {
      SquareIsProduct(x + 1);
      assert x * x == (x + 1) * (x + 1) - 2 * x - 1;
    }
  }

  /** Squared Euclidean distance from `s` to the target, over unbounded integers. */
  function Score(s: Size, width: int, height: int): (r: nat)
    ensures r == 0 <==> s.0 == width && s.1 == height
  {
    Square(s.0 - width) + Square(s.1 - height)
  }

  /**
   * The score `closest` computes, `dx*dx + dy*dy` in Java `int` arithmetic,
   * every operation wrapping. It may overflow, but it never reaches the
   * sentinel `Integer.MAX_VALUE` (see `JavaScoreWrapped` and `ScoreNotIntMax`).
   */
  function JavaScore(s: Size, width: Int32, height: Int32): (r: Int32)
    ensures r < IntMax
  {
    ScoreWrapped(s, width, height);
    ScoreNotIntMax(s, width, height);
    CongruentModFour(Wrap(Score(s, width, height)), Score(s, width, height));
    Add(Wrap(Square(Sub(s.0, width))), Wrap(Square(Sub(s.1, height))))
  }

  /** Java's score is the true squared distance, wrapped once. */
  lemma {:induction false} JavaScoreWrapped(s: Size, width: Int32, height: Int32)
    ensures JavaScore(s, width, height) == Wrap(Score(s, width, height))
  {
    ScoreWrapped(s, width, height);
  }

  /** Wrapping after every operation of `dx*dx + dy*dy` is wrapping once at the end. */
  lemma {:induction false} ScoreWrapped(s: Size, width: Int32, height: Int32)
    ensures Add(Wrap(Square(Sub(s.0, width))), Wrap(Square(Sub(s.1, height))))
            == Wrap(Score(s, width, height))
  {
    var dx, dy := s.0 - width, s.1 - height;
    calc {
      Add(Wrap(Square(Sub(s.0, width))), Wrap(Square(Sub(s.1, height))));
      { SquareWrapped(s.0, width); }
      Add(Wrap(Square(dx)), Wrap(Square(Sub(s.1, height))));
      { SquareWrapped(s.1, height); }
      Add(Wrap(Square(dx)), Wrap(Square(dy)));
      { AddWrapped(Square(dx), Square(dy)); }
      Wrap(Square(dx) + Square(dy));
      Wrap(Score(s, width, height));
    }
  }

  /** Java's `dx*dx`, with `dx = a - b` wrapped, is the wrapped exact square. */
  lemma {:induction false} SquareWrapped(a: Int32, b: Int32)
    ensures Wrap(Square(Sub(a, b))) == Wrap(Square(a - b))
  {
    var x, w := a - b, Sub(a, b);
    assert (Square(w) - Square(x)) % Modulus == 0 by {
      SquareIsProduct(w);
      SquareIsProduct(x);
      ProductCongruent(x, w);
    }
    WrapCongruent(Square(w), Square(x));
  }

  /** Numbers congruent modulo 2^32 have squares congruent modulo 2^32. */
  lemma ProductCongruent(x: int, w: int)
    requires (w - x) % Modulus == 0
    ensures (w * w - x * x) % Modulus == 0
  {
    var q := (w - x) / Modulus;
    assert w == x + Modulus * q;
    ShiftedSquare(x, Modulus, q);
    assert w * w - x * x == Modulus * (2 * x * q + Modulus * q * q);
  }

  /** `(x + c*q)^2 = x^2 + c*(2*x*q + c*q*q)`. */
  lemma ShiftedSquare(x: int, c: int, q: int)
    ensures (x + c * q) * (x + c * q) == x * x + c * (2 * x * q + c * q * q)
  {
  }

  /** The scores of all candidates, in order, as `closest` computes them. */
  function JavaScores(sizes: seq<Size>, width: Int32, height: Int32): seq<int> {
    seq(|sizes|, i requires 0 <= i < |sizes| => JavaScore(sizes[i], width, height))
  }

  /** The scores of all candidates, in order, over unbounded integers. */
  function Scores(sizes: seq<Size>, width: int, height: int): seq<int> {
    seq(|sizes|, i requires 0 <= i < |sizes| => Score(sizes[i], width, height))
  }

  /** No candidate's true score exceeds `Integer.MAX_VALUE`. */
  predicate ScoresFit(sizes: seq<Size>, width: int, height: int) {
    forall i :: 0 <= i < |sizes| ==> Score(sizes[i], width, height) <= IntMax
  }

  /** `k` is the first index at which `scores` takes its minimum. */
  predicate IsFirstMin(scores: seq<int>, k: int) {
    && 0 <= k < |scores|
    && (forall j :: 0 <= j < |scores| ==> scores[k] <= scores[j])
    && (forall j :: 0 <= j < k ==> scores[k] < scores[j])
  }

  /** `k` is the index of the first candidate nearest to the target. */
  predicate IsClosest(sizes: seq<Size>, width: int, height: int, k: int) {
    IsFirstMin(Scores(sizes, width, height), k)
  }

  /** A square is 0 or 1 modulo 4. */
  lemma SquareMod4(x: int)
    ensures x * x % 4 == 0 || x * x % 4 == 1
  {
    var q, b := x / 2, x % 2;
    assert x == 2 * q + b;
    assert x * x == 4 * (q * q + q * b) + b * b;
  }

  /**
   * No true score equals the sentinel `Integer.MAX_VALUE`: 2^31 - 1 is 3
   * modulo 4, and a sum of two squares never is.
   */
  lemma {:induction false} ScoreNotIntMax(s: Size, width: int, height: int)
    ensures Score(s, width, height) % 4 != 3
    ensures Score(s, width, height) != IntMax
  {
    var dx, dy := s.0 - width, s.1 - height;
    SquareIsProduct(dx);
    SquareIsProduct(dy);
    SquareMod4(dx);
    SquareMod4(dy);
    NotThreeModFour(Square(dx), Square(dy));
  }

  /** Two numbers that are each 0 or 1 modulo 4 add up to a number that is not 3 modulo 4. */
  lemma NotThreeModFour(a: int, b: int)
    requires a % 4 == 0 || a % 4 == 1
    requires b % 4 == 0 || b % 4 == 1
    ensures (a + b) % 4 != 3
  {
  }

  /** Numbers congruent modulo 2^32 are congruent modulo 4. */
  lemma CongruentModFour(r: int, t: int)
    requires (r - t) % Modulus == 0
    ensures r % 4 == t % 4
  {
    var q := (r - t) / Modulus;
    assert r == t + 4 * (0x4000_0000 * q);
  }

  /** A number at most `bound` in magnitude has a square at most `bound * bound`. */
  lemma SquareBelow(x: int, bound: int)
    requires 0 <= bound && -bound <= x <= bound
    ensures x * x <= bound * bound
  {
  }

  /**
   * When the true score fits in an `int`, Java's wrapping arithmetic computes
   * it exactly.
   */
  lemma {:induction false} JavaScoreExact(s: Size, width: Int32, height: Int32)
    requires Score(s, width, height) <= IntMax
    ensures JavaScore(s, width, height) == Score(s, width, height)
  {
    JavaScoreWrapped(s, width, height);
  }

  /**
   * When every score fits, Java's scores are the true ones, and none of them
   * reaches the sentinel `Integer.MAX_VALUE`.
   */
  lemma {:induction false} FitScoresAgree(sizes: seq<Size>, width: Int32, height: Int32)
    requires ScoresFit(sizes, width, height)
    ensures JavaScores(sizes, width, height) == Scores(sizes, width, height)
    ensures forall i :: 0 <= i < |sizes| ==> JavaScore(sizes[i], width, height) < IntMax
  {
    forall i | 0 <= i < |sizes|
      ensures JavaScore(sizes[i], width, height) == Score(sizes[i], width, height) < IntMax
    {
      JavaScoreExact(sizes[i], width, height);
      ScoreNotIntMax(sizes[i], width, height);
    }
  }

  /**
   * Realistic preview sizes fit: when every dimension and the target lie in
   * [0, 32767], no score overflows.
   */
  lemma {:induction false} SmallDimensionsFit(sizes: seq<Size>, width: int, height: int)
    requires forall i :: 0 <= i < |sizes| ==> 0 <= sizes[i].0 <= 0x7fff && 0 <= sizes[i].1 <= 0x7fff
    requires 0 <= width <= 0x7fff && 0 <= height <= 0x7fff
    ensures ScoresFit(sizes, width, height)
  {
    forall i | 0 <= i < |sizes| ensures Score(sizes[i], width, height) <= IntMax {
      var dx, dy := sizes[i].0 - width, sizes[i].1 - height;
      SquareIsProduct(dx);
      SquareIsProduct(dy);
      SquareBelow(dx, 0x7fff);
      SquareBelow(dy, 0x7fff);
    }
  }

  /** The first minimum is unique: `IsFirstMin` determines the index. */
  lemma FirstMinUnique(scores: seq<int>, k1: int, k2: int)
    requires IsFirstMin(scores, k1) && IsFirstMin(scores, k2)
    ensures k1 == k2
  {
    var a, b := scores[k1], scores[k2];
    assert k1 < k2 ==> b < a;
    assert k2 < k1 ==> a < b;
  }

  /**
   * When some candidate is exactly the target, the nearest candidate is the
   * first one that is.
   */
  lemma {:induction false} ClosestExactMatch(sizes: seq<Size>, width: int, height: int, k: int, i: int)
    requires IsClosest(sizes, width, height, k)
    requires 0 <= i < |sizes| && sizes[i] == (width, height)
    ensures Score(sizes[k], width, height) == 0
    ensures sizes[k] == (width, height) && k <= i
    ensures forall j :: 0 <= j < k ==> sizes[j] != (width, height)
  {
    var scores := Scores(sizes, width, height);
    assert scores[i] == 0;
    assert scores[k] <= scores[i];
    forall j | 0 <= j < k ensures sizes[j] != (width, height) {
      assert scores[k] < scores[j];
    }
  }

  /**
   * `closest(sizes, width, height)`: the index of the first candidate of
   * least score, scanning left to right with a strict `<` against the best
   * so far, which starts at the sentinel `Integer.MAX_VALUE`. Scores use
   * Java's `int` arithmetic; none equals the sentinel, so `-1` comes back
   * for the empty list only.
   */
  method Closest(sizes: seq<Size>, width: Int32, height: Int32) returns (best: int)
    ensures best == -1 <==> sizes == []
    // As written, over Java's scores.
    ensures sizes != [] ==> IsFirstMin(JavaScores(sizes, width, height), best)
    // When no score overflows, over the true squared distances.
    ensures ScoresFit(sizes, width, height) && sizes != [] ==> IsClosest(sizes, width, height, best)
  {
    ghost var scores := JavaScores(sizes, width, height);
    best := -1;
    var bestScore: int := IntMax;
    for i := 0 to |sizes|
      invariant best == -1 <==> i == 0
      invariant i == 0 ==> bestScore == IntMax
      invariant i > 0 ==> 0 <= best < i && bestScore == scores[best]
      invariant forall j :: 0 <= j < i ==> bestScore <= scores[j]
      invariant forall j :: 0 <= j < best ==> bestScore < scores[j]
    {
      var score := JavaScore(sizes[i], width, height);
      assert score == scores[i];
      if score < bestScore {
        best := i;
        bestScore := score;
      }
    }
    if ScoresFit(sizes, width, height) && sizes != [] {
      FitClosest(sizes, width, height, best);
    }
  }

  /**
   * When every score fits, what `closest` promises over Java's scores is
   * what it promises over the true squared distances.
   */
  lemma {:induction false} FitClosest(sizes: seq<Size>, width: Int32, height: Int32, best: int)
    requires ScoresFit(sizes, width, height)
    requires IsFirstMin(JavaScores(sizes, width, height), best)
    ensures IsClosest(sizes, width, height, best)
  {
    FitScoresAgree(sizes, width, height);
  }

  // ---------------------------------------------------------------------
  // Camera selection
  // ---------------------------------------------------------------------

  /** The facing attribute the platform reports for a camera. */
  datatype Facing = Back | Front

  /** Index of the first back-facing camera, or `-1` when there is none. */
  function FirstBack(facings: seq<Facing>): (r: int)
    ensures r == -1 <==> Back !in facings
    ensures r != -1 ==> 0 <= r < |facings| && facings[r] == Back
    ensures forall j :: 0 <= j < r ==> facings[j] == Front
  {
    if facings == [] then -1
    else if facings[0] == Back then 0
    else
      var k := FirstBack(facings[1..]);
      if k == -1 then -1 else k + 1
  }

  /**
   * The camera-selection policy: the first back-facing camera; failing
   * that, the last camera; `-1` when there is no camera at all.
   */
  function SelectedCamera(facings: seq<Facing>): (r: int)
    ensures r == -1 <==> facings == []
    ensures -1 <= r < |facings|
    ensures Back in facings ==> facings[r] == Back && forall j :: 0 <= j < r ==> facings[j] == Front
    ensures facings != [] && Back !in facings ==> r == |facings| - 1
  {
    var b := FirstBack(facings);
    if b != -1 then b else |facings| - 1
  }

  /**
   * The selection loop of `selectAndOpenCamera`: examine the cameras in
   * order, remember each as `selected`, stop at the first back-facing one.
   * `info` is the camera descriptor the caller passes in; each examined
   * camera's facing is written into it, so on return it describes the
   * selected camera.
   */
  method SelectCamera(facings: seq<Facing>, info: Facing) returns (selected: int, infoAfter: Facing)
    ensures selected == SelectedCamera(facings)
    ensures selected == -1 <==> facings == []
    ensures -1 <= selected < |facings|
    ensures Back in facings ==> facings[selected] == Back && forall j :: 0 <= j < selected ==> facings[j] == Front
    ensures facings != [] && Back !in facings ==> selected == |facings| - 1
    ensures infoAfter == if facings == [] then info else facings[selected]
  {
    selected, infoAfter := -1, info;
    for i := 0 to |facings|
      invariant selected == i - 1
      invariant forall j :: 0 <= j < i ==> facings[j] == Front
      invariant infoAfter == if i == 0 then info else facings[i - 1]
    {
      infoAfter := facings[i];
      if infoAfter == Back {
        selected := i;
        break;
      } else {
        selected := i;
      }
    }
  }

  // ---------------------------------------------------------------------
  // Opening and configuring the camera
  // ---------------------------------------------------------------------

  /** What `selectAndOpenCamera` does: open camera `cameraId`, or show the no-camera dialog. */
  datatype CameraChoice = Open(cameraId: nat) | NoCameraDialog

  /** `selectAndOpenCamera`, without the camera object that `Camera.open` returns. */
  method SelectAndOpenCamera(facings: seq<Facing>, info: Facing) returns (c: CameraChoice, infoAfter: Facing)
    ensures c == NoCameraDialog <==> facings == []
    ensures c.Open? ==> c.cameraId == SelectedCamera(facings) && c.cameraId < |facings|
    ensures infoAfter == if c.Open? then facings[c.cameraId] else info
  {
    var selected;
    selected, infoAfter := SelectCamera(facings, info);
    if selected == -1 {
      c := NoCameraDialog;
    } else {
      c := Open(selected);
    }
  }

  /** How configuring the camera ends. */
  datatype Configuration =
    | Configured(cameraId: nat, preview: Size)
      /** The no-camera dialog is shown and configuration stops there. */
    | NoCamera
      /** `getParameters()` is called on the `null` that stands for "no camera". */
    | NullCameraDereference
      /** `sizes.get(-1)`: the camera reports no preview sizes. */
    | PreviewIndexOutOfBounds(index: int)

  /**
   * The preview-size step of `openConfigureCamera` for the opened camera
   * `cameraId`: look up, in the sizes it supports, the one `closest` picks
   * for 320x240.
   */
  method ConfigurePreview(cameraId: nat, sizes: seq<Size>) returns (r: Configuration)
    ensures r.Configured? || r == PreviewIndexOutOfBounds(-1)
    ensures r.Configured? <==> sizes != []
    ensures r.Configured? ==> r.cameraId == cameraId
    ensures r.Configured? ==>
      exists k :: IsFirstMin(JavaScores(sizes, TargetWidth, TargetHeight), k) && r.preview == sizes[k]
    ensures r.Configured? && ScoresFit(sizes, TargetWidth, TargetHeight) ==>
      exists k :: IsClosest(sizes, TargetWidth, TargetHeight, k) && r.preview == sizes[k]
  {
    var k := Closest(sizes, TargetWidth, TargetHeight);
    if k == -1 {
      r := PreviewIndexOutOfBounds(k);
    } else {
      r := Configured(cameraId, sizes[k]);
    }
  }

  /**
   * `openConfigureCamera` as written: after the no-camera dialog is shown,
   * `selectAndOpenCamera` returns `null` and the caller goes on to use it.
   * `sizes` is what the opened camera reports as its supported preview
   * sizes; `infoAfter` is the caller's camera descriptor on return.
   */
  method OpenConfigureCameraAsWritten(facings: seq<Facing>, info: Facing, sizes: seq<Size>)
    returns (r: Configuration, infoAfter: Facing)
    ensures facings == [] ==> r == NullCameraDereference && infoAfter == info
    ensures facings != [] ==> (r.Configured? <==> sizes != []) && (sizes == [] ==> r == PreviewIndexOutOfBounds(-1))
    ensures facings != [] ==> infoAfter == facings[SelectedCamera(facings)]
    ensures r.Configured? ==> r.cameraId == SelectedCamera(facings)
    ensures r.Configured? ==>
      exists k :: IsFirstMin(JavaScores(sizes, TargetWidth, TargetHeight), k) && r.preview == sizes[k]
  {
    var c;
    c, infoAfter := SelectAndOpenCamera(facings, info);
    if c.NoCameraDialog? {
      // The dialog does not block: control returns and `null` is dereferenced.
      r := NullCameraDereference;
    } else {
      r := ConfigurePreview(c.cameraId, sizes);
    }
  }

  /**
   * `openConfigureCamera` with the no-camera path ending at the dialog: a
   * camera is configured whenever one exists and reports a preview size,
   * with the size `closest` picks for 320x240.
   */
  method OpenConfigureCamera(facings: seq<Facing>, info: Facing, sizes: seq<Size>)
    returns (r: Configuration, infoAfter: Facing)
    ensures r != NullCameraDereference
    ensures r == NoCamera <==> facings == []
    ensures facings == [] ==> infoAfter == info
    ensures facings != [] ==> (r.Configured? <==> sizes != []) && (sizes == [] ==> r == PreviewIndexOutOfBounds(-1))
    ensures facings != [] ==> infoAfter == facings[SelectedCamera(facings)]
    ensures r.Configured? ==> r.cameraId == SelectedCamera(facings) && r.cameraId < |facings|
    ensures r.Configured? ==>
      exists k :: IsFirstMin(JavaScores(sizes, TargetWidth, TargetHeight), k) && r.preview == sizes[k]
    ensures r.Configured? && ScoresFit(sizes, TargetWidth, TargetHeight) ==>
      exists k :: IsClosest(sizes, TargetWidth, TargetHeight, k) && r.preview == sizes[k]
  {
    var c;
    c, infoAfter := SelectAndOpenCamera(facings, info);
    if c.NoCameraDialog? {
      r := NoCamera;
    } else {
      r := ConfigurePreview(c.cameraId, sizes);
    }
  }
}
