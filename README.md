# Camera and preview-size selection of the video screen

The video screen of this Android demonstration app (`VideoActivity`) hands
frame capture and display to an external video framework. Its own logic is
two linear scans and the code that joins them:

- **camera selection** (`selectAndOpenCamera`): go through the cameras in
  order and take the first back-facing one; with no back-facing camera take
  the last camera examined; with no camera at all show the "no cameras"
  dialog;
- **preview-size selection** (`closest`): among the supported preview sizes,
  return the index of the first one nearest to the target in squared
  Euclidean distance, or `-1` when the list is empty;
- **configuration** (`openConfigureCamera`): open the selected camera and
  set its preview size to the entry `closest` picks for 320x240.

The project has two modules:

- `JavaInt` (`java_int.dfy`): Java's 32-bit `int`, its bounds and the
  two's-complement wrap-around of its arithmetic.
- `VideoActivity` (`video_activity.dfy`): the three operations above.

`Closest` is a method with the source's loop. It computes each score with
Java's wrapping arithmetic (`JavaScore`) and starts from the sentinel
`Integer.MAX_VALUE`, as the code does. Its contract has two layers:

- Unconditionally, the result is `-1` exactly for the empty list. Otherwise
  it is the first index of least wrapped score.
- When every true score fits in an `int` (`ScoresFit`), it is the first
  index of least true squared distance (`IsClosest`).

Squares are written `Square(x)`, a sum of odd numbers, so that the proofs
about scores stay within linear arithmetic; `SquareIsProduct` shows that
`Square(x) == x * x`, so Java's `dx*dx` is `Wrap(Square(dx))`.

The unconditional `-1` clause rests on two facts:

- `JavaScoreWrapped`: wrapping after each of `-`, `*` and `+`, as Java does,
  gives the true squared distance wrapped once.
- `ScoreNotIntMax`: a sum of two squares is never 3 modulo 4, but
  2^31 - 1 is. Since 4 divides 2^32, wrapping keeps the value modulo 4.
  So even an overflowing score is never the sentinel, and the first size
  always beats it.

So `sizes.get(-1)` in `openConfigureCamera` happens only when the camera
reports no preview sizes.

`JavaScoreExact` shows that wrapping changes nothing when the score fits.
`SmallDimensionsFit` shows that sizes and targets in [0, 32767] always fit.
Larger dimensions can make a score overflow. It then wraps, possibly to a
negative `int`, so a distant size can win; the unconditional layer of the
contract describes that case too.

`SelectCamera` is a method with the source's `for` loop and `break`. It is
proved equal to the policy function `SelectedCamera`, whose contract states
the policy. `SelectedCamera` is built on the recursive reference `FirstBack`.

The camera platform is reduced to its inputs:

- `Camera.getNumberOfCameras` and `Camera.getCameraInfo` become the sequence
  `facings`.
- The descriptor that `getCameraInfo` overwrites becomes a facing value
  passed in and handed back (`infoAfter`). `openConfigureCamera` passes its
  own `cameraInfo` down, so on return it holds the selected camera's facing.
- `getSupportedPreviewSizes` becomes the sequence `sizes`.
- `Camera.open`, `setPreviewSize` and `setParameters` are not modelled; the
  result records the chosen camera index and preview size.

Two points where the code's behaviour is easy to misread:

- `closest` returns `-1` when the list is empty (the initial `best` at
  `VideoActivity.java:99` is returned unchanged at line 115).
  `openConfigureCamera` then calls `sizes.get(-1)`, which fails.
- With no camera, `selectAndOpenCamera` calls `dialogNoCamera` and then
  returns `null` (lines 71-73). The comment on line 73 says that `return`
  "won't ever be called". But `dialogNoCamera` ends with `alert.show()`
  (line 92), which returns at once; only the dialog's button calls
  `System.exit`. So `openConfigureCamera` goes on to call `getParameters()`
  on `null` (see Findings).

## Model

| member | source | states |
|---|---|---|
| `JavaInt.Wrap` | app/src/main/java/ulaval/ca/projet_robotique/VideoActivity.java:105-108 | Java `int` arithmetic: the result is in range, congruent to the exact value modulo 2^32, and equal to it when it is in range |
| `JavaInt.WrapCongruent` | app/src/main/java/ulaval/ca/projet_robotique/VideoActivity.java:105-108 | values congruent modulo 2^32 give the same Java `int` |
| `JavaInt.AddWrapped` | app/src/main/java/ulaval/ca/projet_robotique/VideoActivity.java:108 | Java's `+` on wrapped operands gives the wrapped exact sum |
| `VideoActivity.JavaScore` | app/src/main/java/ulaval/ca/projet_robotique/VideoActivity.java:105-108 | Java's wrapping `dx*dx + dy*dy` is always below the sentinel `Integer.MAX_VALUE`, even when it overflows |
| `VideoActivity.JavaScoreWrapped` | app/src/main/java/ulaval/ca/projet_robotique/VideoActivity.java:105-108 | Java's wrapping `dx*dx + dy*dy` is the true squared distance wrapped once to an `int` |
| `VideoActivity.ScoreWrapped` | app/src/main/java/ulaval/ca/projet_robotique/VideoActivity.java:105-108 | wrapping after each `-`, `*` and `+` equals wrapping the exact `dx*dx + dy*dy` once |
| `VideoActivity.SquareWrapped` | app/src/main/java/ulaval/ca/projet_robotique/VideoActivity.java:105-108 | Java's `dx*dx` on the wrapped difference `dx` is the exact square of the difference, wrapped |
| `VideoActivity.CongruentModFour` | app/src/main/java/ulaval/ca/projet_robotique/VideoActivity.java:100-109 | wrapping preserves the value modulo 4, since 4 divides 2^32 |
| `VideoActivity.SquareIsProduct` | app/src/main/java/ulaval/ca/projet_robotique/VideoActivity.java:108 | the square used for scores is the product `dx*dx` of the source |
| `VideoActivity.Score` | app/src/main/java/ulaval/ca/projet_robotique/VideoActivity.java:105-108 | the squared distance is never negative, and it is zero exactly when the size equals the target |
| `VideoActivity.JavaScoreExact` | app/src/main/java/ulaval/ca/projet_robotique/VideoActivity.java:105-108 | when the true squared distance is at most `Integer.MAX_VALUE`, the wrapping `dx*dx + dy*dy` equals it |
| `VideoActivity.ScoreNotIntMax` | app/src/main/java/ulaval/ca/projet_robotique/VideoActivity.java:100-109 | no true score is 3 modulo 4, so none equals the sentinel `Integer.MAX_VALUE` |
| `VideoActivity.FitScoresAgree` | app/src/main/java/ulaval/ca/projet_robotique/VideoActivity.java:100-112 | when all scores fit, the wrapped scores are the true ones and each is below the sentinel |
| `VideoActivity.SmallDimensionsFit` | app/src/main/java/ulaval/ca/projet_robotique/VideoActivity.java:105-108 | sizes and target with both dimensions in [0, 32767] never overflow the score |
| `VideoActivity.FirstMinUnique` | app/src/main/java/ulaval/ca/projet_robotique/VideoActivity.java:109-111 | the first-minimum property determines a single index |
| `VideoActivity.ClosestExactMatch` | app/src/main/java/ulaval/ca/projet_robotique/VideoActivity.java:105-112 | if some candidate equals the target, the chosen candidate has score 0, equals the target, and no earlier candidate does |
| `VideoActivity.Closest` | app/src/main/java/ulaval/ca/projet_robotique/VideoActivity.java:98-116 | `-1` exactly for an empty list, otherwise the first index of least wrapped score; when scores fit, the first index of least squared distance (ties to the lowest index); the loop invariant keeps `bestScore` as the minimum over the prefix and `best` as its first index |
| `VideoActivity.FitClosest` | app/src/main/java/ulaval/ca/projet_robotique/VideoActivity.java:99-115 | when all scores fit, the first index of least wrapped score is the first nearest candidate |
| `VideoActivity.FirstBack` | app/src/main/java/ulaval/ca/projet_robotique/VideoActivity.java:59-64 | `-1` exactly when no camera faces back; otherwise a back-facing index with only front-facing cameras before it |
| `VideoActivity.SelectedCamera` | app/src/main/java/ulaval/ca/projet_robotique/VideoActivity.java:57-69 | `-1` exactly when there are no cameras, otherwise an index in range; the first back-facing camera if any, else the last camera |
| `VideoActivity.SelectCamera` | app/src/main/java/ulaval/ca/projet_robotique/VideoActivity.java:54-69 | the loop with its early `break` selects what the policy `SelectedCamera` describes, and leaves in the descriptor the facing of the selected camera |
| `VideoActivity.SelectAndOpenCamera` | app/src/main/java/ulaval/ca/projet_robotique/VideoActivity.java:54-76 | the no-camera dialog exactly when there are no cameras; otherwise the selected camera is opened; the descriptor ends holding the opened camera's facing, and is untouched when there is no camera |
| `VideoActivity.ConfigurePreview` | app/src/main/java/ulaval/ca/projet_robotique/VideoActivity.java:38-42 | configured exactly when the camera reports a preview size, with the first size of least wrapped score, which is the first nearest one when scores fit; otherwise `sizes.get(-1)` fails |
| `VideoActivity.OpenConfigureCameraAsWritten` | app/src/main/java/ulaval/ca/projet_robotique/VideoActivity.java:33-46 | as written, with no cameras the `null` camera is dereferenced; with cameras the selected camera is configured with the first size of least wrapped score, or `sizes.get(-1)` fails exactly when it reports no sizes; the caller's descriptor ends holding the selected camera's facing |
| `VideoActivity.OpenConfigureCamera` | app/src/main/java/ulaval/ca/projet_robotique/VideoActivity.java:33-46 | with the no-camera path ending at the dialog: no null dereference; the no-camera outcome exactly when there are no cameras; otherwise configured exactly when sizes are reported, with the selected camera and the first size of least wrapped score (the first nearest one when scores fit), and `sizes.get(-1)` failing otherwise; the descriptor holds the selected camera's facing, or is untouched without cameras |

## Left out

- `onResume` and `setProcessing(new ShowGradient())`: lifecycle hookup into the external video framework; `ShowGradient` is not part of this model.
- `Camera.open`, `getParameters`, `setPreviewSize`, `setParameters`: foreign platform calls with no visible semantics; only the chosen index and size are recorded.
- The fields of `Camera.CameraInfo` other than `facing`: nothing in the core reads them.
- `dialogNoCamera` and `System.exit(0)`: user interface and process termination; only the outcome that triggers the dialog is modelled.
- `MainActivity`: loads a layout and starts the video screen on a button click, which is user interface glue.

## Findings

| source | as written | input that shows it | evidently intended | confidence | as-written member | corrected member |
|---|---|---|---|---|---|---|
| app/src/main/java/ulaval/ca/projet_robotique/VideoActivity.java:35-36 | with no cameras, `dialogNoCamera()` (lines 71-73) shows the dialog and returns; `selectAndOpenCamera` then returns `null` ("won't ever be called" is not so), and `openConfigureCamera` calls `getParameters()` on it | a device reporting zero cameras (`facings == []`) | configuration stops at the no-camera dialog without touching a camera | medium (relies on `AlertDialog.show` not blocking); not executed | `VideoActivity.OpenConfigureCameraAsWritten` | `VideoActivity.OpenConfigureCamera` |
