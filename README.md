# Canvas point editor of mathAI, in Dafny

This project models the point editor of the mathAI drawing page
(`src/components/canvas.jsx`). The editor keeps two pieces of state:

- `points`, a JavaScript object used as an insertion-ordered map from a
  one-character label to canvas coordinates;
- `selectedPoint`, the label of the point being dragged, or `null`.

Four handlers change that state:

- press (`handleStart`) either grabs the first point within 20 pixels, or adds a
  new point labelled `String.fromCharCode(65 + count)`;
- move (`handleMove`) stores the pointer position under the selected label;
- release (`handleEnd`) drops the selection;
- the "Clear Lines" button (`handleClearLines`) empties the map.

The render effect then walks the keys in order. It draws the segments between
consecutive points, adds up their lengths in centimetres (20 pixels per
centimetre), and for every point but the first and the last computes the angle
with its two neighbours through `calculateAngle`.

Files:

- `wrappers.dfy`: `Option`.
- `points.dfy`, module `Points`:
  - the map as a sequence of `Entry(key, at)` in enumeration order;
  - `Lookup` and `Put`, which are JavaScript member read and member assignment;
  - label arithmetic: `LabelFor`, the 16-bit truncation of `String.fromCharCode`;
  - the proximity scan: `FirstNear` is the specification and `FindNear` is the
    loop.
- `editor.dfy`, module `Editor`:
  - the pure transitions `AfterPress`, `AfterMove`, `AfterRelease` and
    `AfterClear` on `State`;
  - the class `Canvas`, whose methods update its two fields in place and are
    proved equal to those transitions;
  - the lemmas about the transitions.
- `render.dfy`, module `Render`:
  - the segment list, the corner (angle-triple) list and the running total;
  - the loops `SegmentPass` and `AnglePass` that produce them;
  - the two factors of the cosine in `calculateAngle`.

Modelling choices:

- Labels are UTF-16 code units (`0 .. 0xFFFF`), because `String.fromCharCode`
  reduces its argument modulo 2^16. The label of the n-th new point is
  therefore `(65 + n) % 65536`.
- Coordinates are reals.
- The proximity test `Math.sqrt(dx² + dy²) < 20` is stated as `dx² + dy² < 400`,
  which is the same condition over the reals.
- Segment length (`Math.sqrt(...) / 20`) is a parameter `len` of the render
  functions. Where a lemma needs it, `IsCentimetres` characterises it as the
  non-negative number whose square is the squared distance over 400.
- Each handler is one atomic transition, applied to the state left by the
  previous one. This is an assumption of the model, not a guarantee of the
  source: see the stale-closure line under "## Left out".

Three behaviours of the code worth stating:

- Clearing does not reset the selection. `handleClearLines` only calls
  `setPoints({})`.
  - A point held while clearing therefore stays selected.
  - The next move re-inserts its label (`ClearBreaksSelectionValid`,
    `StaleMoveReinserts`, `StaleSelectionCollision`).
- There is no draw-mode flag and no closing segment from the last point back to
  the first.
- An angle is computed at the middle point of every run of three consecutive
  points, from the dot product. It is not a law-of-cosines step restricted to
  exactly three points.

## Model

| member | source | states |
|---|---|---|
| `Points.Labels` | src/components/canvas.jsx:111 | `Object.keys(points)`: one key per entry, the i-th key is the i-th entry's label |
| `Points.Lookup` | src/components/canvas.jsx:114-115 | `points[k]` is defined exactly when `k` is a key, and then it is a stored entry |
| `Points.LookupAt` | src/components/canvas.jsx:114-115 | with distinct keys, reading the i-th key yields the i-th coordinates |
| `Points.Put` | src/components/canvas.jsx:28-29 | `{...points}; o[k] = p`: a new key is appended last; an existing key keeps its place and the key order is unchanged; afterwards `k` maps to `p` and every other key maps to what it did before |
| `Points.PutKeepsKeys` | src/components/canvas.jsx:35-37 | assigning a key never removes another key |
| `Points.PutKeepsDistinct` | src/components/canvas.jsx:29 | assigning a key never makes a key appear twice |
| `Points.LabelFor` | src/components/canvas.jsx:28 | definition: the label of a point created while `count` points exist is the code unit `65 + count` reduced modulo 2^16, as `String.fromCharCode` does |
| `Points.SquaredDistance` | src/components/canvas.jsx:18 | definition: the square of the Euclidean distance between two points |
| `Points.Near` | src/components/canvas.jsx:18-21 | definition: within 20 pixels, stated as squared distance below 400 |
| `Points.FirstNear` | src/components/canvas.jsx:16-24 | the scan's answer: the first index in enumeration order whose point is within 20 pixels, and no earlier one is; or none when no point is within 20 pixels |
| `Points.FindNear` | src/components/canvas.jsx:16-24 | the early-exit loop over the map returns exactly the first point within reach, or none |
| `Points.LabelForInjective` | src/components/canvas.jsx:28 | below 2^16, different counts give different labels |
| `Points.NextLabelFresh` | src/components/canvas.jsx:28 | with keys 'A', 'B', ... in order and fewer than 2^16 points, the label computed from the count is not yet a key, and no key repeats |
| `Editor.AfterPress` | src/components/canvas.jsx:12-31 | definition of `handleStart`: select the key of the first point within 20 pixels; otherwise assign the press position to the label computed from the count |
| `Editor.AfterMove` | src/components/canvas.jsx:33-39 | definition of `handleMove`: with a selection, assign the position to the selected label; without one, no change |
| `Editor.AfterRelease` | src/components/canvas.jsx:41-43 | definition of `handleEnd`: the selection becomes none |
| `Editor.AfterClear` | src/components/canvas.jsx:78-80 | definition of `handleClearLines`: the map becomes empty, the selection is untouched |
| `Editor.Canvas.constructor` | src/components/canvas.jsx:6-7 | the editor starts with no points and no selection |
| `Editor.Canvas.Press` | src/components/canvas.jsx:12-31 | the press handler updates both fields exactly as the press transition prescribes |
| `Editor.Canvas.Move` | src/components/canvas.jsx:33-39 | the move handler updates both fields exactly as the move transition prescribes |
| `Editor.Canvas.Release` | src/components/canvas.jsx:41-43 | the release handler updates both fields exactly as the release transition prescribes |
| `Editor.Canvas.Clear` | src/components/canvas.jsx:78-80 | the clear button updates both fields exactly as the clear transition prescribes |
| `Editor.PressFarAppends` | src/components/canvas.jsx:16-30 | from keys 'A'..., a press at least 20 pixels from every point appends exactly one point keyed with the next label at the press position; the selection is unchanged; the keys stay 'A', 'B', ... |
| `Editor.PressNearSelects` | src/components/canvas.jsx:16-24 | a press within reach of a point adds nothing and selects the first such point in enumeration order |
| `Editor.PressCollisionOverwrites` | src/components/canvas.jsx:28-29 | when the label computed from the count is already a key, a far press overwrites that point: same count, same key order, new position |
| `Editor.PressAtCapacityOverwritesFirst` | src/components/canvas.jsx:28-29 | after 2^16 points the computed label wraps back to 'A' and a far press moves point A instead of adding one |
| `Editor.MoveSetsSelected` | src/components/canvas.jsx:33-39 | a move with a selection sets exactly that key, keeps the key order when the key exists, leaves every other point and the selection unchanged |
| `Editor.MoveUnselectedNoop` | src/components/canvas.jsx:33-39 | a move without a selection changes nothing |
| `Editor.ReleaseClearsSelection` | src/components/canvas.jsx:41-43 | a release drops the selection and keeps the points, from any state |
| `Editor.ClearEmpties` | src/components/canvas.jsx:78-80 | clear empties the map, keeps the selection, and is idempotent |
| `Editor.StepsKeepSelectionValid` | src/components/canvas.jsx:22 | press, move and release keep "the selection is none or an existing key" |
| `Editor.ClearBreaksSelectionValid` | src/components/canvas.jsx:78-80 | clear does not keep that invariant: a state where it holds, and the cleared state where it fails |
| `Editor.StepsKeepDistinct` | src/components/canvas.jsx:29 | no transition makes a key appear twice |
| `Editor.StepsKeepSequential` | src/components/canvas.jsx:28 | keys 'A', 'B', ... in order survive press (below 2^16 points), release, clear, and a move whose selected key exists |
| `Editor.StaleMoveReinserts` | src/components/canvas.jsx:36 | with a selection that is no longer a key, a move appends that label at the end |
| `Editor.StaleSelectionCollision` | src/components/canvas.jsx:28-29 | a run from the empty canvas: add A and B, grab B, clear, move; B returns alone and the keys are no longer 'A', 'B', ...; a far press then computes label B again and overwrites it, so the count stays at one |
| `Render.Segments` | src/components/canvas.jsx:113-115 | max(n-1, 0) segments, the i-th from the i-th to the (i+1)-th key |
| `Render.Corners` | src/components/canvas.jsx:144-147 | max(n-2, 0) triples, centred on every key but the first and the last, in order |
| `Render.TotalLength` | src/components/canvas.jsx:112-128 | definition: `totalLength`, the sum of `len` over the segments, starting from 0 |
| `Render.TotalLengthAppend` | src/components/canvas.jsx:128 | adding a segment at the end adds its length to the total |
| `Render.SegmentPass` | src/components/canvas.jsx:111-128 | the segment loop visits exactly the segments of the enumeration, and `totalLength` ends as the sum of their lengths |
| `Render.CornersAppend` | src/components/canvas.jsx:144-147 | a new last point adds exactly one triple, centred on the previous last point |
| `Render.AnglePass` | src/components/canvas.jsx:144-149 | the angle loop calls `calculateAngle` once per triple, in order, with that triple's points |
| `Render.Cosine` | src/components/canvas.jsx:169-177 | definition of the two factors of `cosTheta`: the dot product of A−B and C−B, and the product of their squared magnitudes (the square of `magnitude1 * magnitude2`) |
| `Render.CosineRange` | src/components/canvas.jsx:169-177 | for the dot product of A−B and C−B and the product of their squared magnitudes: the squared numerator never exceeds the squared denominator (the cosine lies in [-1, 1]), and the denominator is zero exactly when B coincides with A or C |
| `Render.SquaredDistanceZero` | src/components/canvas.jsx:124-127 | a squared distance is never negative, and is zero exactly when the points coincide |
| `Render.CosineSymmetric` | src/components/canvas.jsx:169-177 | swapping A and C changes neither the dot product nor the magnitude product, so angle(A, B, C) = angle(C, B, A) |
| `Render.TotalLengthZero` | src/components/canvas.jsx:111-128 | the total length is never negative, and it is zero exactly when every pair of consecutive points coincides |
| `Render.SegmentsAppend` | src/components/canvas.jsx:111-128 | a new last point adds exactly one segment, from the previous last point, and adds its length to the total |
| `Render.CentimetresZero` | src/components/canvas.jsx:124-127 | a segment measures 0 cm exactly when its end points coincide |
| `Render.FiveCentimetres` | src/components/canvas.jsx:124-127 | a segment whose end points are 100 pixels apart measures 5 cm |
| `Render.RightAngleExample` | src/components/canvas.jsx:111-177 | A(0,0), B(100,0), C(100,100): two 5 cm segments, total 10 cm, one triple centred on B, zero dot product with non-zero magnitudes (a right angle) |

## Left out

- DOM listener registration and removal, the React `useEffect`/`useState`
  scheduling, and the `getBoundingClientRect` conversion from client to canvas
  coordinates (canvas.jsx:9-11, 45-76). Each handler is one atomic transition
  on the latest state. Its coordinates are given directly.
- The stale-closure window. The listeners are re-registered by an effect
  (canvas.jsx:9-76) that runs only after React commits a state update. An event
  that arrives between a `setPoints` and that effect runs with the previous
  `points` and `selectedPoint`. For example, a press right after a move scans the
  positions before the move, and its `setPoints` discards the move. The model
  applies each handler to the state left by the previous one, so it does not
  capture lost updates of this kind.
- All 2D drawing: the grid, the dots, the labels, the arcs, colours and text
  placement. These are side effects with no result to check.
- Floating point:
  - the model computes over exact reals;
  - `Math.sqrt` is kept out of the proximity test by squaring both sides;
  - segment length is the parameter `len`;
  - `Math.acos`, `Math.atan2` and `toFixed` are not modelled;
  - `Cosine` returns the numerator and the square of the denominator of
    `cosTheta`; the NaN of the source appears as the zero denominator that
    `CosineRange` characterises.
- JavaScript's key order for integer-like keys. The engine enumerates keys such
  as "0".."9" before all others. Such labels arise only after 65,519 points, when
  the code units wrap past 0xFFFF. The model keeps plain insertion order for
  every key.
- The JSX layout, the button markup, and `src/components/instructions.jsx`:
  static content without state.
