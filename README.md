# Pose tracking keypoint logic, modelled in Dafny

This project models the per-frame keypoint logic of the Unity pose-detection scripts
`PoseDetection` and `DrawSkeleton`. Each frame:

1. **Decode.** `LocateKeyPoint` takes each of the 17 heatmap channels. It scans rows `y`, then
   columns `x`, for the largest value. The running maximum starts at 0 and is replaced only on
   a strictly greater value. `ProcessResults` maps the winning cell to texture coordinates. It
   uses `stride = imageHeight / heatmapHeight`, an integer division.
2. **Gate.** `UpdateKeyPointPositions` makes keypoint `k` active iff its confidence reaches
   `minConfidence / 100`. It always moves the keypoint to the decoded position.
3. **Fill.** `FillAndUpdatePrevPos` keeps two per-joint entries, `prevPos[k]` and
   `prevVelocity[k]`. Each is null or an `{x, y, flag}` triple. An unconfident joint is shown
   again if its stored position was confident.
4. **Render.** `DrawSkeleton` holds a fixed table of 18 bones. In `LateUpdate` it shows a
   bone's line iff both of its keypoints are active. A shown line takes the two keypoint
   positions.

Files:
- `types.dfy` (module `PoseTypes`): shared values.
- `heatmap.dfy` (module `HeatmapDecode`): the argmax specification, C#'s truncating integer
  division and the texture mapping.
- `tracking.dfy` (module `JointTracking`): gate and fill for one joint as pure functions, and
  what they do over a run of frames.
- `detection.dfy` (module `Detection`): the `LocateKeyPoint` scan and the `PoseDetection` class
  with its arrays.
- `skeleton.dfy` (module `Skeleton`): the bone table and the `DrawSkeleton` class.
- `frame.dfy` (module `FrameLoop`): `Update` followed by `LateUpdate`.

The class methods are loops over arrays. Each one is proved against the pure functions of
`HeatmapDecode` and `JointTracking`. The lemmas about those functions state what the source
promises.

Behaviour of the code worth knowing:
- **Held position, no extrapolation.** The comment above `FillAndUpdatePrevPos`
  (`PoseDetection.cs:290-291`) says a missed joint is placed at `prevPos + prevVelocity`. In
  the code the test at `PoseDetection.cs:302` is inverted. `prevPos[k]` and `prevVelocity[k]`
  are always assigned together, so the velocity branch (lines 306-311) cannot be reached. The
  joint is therefore shown at the held `prevPos`. The model keeps the branch and proves it
  unreachable. It is an `assert false` under the class invariant `Valid()`, which keeps the
  two entries null together, and under `JointTracking.Fill`'s precondition `Paired`. Given that
  invariant, `JointTracking.VelocityNeverRead` shows that the stored velocity's value never
  affects anything.
- **Velocity after a miss.** When a joint is seen after a miss, the velocity is not zero. The
  code records `observation - (0, 0)`, because the miss already wrote the `{0, 0, -1}`
  placeholder into `prevPos`. `JointTracking.ThreeFrameExample` shows this.
- **No validation.** The code does not clamp confidences. It does not check the channel count
  (no shape-mismatch error). It does not validate the configuration. The model adds none of
  these.

## Model

| member | source | states |
|---|---|---|
| `Detection.LocateKeyPoint` | Assets/Scripts/Runtime/PoseDetection.cs:216-234 | The returned confidence is at least 0 and at least every cell of channel `i`. The coordinates lie in the grid, or are `(0, 0)` with confidence 0 when no cell exceeds 0. The cell is the first in row-major order (y outer, x inner) attaining the maximum (`IsPeak`). |
| `HeatmapDecode.PeakUnique` | Assets/Scripts/Runtime/PoseDetection.cs:219-231 | Two results satisfying `IsPeak` for the same channel are equal. The decoding is deterministic, and the strict `>` fixes the tie-break. |
| `HeatmapDecode.CsDiv` | Assets/Scripts/Runtime/PoseDetection.cs:198 | `int / int` truncates toward zero: `abs(q)·abs(b) <= abs(a) < (abs(q)+1)·abs(b)`, and the sign of `q` follows the operands. For non-negative operands it agrees with Euclidean division. |
| `HeatmapDecode.ToTextureRange` | Assets/Scripts/Runtime/PoseDetection.cs:198-210 | For a positive input size, `0 < imageHeight - y·stride <= imageHeight` for every heatmap row. So `yPos` lies in `(0, texHeight]`. |
| `HeatmapDecode.DecodeExample` | Assets/Scripts/Runtime/PoseDetection.cs:196-214 | 16×16 heatmap, strict peak at (8, 4), 352×352 input, 704×704 texture: the stored observation is `(352, 528)` with the peak's confidence. |
| `Detection.PoseDetection.ProcessResults` | Assets/Scripts/Runtime/PoseDetection.cs:196-214 | For every joint `k < 17`, `keypointLocations[k]` is the peak of channel `k`, mapped with `stride = imageHeight / heatmapHeight` and the texture/input scale factors (`DecodedAs`). |
| `Detection.PoseDetection.UpdateKeyPointPositions` | Assets/Scripts/Runtime/PoseDetection.cs:271-288 | Keypoint `k` is active iff `conf_k >= minConfidence/100`. Its position is the decoded one whether or not it is active. Keypoints past 17 are unchanged. |
| `JointTracking.Fill` | Assets/Scripts/Runtime/PoseDetection.cs:292-334 | On a paired history (both entries null or both set), after any frame both stored entries are non-null. A fill only happens for an unconfident joint with a stored position, and it is at that position's `(x, y)`. The velocity test of line 302 is in the body, and its other branch is proved unreachable. |
| `Detection.PoseDetection.FillAndUpdatePrevPos` | Assets/Scripts/Runtime/PoseDetection.cs:292-334 | Preserves `Valid()`: `prevPos[k]` is null iff `prevVelocity[k]` is null. So the velocity branch is unreachable. Each joint's new entries and display are `Fill` of its old entries. A joint that is not filled keeps its active flag and position. |
| `Detection.PoseDetection.Update` | Assets/Scripts/Runtime/PoseDetection.cs:115-118 | Decode, then gate, then fill. Each joint's new entries and display are `Step` (gate then fill) of its old entries and its decoded observation. |
| `Detection.PoseDetection.constructor` | Assets/Scripts/Runtime/PoseDetection.cs:39-61 | 17 decoded slots. `prevPos` and `prevVelocity` hold 17 null entries (cold). |
| `JointTracking.VelocityNeverRead` | Assets/Scripts/Runtime/PoseDetection.cs:299-316 | Two paired histories with the same `prevPos` and different `prevVelocity` give the same frame result. |
| `JointTracking.ConfidentShownAtObservation` | Assets/Scripts/Runtime/PoseDetection.cs:318-332 | On a confident frame the joint is shown at its observation, and `prevPos` becomes the observation. `prevVelocity` becomes `(obs - prevPos, 1)` when `prevPos` was non-null (the placeholder included), and `(0, 0, -1)` otherwise. |
| `JointTracking.ColdStartNoFill` | Assets/Scripts/Runtime/PoseDetection.cs:296-316 | From null entries, a frame shows the joint iff it is confident: nothing is filled on a cold start. |
| `JointTracking.SecondMissHidden` | Assets/Scripts/Runtime/PoseDetection.cs:296-316 | With a threshold above -1, the second of two consecutive unconfident frames hides the joint, whatever came before. |
| `JointTracking.AfterLastFrame` | Assets/Scripts/Runtime/PoseDetection.cs:294-333 | After `n > 0` frames, `prevPos` is the last observation if it was confident, and `(0, 0, -1)` otherwise. `prevVelocity` is the placeholder after a miss or the first frame. Otherwise it is the displacement from the previous stored position. |
| `JointTracking.ShownDependsOnLastTwoFrames` | Assets/Scripts/Runtime/PoseDetection.cs:271-334 | In a run started cold, frame `i` shows the joint iff frame `i` or frame `i-1` was confident. It is at frame `i`'s observation, unless only frame `i-1` was confident: then it is held at frame `i-1`'s observation. |
| `JointTracking.ThreeFrameExample` | Assets/Scripts/Runtime/PoseDetection.cs:271-334 | Threshold 70%, confidences 0.5, 0.9 at (100, 100), 0.5: hidden, then shown at (100, 100) twice. The velocity stored at the second frame is (100, 100, 1). |
| `Skeleton.BonesWellFormed` | Assets/Scripts/Runtime/DrawSkeleton.cs:17-87 | The table has `17 + 1 = 18` bones. Every index is in `[0, 17)` and no bone joins a keypoint to itself. |
| `Skeleton.BonesDistinct` | Assets/Scripts/Runtime/DrawSkeleton.cs:51-87 | No bone appears twice, in either direction. |
| `Skeleton.BoneGroups` | Assets/Scripts/Runtime/DrawSkeleton.cs:51-87 | Slots 0-3 join face keypoints and slots 4-9 join shoulders and hips, with diagonals 5–12 and 6–11 at slots 7 and 8. Slots 10-13 join arm keypoints and slots 14-17 join leg keypoints. |
| `Skeleton.EveryKeypointHasBone` | Assets/Scripts/Runtime/DrawSkeleton.cs:51-87 | Each of the 17 keypoints is an endpoint of some bone. |
| `Skeleton.ShoulderHipExample` | Assets/Scripts/Runtime/DrawSkeleton.cs:105-111 | With keypoints 5 and 6 active and 11 inactive, line (5, 6) is shown while (5, 11) and (6, 11) are hidden. |
| `Skeleton.DrawSkeleton.constructor` | Assets/Scripts/Runtime/DrawSkeleton.cs:15-24 | `numPairs = keypoints.Length + 1`, and slots 0-17 hold the bone table. Any further slot stays empty. The model's `RenderSkeleton` can be called iff there are exactly 17 keypoints (see "Left out" for what the source does with more). |
| `Skeleton.DrawSkeleton.InitializeLine` | Assets/Scripts/Runtime/DrawSkeleton.cs:37-38 | Only slot `pairIndex` of `jointPairs` changes, and it becomes `{startIndex, endIndex}`. |
| `Skeleton.DrawSkeleton.InitializeSkeleton` | Assets/Scripts/Runtime/DrawSkeleton.cs:51-87 | Slot `i < 18` holds bone `i` of the table. Other slots are unchanged. |
| `Skeleton.DrawSkeleton.RenderSkeleton` | Assets/Scripts/Runtime/DrawSkeleton.cs:89-113 | For every slot, the line is active iff both keypoints are active. When active, its positions are the two keypoint positions. When hidden, its positions are unchanged. |
| `FrameLoop.Tick` | Assets/Scripts/Runtime/DrawSkeleton.cs:32-34 | After `Update` and then `LateUpdate`: every observation is decoded as in `ProcessResults`, and each joint's new history and keypoint object are `Step` of its old history. Line `i` is shown iff both endpoints are shown by `Step` this frame. A shown line is at their positions, and a hidden line keeps its positions. |

## Left out

- Video, camera and quad setup in `Start` (`PoseDetection.cs:63-90`): scene plumbing.
- `PreprocessTexture`, `Resize`, `PreprocessNetwork`, `ScaleInputImage` and the `displayInput`
  branch: GPU and texture work. The model receives the heatmap as a value.
- Model loading and inference (`ModelLoader.Load`, `WorkerFactory`, `Execute`, `PeekOutput`):
  foreign calls. The heatmap tensor is a parameter with its batch dimension dropped. The
  texture dimensions are parameters too.
- `OnDisable`, `Dispose`, `Destroy` and `Release`: resource management.
- LineRenderer creation, materials, colours, widths and names in `InitializeLine`. The new
  line objects start active at the origin.
- Floating point. Confidences, coordinates and scale factors are `real`. `stride` keeps C#'s
  truncating integer division. A zero network input size would make a C# scale factor
  infinite; the model requires it to be non-zero instead.
- A heatmap of height 0 throws a division by zero in C#. `ProcessResults` requires a positive
  height, and at least 17 channels, because it reads channels 0-16.
- The constant `z = -1` of keypoint positions.
- `activeInHierarchy` is modelled as the keypoint's own active flag. Parent objects are not
  modelled.
- The initial active flags and positions of the keypoint objects, which are set in the scene.
  The model starts them inactive at the origin.
- `keypointLocations` entries start null in C#. The model starts them at zero. `Update` always
  writes them before reading them.
- `prevPos[k] = keypointLocations[k]` shares a `float[]` in C#. The model stores the value.
  The shared array is replaced each frame and never mutated, so nothing observable differs.
- `minConfidence` is a percentage limited to 0-100 by an inspector attribute. The model allows
  any integer. `SecondMissHidden` and `ShownDependsOnLastTwoFrames` assume a threshold above -1,
  which that range guarantees.
- Fewer than 17 keypoints. Both constructors require at least 17. With fewer, the source's
  `UpdateKeyPointPositions` throws IndexOutOfRange at `PoseDetection.cs:277`/`282` every frame.
  It does so after updating joints `0..n-1` and before `FillAndUpdatePrevPos` runs.
  `DrawSkeleton.Start` also throws, at `DrawSkeleton.cs:38-39`. The model does not capture
  those partial updates.
- More than 17 keypoints in `DrawSkeleton`. The source's `RenderSkeleton` updates lines 0-17
  and then throws NullReferenceException at `DrawSkeleton.cs:92` on slot 18. The model forbids
  that call through `Renderable()`, so the partial rendering is not modelled.
- Shared keypoint objects. `FrameLoop.Tick` assumes that `PoseDetection.keypoints`
  (`PoseDetection.cs:55`) and `DrawSkeleton.keypoints` (`DrawSkeleton.cs:8`) hold the same
  objects in the same order. In the source they are two arrays that the scene sets separately.
- A changing threshold. `After`, `AfterLastFrame` and `ShownDependsOnLastTwoFrames` keep the
  threshold fixed for the whole run. The source's `minConfidence` is a public field
  (`PoseDetection.cs:58`) that can change between frames. The class methods read the current
  value on each call.
- Skeleton.DrawSkeleton.InitializeSkeleton: states the final contents of the slots, not that
  each slot is written exactly once. The 18 calls use 18 distinct slot indices.
