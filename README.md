# Hand-pose skeleton bake and multi-camera render, in Dafny

This project models the two scripts that turn an F-PHAB hand-pose recording
into a keyframed Blender animation and then render it. The model works over
abstract scene values, not over the Blender API.

- **`load_skeleton.py`**:
  - `load_fphab_skeleton` reads the skeleton file line by line. It skips blank lines and drops the timestamp. It converts every other field with `float()`, and a field that is not a number raises. A line with other than 63 values is skipped with a warning, and the rest becomes a frame of 21 `(x, y, z)` joints.
  - `world_to_cam` applies the camera extrinsic `CAM_EXTR`.
  - `cam_to_blender` converts millimetres to metres, maps the camera axes onto Blender's and widens the lateral axis by `SPREAD`.
  - `bake` loads the file and fails if the armature `Hand` is missing. Otherwise it:
    - clears the animation of the armature and of every marker named in `JOINT_TO_EMPTY`;
    - sets the scene range to `FRAME_OFFSET .. FRAME_OFFSET + N - 1`;
    - keys, for every frame, the transformed wrist on the armature and each present marker's transformed joint.
- **`render.py`**:
  - `get_cameras_by_prefix` keeps the file's objects (`bpy.data.objects`) that are cameras and whose name starts with the prefix. It sorts them by `cam_sort_key`, which parses names such as `Cam_6` and `Cam_6.001` with a regular expression.
  - `render_animation_multi_cam` fails without the `HandMesh` object or without cameras. Otherwise it renders one still per present skin, camera and frame of `range(fs, fe + 1, FRAME_STEP)`, each to a path built from the action label, the camera, the skin and the zero-padded frame number.

The model has these modules:

| module | file | contents |
|---|---|---|
| `Wrappers` | `wrappers.dfy` | `Option` and `Result`. |
| `Text` | `text.dfy` | The Python string primitives the scripts rely on: `str.isspace`, `str.split()`, `int()` and `str()` of naturals, the `0Nd` format and `str` ordering. |
| `Transform` | `transform.dfy` | The two coordinate stages, over `real`. |
| `SkeletonParser` | `skeleton_parser.dfy` | The loader. |
| `Bake` | `bake.dfy` | The joint table and a `Scene` class (objects with location and keyframes, frame range, current frame) whose methods are the loops of `bake`. |
| `CameraOrder` | `camera_order.dfy` | The name pattern, the sort key and the camera selection. |
| `RenderJobs` | `render_jobs.dfy` | The render configuration, output paths, the job plan of a run, and a `Renderer` class whose methods are the three nested render loops. |

Each render is recorded as a `RenderJob`: the material, camera, frame and file path the render is called with.

`load_fphab_skeleton` is modelled twice:
- `SkeletonParser.Load` specifies it. It is `Gather` applied to the fate of each line (`Blank`, `Unconvertible`, `Miscount` or `Joints`).
- `SkeletonParser.LoadFphabSkeleton` is the loop itself, proved equal to `Load`.

The bake and render loops are each proved against a function of the initial state:
- `Bake.BakedObjects` gives the objects after a bake.
- `RenderJobs.RenderPlan` gives the sequence of stills a run renders, or the error it raises.

Some functions only compute, and their rows below name the lemmas that characterise them:
- `Bake.BakedObjects`: `BakedKeyframes`, `UndrivenObjectsUnchanged` and `BakeIdempotent`.
- `RenderJobs.JoinPath`: `JoinPathPlain` and `JoinedTailsAgree`.
- `RenderJobs.OutputFile`: `OutputFileFrameField`.
- `RenderJobs.OutputPath`: `OutputPathShape` and `OutputPathInjective`.
- `RenderJobs.FrameRange`: `FrameRangeExact`, `UnitStepRange` and `FrameRangeIncreasing`.

Three behaviours of the code that are easy to misread:
- **Non-numeric field.** A field that `float()` rejects makes `map(float, parts[1:])` raise, so the whole load fails. That line is not skipped, even when its field count is also wrong. The check happens before the count check (load_skeleton.py:69-70).
- **Missing markers.** They are warned about once per bake, before the frame loop (load_skeleton.py:125-127), not once per frame.
- **Failure order.** The file is read before the armature is looked up (load_skeleton.py:105-109), so an unreadable file fails first.

## Model

| member | source | states |
|---|---|---|
| Text.SplitYieldsTokens | load_skeleton.py:66 | Every field of `line.strip().split()` is non-empty and holds no whitespace. |
| Text.SplitEmptyIffBlank | load_skeleton.py:66-67 | `split()` gives no fields exactly when the line is empty or whitespace only. |
| Text.SplitKeepsNonSpace | load_skeleton.py:66 | The fields joined back together are the line with its whitespace removed, so splitting loses only whitespace. |
| Text.DecimalRoundTrip | render.py:57-58 | `int(str(n)) == n`, and `str(n)` has no leading zero for `n > 0`. |
| Text.DecimalOfValue | render.py:57-58 | Conversely, a digit string without a leading zero is `str(int(s))`. |
| Text.DecimalLength | render.py:120 | For `k >= 1`, `str(n)` has at most `k` digits exactly when `n < 10**k`. |
| Text.FormatZeroPaddedRoundTrip | render.py:120 | The `f"{fr:05d}"` field:<br>- it is at least `width` long, and exactly `width` when `n >= 0`, `width >= 1` and `n < 10**width`;<br>- for `n >= 0` its digits read back as `n`;<br>- for `n < 0` it is a minus sign followed by the digits of `-n`. |
| Text.FormatZeroPaddedInjective | render.py:120 | Distinct frame numbers give distinct padded fields. |
| Text.LexLeReflexive | render.py:59 | `str` `<=` is reflexive. |
| Text.LexLeAntisymmetric | render.py:59 | `str` `<=` is antisymmetric. |
| Text.LexLeTransitive | render.py:59 | `str` `<=` is transitive. |
| Text.LexLeTotal | render.py:59 | `str` `<=` is total. |
| Transform.HomogeneousIsAffine | load_skeleton.py:80-82 | `m @ (x, y, z, 1)` without its fourth coordinate is `R·v + t`. A bottom row of `(0, 0, 0, 1)` keeps `w = 1`. |
| Transform.CamExtrIsAffine | load_skeleton.py:13-18 | The bottom row of `CAM_EXTR` is `(0, 0, 0, 1)`. |
| Transform.WorldToCam | load_skeleton.py:80-82 | `world_to_cam`, computed as the homogeneous product with `CAM_EXTR`, is the rigid motion `R·v + t` read off the matrix. |
| Transform.WorldToCamFormula | load_skeleton.py:80-82 | `world_to_cam(v)` is `R·v + t`, with `R` and `t` read off `CAM_EXTR`. Its homogeneous `w` is 1. The formula is spelled out with the matrix entries. |
| Transform.WorldToCamDifference | load_skeleton.py:80-82 | The translation cancels: the difference of two transformed points is the rotated difference. |
| Transform.CamToBlender | load_skeleton.py:84-94 | `cam_to_blender` loses nothing: for a non-zero spread, `BlenderToCam` recovers the camera-space input. |
| Transform.CamToBlenderFormula | load_skeleton.py:93-94 | `cam_to_blender(x, y, z) = (spread·0.001·x, 0.001·z, -0.001·y)`. |
| Transform.SpreadScalesLateralAxisOnly | load_skeleton.py:94 | The spread multiplies Blender's X and leaves Y and Z alone. |
| Transform.UnitSpreadIsScaledAxisSwap | load_skeleton.py:93-94 | With spread 1 the stage is a uniform scale by 0.001 composed with `(x, y, z) -> (x, z, -y)`, and squared lengths scale by `10**-6`. |
| Transform.CamToBlenderRoundTrip | load_skeleton.py:93-94 | For a non-zero spread, `BlenderToCam` inverts `cam_to_blender` on both sides. |
| Transform.ToBlenderFormula | load_skeleton.py:136-137 | The composed per-joint transform, component by component. |
| SkeletonParser.ToReals | load_skeleton.py:69 | `list(map(float, fields))` has one value per field when it succeeds. |
| SkeletonParser.ToRealsExact | load_skeleton.py:69 | The conversion succeeds iff every field converts, and then value `i` is field `i` converted. |
| SkeletonParser.TriplesAt | load_skeleton.py:73-75 | The regrouped payload has `|vals| / 3` joints, and joint `j` is `(vals[3j], vals[3j+1], vals[3j+2])`. |
| SkeletonParser.GroupJoints | load_skeleton.py:73-75 | The `range(21)` loop builds 21 joints, and joint `j` is `(vals[3j], vals[3j+1], vals[3j+2])`. |
| SkeletonParser.Load | load_skeleton.py:58-78 | The load of a file: a failure names a line of the file, from 1 to its number of lines, and a success has at most one frame or one warning per line. |
| SkeletonParser.GatherBounds | load_skeleton.py:65-72 | The same bounds for any run of line fates. |
| SkeletonParser.LoadFphabSkeleton | load_skeleton.py:58-78 | The line loop returns exactly `Load(lines)`: the frames, the warnings, or the first conversion failure. |
| SkeletonParser.GatherFailureSticks | load_skeleton.py:69 | Once a line has raised, later lines do not change the outcome. |
| SkeletonParser.BlankLinesAreSkipped | load_skeleton.py:66-68 | A line contributes nothing, not even a warning, exactly when it is blank. |
| SkeletonParser.AcceptedLineShape | load_skeleton.py:66-76 | A line yields a frame iff it has exactly 63 fields after the first and all of them convert. The frame then has 21 joints, and joint `j` is fields `3j+1 .. 3j+3` converted. |
| SkeletonParser.MiscountedLineShape | load_skeleton.py:69-72 | A line is skipped with a warning iff it is non-blank, all its fields convert, and the count after the first is not 63. The warning carries that count. |
| SkeletonParser.UnconvertibleLineShape | load_skeleton.py:69 | A line makes the load fail iff it is non-blank and some field after the first is not a number. |
| SkeletonParser.TimestampIsIgnored | load_skeleton.py:66-69 | Two non-blank lines that agree after their first field have the same fate. |
| SkeletonParser.GatherSucceedsIffAllConvert | load_skeleton.py:65-69 | The gathering loop succeeds iff no line fate is `Unconvertible`. |
| SkeletonParser.GatherFailsAtFirstUnconvertible | load_skeleton.py:65-69 | A failed gather names the first `Unconvertible` position, counting from 1. |
| SkeletonParser.AcceptedExact | load_skeleton.py:65-76 | `Accepted` lists exactly the positions of the frames, strictly increasing. |
| SkeletonParser.GatheredFramesAreAccepted | load_skeleton.py:63-76 | The gathered frames are the `Joints` fates, one per accepted position, in order. |
| SkeletonParser.GatheredWarningsAreMiscounts | load_skeleton.py:65-72 | Each gathered warning names a `Miscount` fate by its 1-based position and carries its count. |
| SkeletonParser.GatheredWarningsInOrder | load_skeleton.py:65-72 | The gathered warnings come in strictly increasing position. |
| SkeletonParser.GatherWarnsEveryMiscount | load_skeleton.py:70-72 | Every `Miscount` fate is warned about. |
| SkeletonParser.LoadSucceedsIffAllConvert | load_skeleton.py:65-69 | The load fails exactly when some non-blank line has a non-numeric field. |
| SkeletonParser.LoadFailsAtFirstUnconvertibleLine | load_skeleton.py:65-69 | A failed load names the first such line (1-based), and every earlier line converted. |
| SkeletonParser.AcceptedLinesExact | load_skeleton.py:65-76 | `AcceptedLines` lists, strictly increasing, exactly the lines that yield a frame. |
| SkeletonParser.FramesAreAcceptedLines | load_skeleton.py:63-78 | The frames are the accepted lines' joints: one per accepted line, in input order. |
| SkeletonParser.FramesHaveAllJoints | load_skeleton.py:73-76 | Every loaded frame has 21 joints. |
| SkeletonParser.WarningsAreMiscountedLines | load_skeleton.py:65-72 | Each warning names a miscounted line by its 1-based number, with blank lines counted, and carries its field count. |
| SkeletonParser.WarningsInLineOrder | load_skeleton.py:65-72 | The warnings come in line order, at most one per line. |
| SkeletonParser.MiscountedLinesAreWarned | load_skeleton.py:70-72 | Every miscounted line is reported. |
| SkeletonParser.TrailingBlankLineChangesNothing | load_skeleton.py:66-68 | A blank last line does not change the result. |
| Bake.JointIndicesWellFormed | load_skeleton.py:31-52 | `JOINT_TO_EMPTY` has 15 entries. Their joints are distinct, lie in 1..20, and exclude the DIP joints. |
| Bake.MarkerNamesDistinct | load_skeleton.py:31-52 | The 15 marker names are distinct, and none is the armature's. |
| Bake.IndexOfName | load_skeleton.py:145-146 | The first table entry with a given marker name, or none. |
| Bake.DrivingJoint | load_skeleton.py:141-149 | The joint an object follows, if any, is an F-PHAB joint index below 21. |
| Bake.MarkerEntry | load_skeleton.py:145-149 | The marker of entry `m` is driven by entry `m`'s joint. |
| Bake.DrivingJointExact | load_skeleton.py:141-149 | An object follows joint `j` iff it is the armature and `j = 0`, or it is a marker paired with `j` in the table. |
| Bake.DipJointsAreNeverBaked | load_skeleton.py:31-52 | With `JOINT_TO_EMPTY`, no object follows a DIP joint. |
| Bake.LoadedFramesWellFormed | load_skeleton.py:105 | A successful load hands the bake frames of 21 joints. |
| Bake.TransformJoints | load_skeleton.py:134-138 | The joint loop maps every joint through `world_to_cam` and then `cam_to_blender`, in order. |
| Bake.FindMissingMarkers | load_skeleton.py:125-127 | The sanity loop reports exactly `MissingMarkers`. |
| Bake.MissingMarkersExact | load_skeleton.py:125-127 | An entry is reported missing exactly when it is in the table and the file has no object of its name. |
| Bake.MissingMarkersDependOnNamesOnly | load_skeleton.py:125-127 | Only object names matter to the report, so clearing animation first does not change it. |
| Bake.InsertKey | load_skeleton.py:142 | `keyframe_insert("location", frame=...)` keeps the location, creates the animation data if needed, and records the current location at that frame. |
| Bake.InsertKeyKeepsOtherKeys | load_skeleton.py:142 | Keying one frame adds exactly that frame to the object's keys (just that frame when it had no animation data), and the keys at every other frame keep their values. |
| Bake.KeyedShape | load_skeleton.py:129-150 | An object keyed with `N >= 1` frames from joint `j` has keys at exactly `FRAME_OFFSET .. FRAME_OFFSET + N - 1`, the transformed joint of frame `i` at key `FRAME_OFFSET + i`, and the last frame's position. |
| Bake.KeyNextFrame | load_skeleton.py:141-142 | Setting the location and inserting a key at `FRAME_OFFSET + i` extends an object keyed with frames `0..i-1` to one keyed with `0..i`. |
| Bake.BakedKeyframes | load_skeleton.py:129-150 | After baking N frames, a driven object:<br>- has keys at exactly `FRAME_OFFSET .. FRAME_OFFSET + N - 1`;<br>- holds the transformed joint of frame `i` at key `FRAME_OFFSET + i`;<br>- sits at the last frame's position.<br>With no frames, its animation is only cleared. |
| Bake.UndrivenObjectsUnchanged | load_skeleton.py:112-150 | The bake creates and deletes no object. It leaves every object that is neither the armature nor a mapped marker as it was. |
| Bake.BakeIdempotent | load_skeleton.py:112-114 | Baking the same frames twice gives the same scene as baking them once: clearing forgets the earlier keys. |
| Bake.PriorStateIrrelevant | load_skeleton.py:112-114 | With at least one frame, a driven object's prior location and keys do not affect the result. |
| Bake.ClearingStarts | load_skeleton.py:112 | Clearing the armature starts the clearing sequence. |
| Bake.ClearingSteps | load_skeleton.py:113-114 | Clearing marker `k` advances the sequence by one table entry. |
| Bake.ClearingEnds | load_skeleton.py:112-114 | After all entries, the objects are the bake of zero frames. |
| Bake.KeyingStarts | load_skeleton.py:141-142 | Keying the wrist on the armature starts frame `i`. |
| Bake.KeyingStepOther | load_skeleton.py:145-150 | Keying marker `m` leaves every other object at its stage. |
| Bake.KeyingStepSame | load_skeleton.py:149-150 | Keying marker `m` moves it from `i` keyed frames to `i + 1`. |
| Bake.KeyingSteps | load_skeleton.py:145-150 | One pass of the marker loop, over the whole scene. |
| Bake.KeyingEnds | load_skeleton.py:145-150 | After the marker loop, the scene is the bake of frames `0..i`. |
| Bake.Scene.ClearAnim | load_skeleton.py:96-98 | `clear_anim` drops the named object's animation data if the file has the object, and changes nothing else. |
| Bake.Scene.KeyObject | load_skeleton.py:141-150 | Moves a present object to the value and keys it at the frame. An absent name changes nothing. |
| Bake.Scene.ClearMappedAnimations | load_skeleton.py:111-114 | The clearing loop turns the objects into the bake of zero frames. |
| Bake.Scene.KeyFrame | load_skeleton.py:129-150 | One pass of the frame loop turns the bake of frames `0..i-1` into the bake of frames `0..i`, at current frame `FRAME_OFFSET + i`. |
| Bake.Scene.KeyFrames | load_skeleton.py:129-131 | The frame loop bakes all frames. It ends on frame `FRAME_OFFSET + N - 1`, or keeps the current frame when `N = 0`. |
| Bake.Scene.Bake | load_skeleton.py:104-150 | A failed load is reported with its error. A missing armature is reported, and the scene is then untouched. Otherwise:<br>- the range is `FRAME_OFFSET .. FRAME_OFFSET + N - 1`;<br>- the objects are `BakedObjects` of the loaded frames;<br>- the result carries the load's warnings and the missing markers. |
| CameraOrder.KeyLeTotal | render.py:59 | The `(int, int, str)` tuple order is total. |
| CameraOrder.KeyLeTransitive | render.py:59 | The tuple order is transitive. |
| CameraOrder.KeyLeAntisymmetric | render.py:59 | The tuple order is antisymmetric. |
| CameraOrder.IndexOfDot | render.py:55 | The first `.` of a string, or none. |
| CameraOrder.MatchComplete | render.py:55 | Every name of the form prefix, digits, optionally `.` and digits, and optionally one final newline matches, with those groups. |
| CameraOrder.MatchSound | render.py:55 | Every match comes from a name of that form. |
| CameraOrder.CamSortKey | render.py:53-60 | The key's name is the camera's name. |
| CameraOrder.CamSortKeyPlain | render.py:55-59 | `prefix + digits` gets `(int(digits), 0, name)`. |
| CameraOrder.CamSortKeyDotted | render.py:55-59 | `prefix + d1 + "." + d2` gets `(int(d1), int(d2), name)`. |
| CameraOrder.CamSortKeyOther | render.py:60 | Every other name gets `(10**9, 10**9, name)`. |
| CameraOrder.NumericOrder | render.py:53-62 | Numbers compare as numbers, so `Cam_2` sorts before `Cam_10`. |
| CameraOrder.DuplicatesFollowOriginal | render.py:53-62 | For any digit string `d` (leading zeros allowed), `prefix + d` sorts strictly before each of its Blender duplicates `prefix + d + "." + digits`. |
| CameraOrder.MatchCamName | render.py:55 | `re.match` of the camera pattern: a name without the prefix never matches, and the groups of a match are non-empty digit runs. |
| CameraOrder.DuplicateKeys | render.py:57-58 | A name and its dotted duplicate share the main number, and the plain name has suffix 0. |
| CameraOrder.NonMatchingSortLast | render.py:60-62 | A name the pattern rejects sorts after every matching name whose main number is below `10**9`. |
| CameraOrder.SentinelBoundary | render.py:60 | That bound is needed: a matching name with a number above `10**9` sorts after a rejected name. |
| CameraOrder.Insert | render.py:62 | Inserting keeps the elements (as a multiset) and keeps a sorted list sorted. |
| CameraOrder.SortBy | render.py:62 | `cams.sort(key=...)`: a permutation of the input, sorted by the key. |
| CameraOrder.SortedPermutationUnique | render.py:62 | When keys are distinct, two sorted permutations of the same list are equal, so the sort algorithm does not matter. |
| CameraOrder.PrefixedCameras | render.py:50 | The comprehension keeps exactly the objects of type `CAMERA` whose name starts with the prefix. |
| CameraOrder.PrefixedCamerasDistinct | render.py:50 | Filtering keeps distinct names distinct. |
| CameraOrder.GetCamerasByPrefix | render.py:48-63 | The result:<br>- holds exactly the qualifying objects;<br>- is a permutation of the filtered list;<br>- is ordered by `cam_sort_key`;<br>- is empty iff no object qualifies. |
| CameraOrder.CamerasDetermined | render.py:62 | With unique object names, any key-sorted permutation of the qualifying cameras is the result. |
| CameraOrder.DistinctNamesOfPermutation | render.py:62 | A permutation of a list with distinct names has distinct names. |
| RenderJobs.ConfiguredFrameField | render.py:120 | The configured frame field is `{fr:05d}`, and it tells frames apart. |
| RenderJobs.JoinPathPlain | render.py:114 | `os.path.join` of a relative name onto a directory without a trailing `/` inserts one `/`. |
| RenderJobs.OutputPathShape | render.py:93-121 | For a camera whose name starts with the prefix and does not end in `/`, and a configured skin, the file is `base/action/camera/skin/action_camera_skin_fNNNNN.png`. |
| RenderJobs.OutputFileFrameField | render.py:120 | The file name is `action_camera_skin_f` + the frame field + `.png`. The field is at least 5 characters. For `0 <= fr < 100000` it is exactly 5, and for `fr >= 0` it reads back as the frame. |
| RenderJobs.OutputPathInjective | render.py:114-121 | Two frames of the same camera and skin never write the same file. |
| RenderJobs.JoinedTailsAgree | render.py:121 | Joining two names with the same first character onto one directory gives equal paths only for equal names. |
| RenderJobs.ResolveFrame | render.py:89-90 | The configured bound is used when it is not `None`, and the scene's bound otherwise. |
| RenderJobs.FrameRangeExact | render.py:117 | `range(fs, fe + 1, step)`:<br>- is empty exactly when `fe < fs`;<br>- has `fs + i·step` as element `i`;<br>- ends at the last such term not above `fe`. |
| RenderJobs.FrameRangeStep | render.py:117 | One pass of the frame loop moves the next frame onto the frames done. |
| RenderJobs.UnitStepRange | render.py:117 | With step 1 the range is `fs..fe`: `fe - fs + 1` frames, and none when `fe < fs`. |
| RenderJobs.ConfiguredFramesAreSceneRange | render.py:16-18 | With the shipped configuration, a run covers exactly the scene's `frame_start .. frame_end`. |
| RenderJobs.PresentSkins | render.py:103-107 | A skin is rendered exactly when it is configured and its material exists, and there are at most as many rendered skins as configured ones. |
| RenderJobs.PresentSkinsInOrder | render.py:103-107 | The skins rendered are the configured skins at the positions whose material exists: every such position once, in increasing order. This keeps the configuration order, and a skin listed twice is rendered twice. |
| RenderJobs.FrameShotsAt | render.py:117-123 | The inner loop's shot `f` is frame `f` of the range. |
| RenderJobs.CameraShotsLength | render.py:111-117 | One skin renders `|cams|·|frames|` stills. |
| RenderJobs.SkinShotsLength | render.py:103-117 | A run renders `|skins|·|cams|·|frames|` stills. |
| RenderJobs.CameraShotAt | render.py:111-117 | Shot `c·|frames| + f` of one skin is camera `c` at frame `f`. |
| RenderJobs.SkinShotAt | render.py:103-117 | Shot `ShotIndex(k, c, f)` is skin `k` through camera `c` at frame `f`: skins outermost, frames innermost. |
| RenderJobs.CameraShotsFrom | render.py:111-117 | Every shot of one skin is one of the cameras at one of the frames. |
| RenderJobs.SkinShotsFrom | render.py:103-117 | Every shot is one of the skins through one of the cameras at one of the frames. |
| RenderJobs.FrameJobsSnoc | render.py:117-123 | One more frame adds one job at the end. |
| RenderJobs.CameraJobsSnoc | render.py:111-123 | One more camera adds that camera's frame jobs at the end. |
| RenderJobs.SkinJobsSnoc | render.py:103-123 | One more skin adds its camera jobs at the end if its material exists, and nothing otherwise. |
| RenderJobs.RenderPlan | render.py:84-99 | A run fails with `HandMeshMissing` iff there is no `HandMesh` object. Otherwise it fails with `NoCameras` iff no object is a camera with the prefix. |
| RenderJobs.RenderPlanLength | render.py:103-123 | A successful run renders `|P|·|C|·|F|` stills. |
| RenderJobs.RenderPlanJobs | render.py:103-123 | Job `ShotIndex(s, c, f)` renders present skin `s` through camera `c` at frame `f`, to that triple's output path. |
| RenderJobs.RenderPlanJobsAreShots | render.py:103-123 | Every job renders a present skin through a selected camera, at a frame of the range, to its output path. |
| RenderJobs.MissingSkinsSkipped | render.py:104-107 | Skins whose material is missing contribute no job and do not abort the run. |
| RenderJobs.PresentSkinsRendered | render.py:103-117 | Every present skin is rendered through every selected camera whenever the range is not empty. |
| RenderJobs.FrameRangeIncreasing | render.py:117 | The frames of a range strictly increase from `fs`. |
| RenderJobs.FramesIncreaseAndFilesDiffer | render.py:117-121 | Within one camera and skin, frames are rendered in increasing order, each to its own file. |
| RenderJobs.Renderer.Render | render.py:123 | One still of the current material, camera, frame and file path is recorded. |
| RenderJobs.Renderer.RenderFrame | render.py:117-123 | Goes to frame `fr`, points the file path at its file, and records that job. |
| RenderJobs.Renderer.RenderFrames | render.py:117-124 | The frame loop records the jobs of every frame of the range, in order, and ends on the last frame and its path. |
| RenderJobs.Renderer.RenderCameras | render.py:111-124 | The camera loop records the jobs of every camera in turn, and ends on the last camera. |
| RenderJobs.Renderer.RenderSkin | render.py:103-124 | A skin without a material changes nothing. Otherwise the skin goes on the hand and every camera renders it. |
| RenderJobs.Renderer.RenderSkins | render.py:103-124 | The skin loop records the jobs of every present skin, in order. |
| RenderJobs.Renderer.RenderAnimationMultiCam | render.py:83-124 | The run's outcome:<br>- it fails exactly as `RenderPlan` does, and then nothing changes;<br>- otherwise it records exactly `RenderPlan`'s jobs;<br>- it leaves the hand, camera, frame and path of the last render. |

## Left out

- **I/O and host calls.** Not modelled:
  - reading the file: the loader takes the file's lines;
  - `print`;
  - `os.makedirs`;
  - `bpy.ops.object.mode_set`;
  - `enable_gpu_metal` and the render-format settings;
  - the image that `bpy.ops.render.render` writes: a render is recorded as a job.
- **`float()`.** It is the parameter `toReal`, a partial conversion from a field to a real. Its tokenisation rules are not modelled. Python's `float()` also accepts `nan`, `inf` and `-inf`, which have no `real` value, so a `toReal` cannot return them and the model has no frames holding such coordinates.
- **Floating point.** The coordinate stages use exact arithmetic over `real` instead of the single-precision floats of mathutils' `Vector` and `Matrix`.
- **Objects of the file, not of the scene.** Both scripts look objects up in `bpy.data.objects`, all the objects of the .blend file. The model's object map stands for that collection. It does not tell objects linked into the scene apart from objects that are only in the file.
- **`scene.frame_set`.** It is modelled only as setting the current frame. Dependency-graph evaluation is not modelled.
- Bake.Scene.Bake: with zero frames the source sets `frame_end` to `FRAME_OFFSET - 1`, below `frame_start`. The contract keeps `frameStart == FRAME_OFFSET` and `frameEnd == FRAME_OFFSET - 1`. Blender's own adjustment of `frame_start` in that case is host behaviour and is not modelled.
- **Sort algorithm.** `cams.sort` is Timsort. The model sorts by insertion on a sequence. `SortedPermutationUnique` shows that with unique object names, as Blender guarantees, every key-sorted permutation is the same list.
- **Python's `\d` and `int()`.** Both also accept non-ASCII Unicode decimal digits. `CameraOrder.MatchCamName` and `Text.DecimalValue` accept ASCII digits only, so such a name is modelled as not matching.
- **Frame step.** `RenderJobs.FrameRange`: `ValidConfig` requires `FRAME_STEP >= 1`. A zero step (which raises in Python) and negative steps (descending ranges) are not modelled. The shipped configuration uses step 1.
- **Setup scripts.** `empty.py` and `camera.py` are not part of this model. The first creates the markers, and the second places the camera ring.
