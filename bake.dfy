/**
 * `bake` of load_skeleton.py over an abstract Blender scene: a map from
 * object name to the object's location and keyframes, standing for the
 * file's objects (`bpy.data.objects`), plus the scene's frame range and
 * current frame. The bake loads the skeleton file, fails
 * if the armature "Hand" is absent, clears the animation of the armature
 * and of every marker named in JOINT_TO_EMPTY, sets the frame range, and
 * then keys, for frame i, the transformed wrist on the armature and each
 * present marker's transformed joint, at frame FRAME_OFFSET + i.
 *
 * The helpers take the joint table as a parameter `table` that satisfies
 * `ValidTable`; the bake itself passes JOINT_TO_EMPTY.
 */
module Bake {
  import opened Wrappers
  import opened Transform
  import opened SkeletonParser

  const HAND_OBJ_NAME: string := "Hand"

  /** The scene frame that receives the first skeleton frame. */
  const FRAME_OFFSET: int := 1

  /** Pairs (joint index, marker name). */
  type JointTable = seq<(nat, string)>

  /** JOINT_TO_EMPTY, in the dict's insertion order (the order Python iterates it). */
  const JOINT_TO_EMPTY: JointTable := [
    (1, "THUMB_MCP"), (2, "INDEX_MCP"), (3, "MIDDLE_MCP"), (4, "RING_MCP"), (5, "PINKY_MCP"),
    (6, "THUMB_PIP"), (9, "INDEX_PIP"), (12, "MIDDLE_PIP"), (15, "RING_PIP"), (18, "PINKY_PIP"),
    (8, "THUMB_TIP"), (11, "INDEX_TIP"), (14, "MIDDLE_TIP"), (17, "RING_TIP"), (20, "PINKY_TIP")]

  /** The distal interphalangeal joints of the F-PHAB order: no marker follows them. */
  const DIP_JOINTS: set<nat> := {7, 10, 13, 16, 19}

  /** What the bake needs of a table: joints that exist, marker names that are distinct and are not the armature's. */
  predicate ValidTable(table: JointTable)
  {
    && (forall i :: 0 <= i < |table| ==> table[i].0 < JOINT_COUNT && table[i].1 != HAND_OBJ_NAME)
    && (forall i, k :: 0 <= i < k < |table| ==> table[i].1 != table[k].1)
  }

  /** The table has 15 entries whose joints are distinct and lie in 1..20: not the wrist, and no DIP joint. */
  lemma JointIndicesWellFormed()
    ensures |JOINT_TO_EMPTY| == 15
    ensures forall i, k :: 0 <= i < k < |JOINT_TO_EMPTY| ==> JOINT_TO_EMPTY[i].0 != JOINT_TO_EMPTY[k].0
    ensures forall i :: 0 <= i < |JOINT_TO_EMPTY| ==>
              1 <= JOINT_TO_EMPTY[i].0 < JOINT_COUNT && JOINT_TO_EMPTY[i].0 !in DIP_JOINTS
  {
  }

  /** The position of a marker name in the table, read off the finger's initial and the joint kind's initial (MCP, PIP, TIP, five fingers each). */
  function MarkerCode(n: string): nat
  {
    if |n| < 3 then 0
    else
      var finger := match n[0] case 'T' => 0 case 'I' => 1 case 'M' => 2 case 'R' => 3 case _ => 4;
      var kind := match n[|n| - 3] case 'M' => 0 case 'P' => 1 case _ => 2;
      5 * kind + finger
  }

  /** The 15 marker names are distinct, and none of them is the armature's. */
  lemma MarkerNamesDistinct()
    ensures ValidTable(JOINT_TO_EMPTY)
  {
    assert forall i :: 0 <= i < |JOINT_TO_EMPTY| ==> MarkerCode(JOINT_TO_EMPTY[i].1) == i && |JOINT_TO_EMPTY[i].1| > 4;
  }

  /** The table has 15 entries with distinct joints in 1..20 (not the wrist, no DIP joint) and distinct marker names, none of them the armature's. */
  lemma JointTableWellFormed()
    ensures |JOINT_TO_EMPTY| == 15
    ensures forall i, k :: 0 <= i < k < |JOINT_TO_EMPTY| ==> JOINT_TO_EMPTY[i].0 != JOINT_TO_EMPTY[k].0
    ensures forall i :: 0 <= i < |JOINT_TO_EMPTY| ==>
              1 <= JOINT_TO_EMPTY[i].0 < JOINT_COUNT && JOINT_TO_EMPTY[i].0 !in DIP_JOINTS
    ensures ValidTable(JOINT_TO_EMPTY)
  {
    JointIndicesWellFormed();
    MarkerNamesDistinct();
  }

  /** A scene object as the bake sees it: its location and, when it has animation data, its location keyframes. */
  datatype SceneObject = SceneObject(location: Vec3, anim: Option<map<int, Vec3>>)

  /** obj.keyframe_insert("location", frame=frame): records the current location at that frame, creating the animation data if needed. */
  function InsertKey(o: SceneObject, frame: int): (r: SceneObject)
    ensures r.location == o.location && r.anim.Some?
    ensures frame in r.anim.value && r.anim.value[frame] == o.location
  {
    o.(anim := Some((if o.anim.Some? then o.anim.value else map[])[frame := o.location]))
  }

  /** Inserting a key adds that one frame: the keys the object had at other frames stay, with their values. */
  lemma InsertKeyKeepsOtherKeys(o: SceneObject, frame: int)
    ensures InsertKey(o, frame).anim.value.Keys == (if o.anim.Some? then o.anim.value.Keys else {}) + {frame}
    ensures o.anim.Some? ==> forall f :: f in o.anim.value && f != frame ==> InsertKey(o, frame).anim.value[f] == o.anim.value[f]
  {
  }

  /** The position of the first entry of `table` named `n`, or -1. */
  function IndexOfName(table: JointTable, n: string): (k: int)
    ensures -1 <= k < |table|
    ensures k >= 0 ==> table[k].1 == n && forall i :: 0 <= i < k ==> table[i].1 != n
    ensures k < 0 ==> forall i :: 0 <= i < |table| ==> table[i].1 != n
  {
    if table == [] then -1
    else if table[0].1 == n then 0
    else
      var k := IndexOfName(table[1..], n);
      if k < 0 then -1 else k + 1
  }

  /** The joint whose position the bake writes into the object called `n`: the wrist for the armature, the table's joint for a marker, none for any other object. */
  function DrivingJoint(table: JointTable, n: string): (j: Option<nat>)
    requires ValidTable(table)
    ensures j.Some? ==> j.value < JOINT_COUNT
  {
    if n == HAND_OBJ_NAME then Some(0)
    else
      var k := IndexOfName(table, n);
      if k < 0 then None else Some(table[k].0)
  }

  /** The marker of table entry `m` is driven by that entry's joint. */
  lemma MarkerEntry(table: JointTable, m: nat)
    requires ValidTable(table) && m < |table|
    ensures table[m].1 != HAND_OBJ_NAME
    ensures IndexOfName(table, table[m].1) == m
    ensures DrivingJoint(table, table[m].1) == Some(table[m].0)
  {
  }

  predicate WellFormedFrames(frames: seq<Frame>)
  {
    forall i :: 0 <= i < |frames| ==> |frames[i]| == JOINT_COUNT
  }

  /** What a successful load hands to the bake: frames of 21 joints each. */
  lemma LoadedFramesWellFormed(lines: seq<string>, toReal: string -> Option<real>)
    requires Load(lines, toReal).Success?
    ensures WellFormedFrames(Load(lines, toReal).value.frames)
  {
    FramesHaveAllJoints(lines, toReal);
    var frames := Load(lines, toReal).value.frames;
    forall i | 0 <= i < |frames| ensures |frames[i]| == JOINT_COUNT {
      assert frames[i] in frames;
    }
  }

  /** The value keyed at scene frame `f`: joint `j` of skeleton frame f - FRAME_OFFSET, transformed. */
  function KeyValue(frames: seq<Frame>, j: nat, f: int): Vec3
    requires j < JOINT_COUNT && WellFormedFrames(frames)
    requires FRAME_OFFSET <= f < FRAME_OFFSET + |frames|
  {
    ToBlender(frames[f - FRAME_OFFSET][j])
  }

  /** An object driven by joint `j`, once its animation was cleared and `frames` were keyed from FRAME_OFFSET on. */
  function Keyed(o: SceneObject, j: nat, frames: seq<Frame>): SceneObject
    requires j < JOINT_COUNT && WellFormedFrames(frames)
  {
    if frames == [] then o.(anim := None)
    else SceneObject(
      ToBlender(frames[|frames| - 1][j]),
      Some(map f | FRAME_OFFSET <= f < FRAME_OFFSET + |frames| :: KeyValue(frames, j, f)))
  }

  /** The object called `name` after baking `frames`. */
  function BakedObject(table: JointTable, name: string, o: SceneObject, frames: seq<Frame>): SceneObject
    requires ValidTable(table) && WellFormedFrames(frames)
  {
    match DrivingJoint(table, name)
    case None => o
    case Some(j) => Keyed(o, j, frames)
  }

  /** The file's objects after baking `frames`. */
  function BakedObjects(table: JointTable, objs: map<string, SceneObject>, frames: seq<Frame>): (r: map<string, SceneObject>)
    requires ValidTable(table) && WellFormedFrames(frames)
  {
    map n | n in objs :: BakedObject(table, n, objs[n], frames)
  }

  /** The entries of `table` whose marker is not among the file's objects, in table order. */
  function MissingMarkers(table: JointTable, objs: map<string, SceneObject>): seq<(nat, string)>
  {
    if table == [] then []
    else MissingMarkers(table[..|table| - 1], objs) + (if table[|table| - 1].1 in objs then [] else [table[|table| - 1]])
  }

  datatype BakeOutcome =
    | LoadFailed(error: LoadError)       // float() raised while reading the file
    | HandMissing                        // RuntimeError: armature not found
    | Baked(frameCount: nat, warnings: seq<Warning>, missing: seq<(nat, string)>)

  /** The inner loop of one frame: every joint through world_to_cam and cam_to_blender. */
  method TransformJoints(joints: Frame) returns (bl: seq<Vec3>)
    ensures |bl| == |joints|
    ensures forall i :: 0 <= i < |joints| ==> bl[i] == ToBlender(joints[i])
  {
    bl := [];
    var i := 0;
    while i < |joints|
      invariant 0 <= i <= |joints|
      invariant |bl| == i
      invariant forall k :: 0 <= k < i ==> bl[k] == ToBlender(joints[k])
    {
      var jc := WorldToCam(joints[i]);
      var jb := CamToBlender(SPREAD, jc);
      bl := bl + [jb];
      i := i + 1;
    }
  }

  /** The sanity loop that warns about each mapped marker missing from the scene. */
  method FindMissingMarkers(table: JointTable, objs: map<string, SceneObject>) returns (missing: seq<(nat, string)>)
    ensures missing == MissingMarkers(table, objs)
  {
    missing := [];
    var k := 0;
    while k < |table|
      invariant 0 <= k <= |table|
      invariant missing == MissingMarkers(table[..k], objs)
    {
      assert table[..k + 1][..k] == table[..k];
      if table[k].1 !in objs {
        missing := missing + [table[k]];
      }
      k := k + 1;
    }
    assert table[..k] == table;
  }

  lemma {:induction false} MissingMarkersDependOnNamesOnly(table: JointTable, a: map<string, SceneObject>, b: map<string, SceneObject>)
    requires a.Keys == b.Keys
    ensures MissingMarkers(table, a) == MissingMarkers(table, b)
  {
    if table != [] {
      MissingMarkersDependOnNamesOnly(table[..|table| - 1], a, b);
    }
  }

  /** Keying frame |frames| of an object whose earlier frames are keyed extends its keyed state by that frame. */
  lemma KeyNextFrame(o: SceneObject, j: nat, frames: seq<Frame>, frame: Frame)
    requires j < JOINT_COUNT && WellFormedFrames(frames) && |frame| == JOINT_COUNT
    ensures WellFormedFrames(frames + [frame])
    ensures InsertKey(Keyed(o, j, frames).(location := ToBlender(frame[j])), FRAME_OFFSET + |frames|)
            == Keyed(o, j, frames + [frame])
  {
    var all := frames + [frame];
    assert forall i :: 0 <= i < |frames| ==> all[i] == frames[i];
    var next := InsertKey(Keyed(o, j, frames).(location := ToBlender(frame[j])), FRAME_OFFSET + |frames|);
    var want := Keyed(o, j, all);
    assert next.anim.value == want.anim.value;
  }

  // ---------------------------------------------------------------------
  // What a bake does to the scene
  // ---------------------------------------------------------------------

  /** The armature follows joint 0 and each marker of the table its own joint; no other object is driven. */
  lemma {:induction false} DrivingJointExact(table: JointTable, n: string, j: nat)
    requires ValidTable(table)
    ensures DrivingJoint(table, n) == Some(j) <==>
              (n == HAND_OBJ_NAME && j == 0) || (n != HAND_OBJ_NAME && (j, n) in table)
  {
    if n != HAND_OBJ_NAME && (j, n) in table {
      var i :| 0 <= i < |table| && table[i] == (j, n);
      MarkerEntry(table, i);
    }
  }

  /** With JOINT_TO_EMPTY, no object follows a DIP joint. */
  lemma DipJointsAreNeverBaked(n: string)
    ensures ValidTable(JOINT_TO_EMPTY)
    ensures DrivingJoint(JOINT_TO_EMPTY, n).Some? ==> DrivingJoint(JOINT_TO_EMPTY, n).value !in DIP_JOINTS
  {
    JointTableWellFormed();
    if n != HAND_OBJ_NAME && DrivingJoint(JOINT_TO_EMPTY, n).Some? {
      var k := IndexOfName(JOINT_TO_EMPTY, n);
      assert JOINT_TO_EMPTY[k].0 !in DIP_JOINTS;
    }
  }

  /** A driven object ends up with one location key per skeleton frame, at scene frames FRAME_OFFSET .. FRAME_OFFSET + N - 1, holding the transformed joint of that frame, and sits at the last frame's position; with no frames its animation is just cleared. */
  lemma BakedKeyframes(table: JointTable, objs: map<string, SceneObject>, frames: seq<Frame>, n: string)
    requires ValidTable(table) && WellFormedFrames(frames)
    requires n in objs && DrivingJoint(table, n).Some?
    ensures n in BakedObjects(table, objs, frames)
    ensures var o := BakedObjects(table, objs, frames)[n];
            var j := DrivingJoint(table, n).value;
            && (frames == [] ==> o == objs[n].(anim := None))
            && (frames != [] ==>
                  && o.anim.Some?
                  && (forall f :: f in o.anim.value <==> FRAME_OFFSET <= f < FRAME_OFFSET + |frames|)
                  && (forall i :: 0 <= i < |frames| ==> o.anim.value[FRAME_OFFSET + i] == ToBlender(frames[i][j]))
                  && o.location == ToBlender(frames[|frames| - 1][j]))
  {
    var j := DrivingJoint(table, n).value;
    assert BakedObjects(table, objs, frames)[n] == Keyed(objs[n], j, frames);
    if frames != [] {
      KeyedShape(objs[n], j, frames);
    }
  }

  /** The keys of an object keyed with `frames` from joint `j`. */
  lemma KeyedShape(o: SceneObject, j: nat, frames: seq<Frame>)
    requires j < JOINT_COUNT && WellFormedFrames(frames) && frames != []
    ensures var k := Keyed(o, j, frames);
            && k.anim.Some?
            && (forall f :: f in k.anim.value <==> FRAME_OFFSET <= f < FRAME_OFFSET + |frames|)
            && (forall i :: 0 <= i < |frames| ==> k.anim.value[FRAME_OFFSET + i] == ToBlender(frames[i][j]))
            && k.location == ToBlender(frames[|frames| - 1][j])
  {
    var k := Keyed(o, j, frames);
    forall i | 0 <= i < |frames|
      ensures k.anim.value[FRAME_OFFSET + i] == ToBlender(frames[i][j])
    {
      assert k.anim.value[FRAME_OFFSET + i] == KeyValue(frames, j, FRAME_OFFSET + i);
    }
  }

  /** The bake neither creates nor deletes objects, and leaves every object it does not drive as it was. */
  lemma UndrivenObjectsUnchanged(table: JointTable, objs: map<string, SceneObject>, frames: seq<Frame>)
    requires ValidTable(table) && WellFormedFrames(frames)
    ensures BakedObjects(table, objs, frames).Keys == objs.Keys
    ensures forall n :: n in objs && DrivingJoint(table, n).None? ==> BakedObjects(table, objs, frames)[n] == objs[n]
  {
  }

  /** Baking the same frames twice gives the scene of baking them once: the clearing step forgets earlier keys. */
  lemma {:induction false} BakeIdempotent(table: JointTable, objs: map<string, SceneObject>, frames: seq<Frame>)
    requires ValidTable(table) && WellFormedFrames(frames)
    ensures BakedObjects(table, BakedObjects(table, objs, frames), frames) == BakedObjects(table, objs, frames)
  {
    var once := BakedObjects(table, objs, frames);
    var twice := BakedObjects(table, once, frames);
    forall n | n in objs ensures twice[n] == once[n] {
      match DrivingJoint(table, n)
      case None =>
      case Some(j) =>
        assert once[n] == Keyed(objs[n], j, frames);
    }
  }

  /** When there is at least one frame, what a driven object held before the bake (location, old keys) does not matter. */
  lemma PriorStateIrrelevant(table: JointTable, a: map<string, SceneObject>, b: map<string, SceneObject>, frames: seq<Frame>, n: string)
    requires ValidTable(table) && WellFormedFrames(frames) && frames != []
    requires n in a && n in b && DrivingJoint(table, n).Some?
    ensures BakedObjects(table, a, frames)[n] == BakedObjects(table, b, frames)[n]
  {
  }

  /** An entry is reported missing exactly when it is in the table and the file has no object of its name. */
  lemma {:induction false} MissingMarkersExact(table: JointTable, objs: map<string, SceneObject>)
    ensures forall e :: e in MissingMarkers(table, objs) <==> e in table && e.1 !in objs
    ensures |MissingMarkers(table, objs)| <= |table|
  {
    if table != [] {
      MissingMarkersExact(table[..|table| - 1], objs);
      var front := table[..|table| - 1];
      assert table == front + [table[|table| - 1]];
      forall e ensures e in table <==> e in front || e == table[|table| - 1] {
      }
    }
  }

  // ---------------------------------------------------------------------
  // The intermediate states of the two loops of the bake
  // ---------------------------------------------------------------------

  /** The objects after clear_anim on the object called `name`. */
  function WithoutAnimation(objs: map<string, SceneObject>, name: string): map<string, SceneObject>
  {
    if name in objs then objs[name := objs[name].(anim := None)] else objs
  }

  /** The objects after keying the object called `name`, if present, at `frame` with location `v`. */
  function WithKey(objs: map<string, SceneObject>, name: string, v: Vec3, frame: int): map<string, SceneObject>
  {
    if name in objs then objs[name := InsertKey(objs[name].(location := v), frame)] else objs
  }

  /** The objects once the armature and the markers of the first `k` table entries are cleared. */
  ghost function PartlyCleared(table: JointTable, initial: map<string, SceneObject>, k: int): map<string, SceneObject>
  {
    map n | n in initial ::
      if n == HAND_OBJ_NAME || 0 <= IndexOfName(table, n) < k then initial[n].(anim := None) else initial[n]
  }

  lemma ClearingStarts(table: JointTable, initial: map<string, SceneObject>)
    ensures WithoutAnimation(initial, HAND_OBJ_NAME) == PartlyCleared(table, initial, 0)
  {
  }

  lemma ClearingSteps(table: JointTable, initial: map<string, SceneObject>, k: nat)
    requires ValidTable(table) && k < |table|
    ensures WithoutAnimation(PartlyCleared(table, initial, k), table[k].1) == PartlyCleared(table, initial, k + 1)
  {
    MarkerEntry(table, k);
  }

  lemma ClearingEnds(table: JointTable, initial: map<string, SceneObject>)
    requires ValidTable(table)
    ensures PartlyCleared(table, initial, |table|) == BakedObjects(table, initial, [])
  {
  }

  /** How many skeleton frames object `n` is keyed with once frame `f` has been keyed on the armature and on the markers of the first `m` table entries. */
  ghost function Stage(table: JointTable, n: string, m: int, f: nat): nat
  {
    if n == HAND_OBJ_NAME || 0 <= IndexOfName(table, n) < m then f + 1 else f
  }

  ghost function PartlyKeyed(table: JointTable, initial: map<string, SceneObject>, frames: seq<Frame>, f: nat, m: int): map<string, SceneObject>
    requires ValidTable(table) && WellFormedFrames(frames) && f < |frames|
  {
    map n | n in initial :: BakedObject(table, n, initial[n], frames[..Stage(table, n, m, f)])
  }

  lemma KeyingStarts(table: JointTable, initial: map<string, SceneObject>, frames: seq<Frame>, f: nat)
    requires ValidTable(table) && WellFormedFrames(frames) && f < |frames| && HAND_OBJ_NAME in initial
    ensures WithKey(BakedObjects(table, initial, frames[..f]), HAND_OBJ_NAME, ToBlender(frames[f][0]), FRAME_OFFSET + f)
            == PartlyKeyed(table, initial, frames, f, 0)
  {
    assert frames[..f + 1] == frames[..f] + [frames[f]];
    KeyNextFrame(initial[HAND_OBJ_NAME], 0, frames[..f], frames[f]);
    var before := BakedObjects(table, initial, frames[..f]);
    var after := WithKey(before, HAND_OBJ_NAME, ToBlender(frames[f][0]), FRAME_OFFSET + f);
    forall n | n in initial ensures after[n] == PartlyKeyed(table, initial, frames, f, 0)[n] {
      if n != HAND_OBJ_NAME {
        assert after[n] == before[n];
      }
    }
  }

  /** Keying the marker of table entry m leaves every other object at its stage. */
  lemma KeyingStepOther(table: JointTable, initial: map<string, SceneObject>, frames: seq<Frame>, f: nat, m: nat, n: string)
    requires ValidTable(table) && WellFormedFrames(frames) && f < |frames| && m < |table| && n in initial
    requires n != table[m].1
    ensures PartlyKeyed(table, initial, frames, f, m)[n] == PartlyKeyed(table, initial, frames, f, m + 1)[n]
  {
    MarkerEntry(table, m);
    assert Stage(table, n, m + 1, f) == Stage(table, n, m, f);
  }

  /** Keying the marker of table entry m moves it from f keyed frames to f + 1. */
  lemma KeyingStepSame(table: JointTable, initial: map<string, SceneObject>, frames: seq<Frame>, f: nat, m: nat)
    requires ValidTable(table) && WellFormedFrames(frames) && f < |frames| && m < |table| && table[m].1 in initial
    ensures var n := table[m].1;
            InsertKey(PartlyKeyed(table, initial, frames, f, m)[n].(location := ToBlender(frames[f][table[m].0])), FRAME_OFFSET + f)
            == PartlyKeyed(table, initial, frames, f, m + 1)[n]
  {
    var jIdx := table[m].0;
    var n := table[m].1;
    MarkerEntry(table, m);
    assert Stage(table, n, m + 1, f) == f + 1 && Stage(table, n, m, f) == f;
    assert frames[..f + 1] == frames[..f] + [frames[f]];
    assert PartlyKeyed(table, initial, frames, f, m)[n] == Keyed(initial[n], jIdx, frames[..f]);
    assert PartlyKeyed(table, initial, frames, f, m + 1)[n] == Keyed(initial[n], jIdx, frames[..f + 1]);
    KeyNextFrame(initial[n], jIdx, frames[..f], frames[f]);
  }

  lemma KeyingSteps(table: JointTable, initial: map<string, SceneObject>, frames: seq<Frame>, f: nat, m: nat)
    requires ValidTable(table) && WellFormedFrames(frames) && f < |frames| && m < |table|
    ensures WithKey(PartlyKeyed(table, initial, frames, f, m), table[m].1, ToBlender(frames[f][table[m].0]), FRAME_OFFSET + f)
            == PartlyKeyed(table, initial, frames, f, m + 1)
  {
    var after := WithKey(PartlyKeyed(table, initial, frames, f, m), table[m].1, ToBlender(frames[f][table[m].0]), FRAME_OFFSET + f);
    var next := PartlyKeyed(table, initial, frames, f, m + 1);
    forall n | n in initial ensures after[n] == next[n] {
      if n == table[m].1 {
        KeyingStepSame(table, initial, frames, f, m);
      } else {
        KeyingStepOther(table, initial, frames, f, m, n);
      }
    }
  }

  lemma KeyingEnds(table: JointTable, initial: map<string, SceneObject>, frames: seq<Frame>, f: nat)
    requires ValidTable(table) && WellFormedFrames(frames) && f < |frames|
    ensures PartlyKeyed(table, initial, frames, f, |table|) == BakedObjects(table, initial, frames[..f + 1])
  {
    var done := PartlyKeyed(table, initial, frames, f, |table|);
    forall n | n in initial ensures done[n] == BakedObject(table, n, initial[n], frames[..f + 1]) {
      if Stage(table, n, |table|, f) != f + 1 {
        assert DrivingJoint(table, n).None?;
      }
    }
  }

  // ---------------------------------------------------------------------
  // The scene
  // ---------------------------------------------------------------------

  class Scene {
    var frameStart: int
    var frameEnd: int
    var frameCurrent: int
    var objects: map<string, SceneObject>

    constructor (objects: map<string, SceneObject>, frameStart: int, frameEnd: int, frameCurrent: int)
      ensures this.objects == objects && this.frameStart == frameStart
      ensures this.frameEnd == frameEnd && this.frameCurrent == frameCurrent
    {
      this.objects := objects;
      this.frameStart := frameStart;
      this.frameEnd := frameEnd;
      this.frameCurrent := frameCurrent;
    }

    /** clear_anim(bpy.data.objects.get(name)): drops the object's animation data, if it exists and has any. */
    method ClearAnim(name: string)
      modifies this
      ensures objects == WithoutAnimation(old(objects), name)
      ensures frameStart == old(frameStart) && frameEnd == old(frameEnd) && frameCurrent == old(frameCurrent)
    {
      if name in objects && objects[name].anim.Some? {
        objects := objects[name := objects[name].(anim := None)];
      }
    }

    /** Moves the object called `name`, if the file has it, to `v` and keys its location at `frame`. */
    method KeyObject(name: string, v: Vec3, frame: int)
      modifies this
      ensures objects == WithKey(old(objects), name, v, frame)
      ensures frameStart == old(frameStart) && frameEnd == old(frameEnd) && frameCurrent == old(frameCurrent)
    {
      if name in objects {
        objects := objects[name := InsertKey(objects[name].(location := v), frame)];
      }
    }

    /** The clearing loop: clear_anim on the armature, then on each mapped marker. */
    method ClearMappedAnimations(table: JointTable)
      requires ValidTable(table)
      modifies this
      ensures objects == BakedObjects(table, old(objects), [])
      ensures frameStart == old(frameStart) && frameEnd == old(frameEnd) && frameCurrent == old(frameCurrent)
    {
      ghost var initial := objects;
      ClearAnim(HAND_OBJ_NAME);
      ClearingStarts(table, initial);
      var k := 0;
      while k < |table|
        invariant 0 <= k <= |table|
        invariant objects == PartlyCleared(table, initial, k)
        invariant frameStart == old(frameStart) && frameEnd == old(frameEnd) && frameCurrent == old(frameCurrent)
      {
        ClearingSteps(table, initial, k);
        ClearAnim(table[k].1);
        k := k + 1;
      }
      ClearingEnds(table, initial);
    }

    /** One iteration of the frame loop: set the current frame, transform the joints, key the armature and every present marker. */
    method KeyFrame(table: JointTable, ghost initial: map<string, SceneObject>, frames: seq<Frame>, f: nat)
      requires ValidTable(table) && WellFormedFrames(frames) && f < |frames|
      requires HAND_OBJ_NAME in initial
      requires objects == BakedObjects(table, initial, frames[..f])
      modifies this
      ensures objects == BakedObjects(table, initial, frames[..f + 1])
      ensures frameCurrent == FRAME_OFFSET + f
      ensures frameStart == old(frameStart) && frameEnd == old(frameEnd)
    {
      var frameNo := FRAME_OFFSET + f;
      frameCurrent := frameNo;
      var jointsBl := TransformJoints(frames[f]);
      KeyingStarts(table, initial, frames, f);
      KeyObject(HAND_OBJ_NAME, jointsBl[0], frameNo);
      var m := 0;
      while m < |table|
        invariant 0 <= m <= |table|
        invariant objects == PartlyKeyed(table, initial, frames, f, m)
        invariant frameCurrent == frameNo && frameStart == old(frameStart) && frameEnd == old(frameEnd)
      {
        var jIdx := table[m].0;
        var name := table[m].1;
        KeyingSteps(table, initial, frames, f, m);
        KeyObject(name, jointsBl[jIdx], frameNo);
        m := m + 1;
      }
      KeyingEnds(table, initial, frames, f);
    }

    /** The frame loop of the bake: frame i keyed at FRAME_OFFSET + i, in order. */
    method KeyFrames(table: JointTable, ghost initial: map<string, SceneObject>, frames: seq<Frame>)
      requires ValidTable(table) && WellFormedFrames(frames) && HAND_OBJ_NAME in initial
      requires objects == BakedObjects(table, initial, [])
      modifies this
      ensures objects == BakedObjects(table, initial, frames)
      ensures frameCurrent == if frames == [] then old(frameCurrent) else FRAME_OFFSET + |frames| - 1
      ensures frameStart == old(frameStart) && frameEnd == old(frameEnd)
    {
      var f := 0;
      assert frames[..0] == [];
      while f < |frames|
        invariant 0 <= f <= |frames|
        invariant objects == BakedObjects(table, initial, frames[..f])
        invariant frameStart == old(frameStart) && frameEnd == old(frameEnd)
        invariant frameCurrent == if f == 0 then old(frameCurrent) else FRAME_OFFSET + f - 1
      {
        KeyFrame(table, initial, frames, f);
        f := f + 1;
      }
      assert frames[..f] == frames;
    }

    /** bake(), reading the skeleton file from `lines` with `toReal` as float(). */
    method Bake(lines: seq<string>, toReal: string -> Option<real>) returns (r: BakeOutcome)
      modifies this
      ensures r.LoadFailed? <==> Load(lines, toReal).Failure?
      ensures r.LoadFailed? ==> r.error == Load(lines, toReal).error
      ensures r.HandMissing? <==> Load(lines, toReal).Success? && HAND_OBJ_NAME !in old(objects)
      ensures !r.Baked? ==> unchanged(this)
      ensures r.Baked? ==>
                var sk := Load(lines, toReal).value;
                && ValidTable(JOINT_TO_EMPTY)
                && WellFormedFrames(sk.frames)
                && r == Baked(|sk.frames|, sk.warnings, MissingMarkers(JOINT_TO_EMPTY, old(objects)))
                && frameStart == FRAME_OFFSET
                && frameEnd == FRAME_OFFSET + |sk.frames| - 1
                && frameCurrent == (if sk.frames == [] then old(frameCurrent) else FRAME_OFFSET + |sk.frames| - 1)
                && objects == BakedObjects(JOINT_TO_EMPTY, old(objects), sk.frames)
    {
      var loaded := LoadFphabSkeleton(lines, toReal);
      if loaded.Failure? {
        return LoadFailed(loaded.error);
      }
      var frames := loaded.value.frames;
      LoadedFramesWellFormed(lines, toReal);
      if HAND_OBJ_NAME !in objects {
        return HandMissing;
      }
      JointTableWellFormed();
      var table := JOINT_TO_EMPTY;
      ghost var initial := objects;

      ClearMappedAnimations(table);
      frameStart := FRAME_OFFSET;
      frameEnd := FRAME_OFFSET + |frames| - 1;

      var missing := FindMissingMarkers(table, objects);
      MissingMarkersDependOnNamesOnly(table, objects, initial);

      KeyFrames(table, initial, frames);
      r := Baked(|frames|, loaded.value.warnings, missing);
    }
  }
}
