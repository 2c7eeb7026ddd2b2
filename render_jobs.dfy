/**
 * render_animation_multi_cam in render.py: for each skin whose material
 * exists, for each camera named with CAM_PREFIX (in cam_sort_key order),
 * for each frame fs, fs + FRAME_STEP, ... <= fe, point the scene at that
 * material, camera, frame and output file and render a still. The
 * renders are recorded as RenderJob values, each a snapshot of the state
 * bpy.ops.render.render is invoked on.
 */
module RenderJobs {
  import opened Wrappers
  import opened Text
  import opened CameraOrder

  /** The configuration block at the top of render.py. */
  datatype Config = Config(
    actionLabel: string,
    baseOutputDir: string,
    camPrefix: string,
    skinNames: seq<string>,
    handMeshName: string,
    frameStart: Option<int>,   // None: take the scene's frame_start
    frameEnd: Option<int>,     // None: take the scene's frame_end
    frameStep: int,
    frameField: int -> string) // the frame number as written in file names: {fr:05d}

  const CONFIG: Config := Config(
    "wash_sponge",
    "/Users/bnabnubne/PROJECT/HandActivityRecognition/render_output",
    "Cam_",
    ["SkinA", "SkinB", "SkinC"],
    "HandMesh",
    None,
    None,
    1,
    fr => FormatZeroPadded(fr, 5))

  /** Distinct frames are written differently in file names. */
  ghost predicate FramesNamedApart(cfg: Config)
  {
    forall a: int, b: int :: cfg.frameField(a) == cfg.frameField(b) ==> a == b
  }

  /** The configured frame field is five-digit zero padding, and it tells frames apart. */
  lemma ConfiguredFrameField(fr: int)
    ensures CONFIG.frameField(fr) == FormatZeroPadded(fr, 5)
    ensures FramesNamedApart(CONFIG)
  {
    forall a: int, b: int | CONFIG.frameField(a) == CONFIG.frameField(b) ensures a == b {
      FormatZeroPaddedInjective(a, b, 5);
    }
  }

  /** range() needs a step; the model covers positive steps. */
  predicate ValidConfig(cfg: Config)
  {
    cfg.frameStep >= 1
  }

  datatype RenderError =
    | HandMeshMissing   // no object named HAND_MESH_NAME
    | NoCameras         // no camera whose name starts with CAM_PREFIX

  /** A call of bpy.ops.render.render: the hand's material, the scene camera, the current frame and render.filepath at that moment. */
  datatype RenderJob = RenderJob(material: Option<string>, camera: Option<string>, frame: int, filepath: string)

  function Last<T>(s: seq<T>): T
    requires s != []
  {
    s[|s| - 1]
  }

  // ---------------------------------------------------------------------
  // Paths
  // ---------------------------------------------------------------------

  /** os.path.join(a, b) on POSIX: an absolute `b` replaces `a`; otherwise a '/' is put between them unless `a` is empty or already ends with one. */
  function JoinPath(a: string, b: string): string
  {
    if b != [] && b[0] == '/' then b
    else if a == [] || a[|a| - 1] == '/' then a + b
    else a + "/" + b
  }

  lemma JoinPathPlain(a: string, b: string)
    requires a != [] && a[|a| - 1] != '/' && b != [] && b[0] != '/'
    ensures JoinPath(a, b) == a + "/" + b
    ensures JoinPath(a, b)[|JoinPath(a, b)| - 1] == b[|b| - 1]
  {
  }

  /** f"{action_label}_{cam.name}_{skin}_f{fr:05d}.png". */
  function OutputFile(cfg: Config, cam: string, skin: string, fr: int): string
  {
    cfg.actionLabel + "_" + cam + "_" + skin + "_f" + cfg.frameField(fr) + ".png"
  }

  /** os.path.join(os.path.join(base_output_dir, action_label), cam.name, skin). */
  function CameraDir(cfg: Config, cam: string, skin: string): string
  {
    JoinPath(JoinPath(JoinPath(cfg.baseOutputDir, cfg.actionLabel), cam), skin)
  }

  /** The still's file: the file name joined onto the camera and skin directory. */
  function OutputPath(cfg: Config, cam: string, skin: string, fr: int): string
  {
    JoinPath(CameraDir(cfg, cam, skin), OutputFile(cfg, cam, skin, fr))
  }

  /** For a camera selected by its prefix (whose name does not end in '/') the file lands in base/action/camera/skin/. */
  lemma OutputPathShape(cam: string, skin: string, fr: int)
    requires StartsWith(cam, CONFIG.camPrefix) && cam[|cam| - 1] != '/'
    requires skin in CONFIG.skinNames
    ensures OutputPath(CONFIG, cam, skin, fr) ==
              CONFIG.baseOutputDir + "/" + CONFIG.actionLabel + "/" + cam + "/" + skin + "/" + OutputFile(CONFIG, cam, skin, fr)
  {
    assert cam[0] == 'C';
    assert skin[0] == 'S' && skin[|skin| - 1] in "ABC";
    var base := CONFIG.baseOutputDir;
    var action := CONFIG.actionLabel;
    assert base[|base| - 1] == 't' && action[0] == 'w';
    JoinPathPlain(base, action);
    var outDir := JoinPath(base, action);
    JoinPathPlain(outDir, cam);
    JoinPathPlain(JoinPath(outDir, cam), skin);
    var file := OutputFile(CONFIG, cam, skin, fr);
    assert file[0] == 'w';
    JoinPathPlain(CameraDir(CONFIG, cam, skin), file);
  }

  /** The zero-padded field makes the file name name the frame: at least five digits, exactly five below 100000, and reading them back gives the frame. */
  lemma OutputFileFrameField(cam: string, skin: string, fr: int)
    ensures var field := FormatZeroPadded(fr, 5);
            && OutputFile(CONFIG, cam, skin, fr) == CONFIG.actionLabel + "_" + cam + "_" + skin + "_f" + field + ".png"
            && |field| >= 5
            && (0 <= fr < 100000 ==> |field| == 5)
            && (fr >= 0 ==> AllDigits(field) && DecimalValue(field) == fr)
  {
    ConfiguredFrameField(fr);
    FormatZeroPaddedRoundTrip(fr, 5);
    assert Pow10(5) == 100000;
  }

  /** Two frames of the same camera and skin never write the same file. */
  lemma OutputPathInjective(cfg: Config, cam: string, skin: string, f1: int, f2: int)
    requires FramesNamedApart(cfg)
    requires OutputPath(cfg, cam, skin, f1) == OutputPath(cfg, cam, skin, f2)
    ensures f1 == f2
  {
    var dir := CameraDir(cfg, cam, skin);
    var head := cfg.actionLabel + "_" + cam + "_" + skin + "_f";
    var x := cfg.frameField(f1);
    var y := cfg.frameField(f2);
    var a := OutputFile(cfg, cam, skin, f1);
    var b := OutputFile(cfg, cam, skin, f2);
    assert a == head + x + ".png" && b == head + y + ".png";
    assert a[0] == head[0] == b[0];
    JoinedTailsAgree(dir, a, b);
    assert |x| == |y|;
    assert a[|head|..|head| + |x|] == x;
    assert b[|head|..|head| + |y|] == y;
  }

  /** Joining two names that start alike onto the same directory gives equal paths only for equal names. */
  lemma JoinedTailsAgree(dir: string, a: string, b: string)
    requires a != [] && b != [] && a[0] == b[0]
    requires JoinPath(dir, a) == JoinPath(dir, b)
    ensures a == b
  {
    if a[0] == '/' {
    } else if dir == [] || dir[|dir| - 1] == '/' {
      assert (dir + a)[|dir|..] == a;
      assert (dir + b)[|dir|..] == b;
    } else {
      assert (dir + "/" + a)[|dir| + 1..] == a;
      assert (dir + "/" + b)[|dir| + 1..] == b;
    }
  }

  // ---------------------------------------------------------------------
  // Frames
  // ---------------------------------------------------------------------

  /** `FRAME_START if FRAME_START is not None else scene.frame_start`. */
  function ResolveFrame(setting: Option<int>, sceneValue: int): (fr: int)
    ensures setting.Some? ==> fr == setting.value
    ensures setting.None? ==> fr == sceneValue
  {
    if setting.Some? then setting.value else sceneValue
  }

  /** range(fs, fe + 1, step) for a positive step. */
  function FrameRange(fs: int, fe: int, step: int): seq<int>
    requires step >= 1
    decreases fe - fs + 1
  {
    if fs > fe then [] else [fs] + FrameRange(fs + step, fe, step)
  }

  /** The range is the progression fs, fs + step, ... up to its last term not above fe: empty exactly when fe < fs. */
  lemma {:induction false} FrameRangeExact(fs: int, fe: int, step: int)
    requires step >= 1
    ensures FrameRange(fs, fe, step) == [] <==> fe < fs
    ensures forall i :: 0 <= i < |FrameRange(fs, fe, step)| ==> FrameRange(fs, fe, step)[i] == fs + i * step
    ensures FrameRange(fs, fe, step) != [] ==> Last(FrameRange(fs, fe, step)) <= fe < Last(FrameRange(fs, fe, step)) + step
    decreases fe - fs + 1
  {
    if fs <= fe {
      var rest := FrameRange(fs + step, fe, step);
      FrameRangeExact(fs + step, fe, step);
      var r := FrameRange(fs, fe, step);
      assert r == [fs] + rest;
      forall i | 0 < i < |r| ensures r[i] == fs + i * step {
        assert r[i] == rest[i - 1] == fs + step + (i - 1) * step;
      }
    }
  }

  /** One pass of the frame loop moves the first frame of the rest onto the frames done. */
  lemma FrameRangeStep(done: seq<int>, fr: int, fe: int, step: int)
    requires step >= 1 && fr <= fe
    ensures done + FrameRange(fr, fe, step) == (done + [fr]) + FrameRange(fr + step, fe, step)
  {
    assert FrameRange(fr, fe, step) == [fr] + FrameRange(fr + step, fe, step);
    AppendAssociative(done, [fr], FrameRange(fr + step, fe, step));
  }

  /** With step 1 the range is fs, fs + 1, ..., fe: fe - fs + 1 frames, none when fe < fs. */
  lemma UnitStepRange(fs: int, fe: int)
    ensures |FrameRange(fs, fe, 1)| == if fe < fs then 0 else fe - fs + 1
    ensures forall x :: x in FrameRange(fs, fe, 1) <==> fs <= x <= fe
  {
    FrameRangeExact(fs, fe, 1);
    var r := FrameRange(fs, fe, 1);
    if r != [] {
      assert Last(r) == fs + |r| - 1;
    }
    forall x ensures x in r <==> fs <= x <= fe {
      if fs <= x <= fe {
        assert r[x - fs] == x;
      }
    }
  }

  /** The frame range of a run: the configured bounds, or the scene's where they are None. */
  function PlanFrames(cfg: Config, frameStart: int, frameEnd: int): seq<int>
    requires ValidConfig(cfg)
  {
    FrameRange(ResolveFrame(cfg.frameStart, frameStart), ResolveFrame(cfg.frameEnd, frameEnd), cfg.frameStep)
  }

  /** With the shipped configuration the run covers exactly the scene's frames frame_start .. frame_end. */
  lemma ConfiguredFramesAreSceneRange(frameStart: int, frameEnd: int)
    ensures ValidConfig(CONFIG)
    ensures PlanFrames(CONFIG, frameStart, frameEnd) == FrameRange(frameStart, frameEnd, 1)
    ensures forall x :: x in PlanFrames(CONFIG, frameStart, frameEnd) <==> frameStart <= x <= frameEnd
  {
    UnitStepRange(frameStart, frameEnd);
  }

  // ---------------------------------------------------------------------
  // The job sequence
  // ---------------------------------------------------------------------

  /** The skins whose material exists, in configuration order (the others are skipped with a warning). */
  function PresentSkins(skins: seq<string>, materials: set<string>): (r: seq<string>)
    ensures forall s :: s in r <==> s in skins && s in materials
    ensures |r| <= |skins|
  {
    if skins == [] then []
    else
      var front := skins[..|skins| - 1];
      assert skins == front + [Last(skins)];
      PresentSkins(front, materials) + (if Last(skins) in materials then [Last(skins)] else [])
  }

  /** The positions in `skins` of the skins whose material exists, in increasing order. */
  function PresentPositions(skins: seq<string>, materials: set<string>): seq<nat>
  {
    if skins == [] then []
    else PresentPositions(skins[..|skins| - 1], materials) + (if Last(skins) in materials then [|skins| - 1] else [])
  }

  /** `idx` picks out of `skins`, in increasing order, exactly the positions whose skin is in `materials`, and `r` holds those skins. */
  ghost predicate PicksPresent(skins: seq<string>, materials: set<string>, r: seq<string>, idx: seq<nat>)
  {
    && |idx| == |r|
    && (forall k :: 0 <= k < |idx| ==> idx[k] < |skins| && r[k] == skins[idx[k]])
    && (forall k, l :: 0 <= k < l < |idx| ==> idx[k] < idx[l])
    && (forall i :: 0 <= i < |skins| ==> (i in idx <==> skins[i] in materials))
  }

  /** Extending the skin list by one keeps the picking property when the new position is picked exactly if present. */
  lemma PicksPresentSnoc(skins: seq<string>, x: string, materials: set<string>, r: seq<string>, idx: seq<nat>)
    requires PicksPresent(skins, materials, r, idx)
    ensures var present := x in materials;
            PicksPresent(skins + [x], materials,
                         r + (if present then [x] else []), idx + (if present then [|skins|] else []))
  {
    var s' := skins + [x];
    var r' := r + (if x in materials then [x] else []);
    var idx' := idx + (if x in materials then [|skins|] else []);
    forall k | 0 <= k < |idx'|
      ensures idx'[k] < |s'| && r'[k] == s'[idx'[k]]
    {
      if k < |idx| {
        assert idx'[k] == idx[k] && r'[k] == r[k];
      }
    }
    forall k, l | 0 <= k < l < |idx'|
      ensures idx'[k] < idx'[l]
    {
      assert idx'[k] == idx[k];
      if l < |idx| {
        assert idx'[l] == idx[l];
      }
    }
    forall i | 0 <= i < |s'|
      ensures i in idx' <==> s'[i] in materials
    {
      if i < |skins| {
        assert s'[i] == skins[i];
        assert i in idx' <==> i in idx;
      }
    }
  }

  /**
   * The skin loop keeps the configuration order and the multiplicity of `skin_names`: the rendered
   * skins are `skins` at the positions whose material exists, each position once, in increasing order.
   */
  lemma {:induction false} PresentSkinsInOrder(skins: seq<string>, materials: set<string>)
    ensures var r := PresentSkins(skins, materials);
            var idx := PresentPositions(skins, materials);
            && |idx| == |r|
            && (forall k :: 0 <= k < |idx| ==> idx[k] < |skins| && r[k] == skins[idx[k]])
            && (forall k, l :: 0 <= k < l < |idx| ==> idx[k] < idx[l])
            && (forall i :: 0 <= i < |skins| ==> (i in idx <==> skins[i] in materials))
  {
    if skins != [] {
      var front := skins[..|skins| - 1];
      PresentSkinsInOrder(front, materials);
      PicksPresentSnoc(front, Last(skins), materials, PresentSkins(front, materials), PresentPositions(front, materials));
      assert front + [Last(skins)] == skins;
    }
  }

  /** One iteration of the innermost loop: a skin, a camera and a frame. */
  datatype Shot = Shot(skin: string, camera: string, frame: int)

  /** The rows of `xss` one after the other: the order of a loop whose body emits row k on pass k. */
  function Flatten<T>(xss: seq<seq<T>>): seq<T>
  {
    if xss == [] then [] else Flatten(xss[..|xss| - 1]) + Last(xss)
  }

  lemma FlattenSnoc<T>(xss: seq<seq<T>>, row: seq<T>)
    ensures Flatten(xss + [row]) == Flatten(xss) + row
  {
    assert (xss + [row])[..|xss|] == xss;
  }

  /** Rows added after the first n leave the positions of those rows alone. */
  lemma {:induction false} FlattenKeepsPrefix<T>(xss: seq<seq<T>>, n: nat, i: nat)
    requires n <= |xss| && i < |Flatten(xss[..n])|
    ensures i < |Flatten(xss)| && Flatten(xss)[i] == Flatten(xss[..n])[i]
  {
    if n < |xss| {
      var front := xss[..|xss| - 1];
      assert front[..n] == xss[..n];
      FlattenKeepsPrefix(front, n, i);
    } else {
      assert xss[..n] == xss;
    }
  }

  /** Element j of row k sits right after the rows before k. */
  lemma FlattenAt<T>(xss: seq<seq<T>>, k: nat, j: nat)
    requires k < |xss| && j < |xss[k]|
    ensures |Flatten(xss[..k])| + j < |Flatten(xss)|
    ensures Flatten(xss)[|Flatten(xss[..k])| + j] == xss[k][j]
  {
    var pre := Flatten(xss[..k]);
    assert xss[..k + 1] == xss[..k] + [xss[k]];
    FlattenSnoc(xss[..k], xss[k]);
    assert Flatten(xss[..k + 1])[|pre| + j] == xss[k][j];
    FlattenKeepsPrefix(xss, k + 1, |pre| + j);
  }

  /** Rows of one width w flatten to |xss| * w elements. */
  lemma {:induction false} FlattenLength<T>(xss: seq<seq<T>>, w: nat)
    requires forall k :: 0 <= k < |xss| ==> |xss[k]| == w
    ensures |Flatten(xss)| == |xss| * w
  {
    if xss != [] {
      FlattenLength(xss[..|xss| - 1], w);
      assert (|xss| - 1) * w + w == |xss| * w;
    }
  }

  /** Every element of the flattening comes from some row. */
  lemma {:induction false} FlattenFrom<T>(xss: seq<seq<T>>, x: nat)
    requires x < |Flatten(xss)|
    ensures exists k, j :: 0 <= k < |xss| && 0 <= j < |xss[k]| && Flatten(xss)[x] == xss[k][j]
  {
    var front := xss[..|xss| - 1];
    if x < |Flatten(front)| {
      FlattenFrom(front, x);
      var k, j :| 0 <= k < |front| && 0 <= j < |front[k]| && Flatten(front)[x] == front[k][j];
      assert front[k] == xss[k];
    } else {
      var k := |xss| - 1;
      var j := x - |Flatten(front)|;
      assert Flatten(xss)[x] == xss[k][j];
    }
  }

  /** The innermost loop: one camera, one skin, every frame. */
  function FrameShots(skin: string, cam: string, frames: seq<int>): seq<Shot>
  {
    seq(|frames|, f requires 0 <= f < |frames| => Shot(skin, cam, frames[f]))
  }

  /** The passes of the middle loop, one row of frames per camera. */
  function CameraRows(skin: string, cams: seq<string>, frames: seq<int>): seq<seq<Shot>>
  {
    seq(|cams|, c requires 0 <= c < |cams| => FrameShots(skin, cams[c], frames))
  }

  /** The middle loop: one skin, every camera. */
  function CameraShots(skin: string, cams: seq<string>, frames: seq<int>): seq<Shot>
  {
    Flatten(CameraRows(skin, cams, frames))
  }

  /** The passes of the outer loop, one row of camera shots per skin. */
  function SkinRows(skins: seq<string>, cams: seq<string>, frames: seq<int>): seq<seq<Shot>>
  {
    seq(|skins|, k requires 0 <= k < |skins| => CameraShots(skins[k], cams, frames))
  }

  /** The outer loop over the skins that are present. */
  function SkinShots(skins: seq<string>, cams: seq<string>, frames: seq<int>): seq<Shot>
  {
    Flatten(SkinRows(skins, cams, frames))
  }

  /** The render of a shot: the skin's material on the hand, the shot's camera and frame, and its output path. */
  function JobOf(cfg: Config, shot: Shot): RenderJob
  {
    RenderJob(Some(shot.skin), Some(shot.camera), shot.frame, OutputPath(cfg, shot.camera, shot.skin, shot.frame))
  }

  function Jobs(cfg: Config, shots: seq<Shot>): (r: seq<RenderJob>)
    ensures |r| == |shots| && forall i :: 0 <= i < |shots| ==> r[i] == JobOf(cfg, shots[i])
  {
    seq(|shots|, i requires 0 <= i < |shots| => JobOf(cfg, shots[i]))
  }

  lemma AppendAssociative<T>(a: seq<T>, b: seq<T>, c: seq<T>)
    ensures (a + b) + c == a + (b + c)
  {
  }

  lemma JobsAppend(cfg: Config, xs: seq<Shot>, ys: seq<Shot>)
    ensures Jobs(cfg, xs + ys) == Jobs(cfg, xs) + Jobs(cfg, ys)
  {
    var l := Jobs(cfg, xs + ys);
    var r := Jobs(cfg, xs) + Jobs(cfg, ys);
    forall i | 0 <= i < |l| ensures l[i] == r[i] {
      if i < |xs| {
        assert (xs + ys)[i] == xs[i];
      } else {
        assert (xs + ys)[i] == ys[i - |xs|];
      }
    }
  }

  lemma FrameJobsSnoc(cfg: Config, skin: string, cam: string, frames: seq<int>, fr: int)
    ensures Jobs(cfg, FrameShots(skin, cam, frames + [fr])) == Jobs(cfg, FrameShots(skin, cam, frames)) + [JobOf(cfg, Shot(skin, cam, fr))]
  {
    assert FrameShots(skin, cam, frames + [fr]) == FrameShots(skin, cam, frames) + [Shot(skin, cam, fr)];
    JobsAppend(cfg, FrameShots(skin, cam, frames), [Shot(skin, cam, fr)]);
  }

  lemma CameraShotsSnoc(skin: string, cams: seq<string>, frames: seq<int>, c: nat)
    requires c < |cams|
    ensures CameraShots(skin, cams[..c + 1], frames) == CameraShots(skin, cams[..c], frames) + FrameShots(skin, cams[c], frames)
  {
    assert CameraRows(skin, cams[..c + 1], frames) == CameraRows(skin, cams[..c], frames) + [FrameShots(skin, cams[c], frames)];
    FlattenSnoc(CameraRows(skin, cams[..c], frames), FrameShots(skin, cams[c], frames));
  }

  lemma CameraJobsSnoc(cfg: Config, skin: string, cams: seq<string>, c: nat, frames: seq<int>)
    requires c < |cams|
    ensures Jobs(cfg, CameraShots(skin, cams[..c + 1], frames)) == Jobs(cfg, CameraShots(skin, cams[..c], frames)) + Jobs(cfg, FrameShots(skin, cams[c], frames))
  {
    CameraShotsSnoc(skin, cams, frames, c);
    JobsAppend(cfg, CameraShots(skin, cams[..c], frames), FrameShots(skin, cams[c], frames));
  }

  lemma SkinShotsSnoc(skins: seq<string>, skin: string, cams: seq<string>, frames: seq<int>)
    ensures SkinShots(skins + [skin], cams, frames) == SkinShots(skins, cams, frames) + CameraShots(skin, cams, frames)
  {
    assert SkinRows(skins + [skin], cams, frames) == SkinRows(skins, cams, frames) + [CameraShots(skin, cams, frames)];
    FlattenSnoc(SkinRows(skins, cams, frames), CameraShots(skin, cams, frames));
  }

  lemma SkinJobsSnoc(cfg: Config, skins: seq<string>, k: nat, materials: set<string>, cams: seq<string>, frames: seq<int>)
    requires k < |skins|
    ensures var P := PresentSkins(skins[..k], materials);
            && PresentSkins(skins[..k + 1], materials) == (if skins[k] in materials then P + [skins[k]] else P)
            && Jobs(cfg, SkinShots(PresentSkins(skins[..k + 1], materials), cams, frames)) ==
                 Jobs(cfg, SkinShots(P, cams, frames)) + (if skins[k] in materials then Jobs(cfg, CameraShots(skins[k], cams, frames)) else [])
  {
    var P := PresentSkins(skins[..k], materials);
    assert skins[..k + 1][..k] == skins[..k] && Last(skins[..k + 1]) == skins[k];
    if skins[k] in materials {
      SkinShotsSnoc(P, skins[k], cams, frames);
      JobsAppend(cfg, SkinShots(P, cams, frames), CameraShots(skins[k], cams, frames));
    }
  }

  lemma FrameShotsAt(skin: string, cam: string, frames: seq<int>)
    ensures |FrameShots(skin, cam, frames)| == |frames|
    ensures forall f :: 0 <= f < |frames| ==> FrameShots(skin, cam, frames)[f] == Shot(skin, cam, frames[f])
  {
  }

  lemma CameraShotsLength(skin: string, cams: seq<string>, frames: seq<int>)
    ensures |CameraShots(skin, cams, frames)| == |cams| * |frames|
  {
    FlattenLength(CameraRows(skin, cams, frames), |frames|);
  }

  lemma SkinShotsLength(skins: seq<string>, cams: seq<string>, frames: seq<int>)
    ensures |SkinShots(skins, cams, frames)| == |skins| * (|cams| * |frames|)
  {
    var rows := SkinRows(skins, cams, frames);
    forall k | 0 <= k < |rows| ensures |rows[k]| == |cams| * |frames| {
      CameraShotsLength(skins[k], cams, frames);
    }
    FlattenLength(rows, |cams| * |frames|);
  }

  /** Shot c * |frames| + f of one skin is camera c at frame f. */
  lemma CameraShotAt(skin: string, cams: seq<string>, frames: seq<int>, c: nat, f: nat)
    requires c < |cams| && f < |frames|
    ensures c * |frames| + f < |CameraShots(skin, cams, frames)|
    ensures CameraShots(skin, cams, frames)[c * |frames| + f] == Shot(skin, cams[c], frames[f])
  {
    var rows := CameraRows(skin, cams, frames);
    FlattenAt(rows, c, f);
    assert rows[..c] == CameraRows(skin, cams[..c], frames);
    CameraShotsLength(skin, cams[..c], frames);
  }

  /** The position of skin k, camera c, frame f in the flattened triple loop over `cams` cameras and `frames` frames per skin. */
  function ShotIndex(k: nat, c: nat, f: nat, cams: nat, frames: nat): nat
  {
    k * (cams * frames) + (c * frames + f)
  }

  /** Shot ShotIndex(k, c, f, |cams|, |frames|) is skin k through camera c at frame f: skins outermost, then cameras, then frames. */
  lemma SkinShotAt(skins: seq<string>, cams: seq<string>, frames: seq<int>, k: nat, c: nat, f: nat)
    requires k < |skins| && c < |cams| && f < |frames|
    ensures ShotIndex(k, c, f, |cams|, |frames|) < |SkinShots(skins, cams, frames)|
    ensures SkinShots(skins, cams, frames)[ShotIndex(k, c, f, |cams|, |frames|)] == Shot(skins[k], cams[c], frames[f])
  {
    var rows := SkinRows(skins, cams, frames);
    var j := c * |frames| + f;
    CameraShotAt(skins[k], cams, frames, c, f);
    FlattenAt(rows, k, j);
    assert rows[..k] == SkinRows(skins[..k], cams, frames);
    SkinShotsLength(skins[..k], cams, frames);
  }

  /** Every shot of one skin is one of its cameras at one of the frames; the converse of CameraShotAt. */
  lemma CameraShotsFrom(skin: string, cams: seq<string>, frames: seq<int>, x: nat)
    requires x < |CameraShots(skin, cams, frames)|
    ensures var shot := CameraShots(skin, cams, frames)[x];
            shot.skin == skin && shot.camera in cams && shot.frame in frames
  {
    var rows := CameraRows(skin, cams, frames);
    FlattenFrom(rows, x);
    var c, f :| 0 <= c < |rows| && 0 <= f < |rows[c]| && Flatten(rows)[x] == rows[c][f];
    assert rows[c][f] == Shot(skin, cams[c], frames[f]);
  }

  /** Every shot is one of the skins through one of the cameras at one of the frames; the converse of SkinShotAt. */
  lemma SkinShotsFrom(skins: seq<string>, cams: seq<string>, frames: seq<int>, x: nat)
    requires x < |SkinShots(skins, cams, frames)|
    ensures var shot := SkinShots(skins, cams, frames)[x];
            shot.skin in skins && shot.camera in cams && shot.frame in frames
  {
    var rows := SkinRows(skins, cams, frames);
    FlattenFrom(rows, x);
    var k, j :| 0 <= k < |rows| && 0 <= j < |rows[k]| && Flatten(rows)[x] == rows[k][j];
    CameraShotsFrom(skins[k], cams, frames, j);
  }

  // ---------------------------------------------------------------------
  // The plan of a whole run
  // ---------------------------------------------------------------------

  predicate HasObjectNamed(objs: seq<BlendObject>, name: string)
  {
    exists i :: 0 <= i < |objs| && objs[i].name == name
  }

  function Names(cams: seq<BlendObject>): (r: seq<string>)
    ensures |r| == |cams| && forall i :: 0 <= i < |cams| ==> r[i] == cams[i].name
  {
    seq(|cams|, i requires 0 <= i < |cams| => cams[i].name)
  }

  /** The names of the cameras, in render order. */
  function PlanCameras(cfg: Config, objs: seq<BlendObject>): seq<string>
  {
    Names(GetCamerasByPrefix(cfg.camPrefix, objs))
  }

  /** The shots of a successful run. */
  function PlanShots(cfg: Config, objs: seq<BlendObject>, materials: set<string>, frameStart: int, frameEnd: int): seq<Shot>
    requires ValidConfig(cfg)
  {
    SkinShots(PresentSkins(cfg.skinNames, materials), PlanCameras(cfg, objs), PlanFrames(cfg, frameStart, frameEnd))
  }

  /** What a run renders, or why it raises before rendering anything: a missing hand mesh first, then an empty camera list. */
  function RenderPlan(cfg: Config, objs: seq<BlendObject>, materials: set<string>, frameStart: int, frameEnd: int): (r: Result<seq<RenderJob>, RenderError>)
    requires ValidConfig(cfg)
    ensures r == Failure(HandMeshMissing) <==> !HasObjectNamed(objs, cfg.handMeshName)
    ensures r == Failure(NoCameras) <==>
              HasObjectNamed(objs, cfg.handMeshName) && forall o :: o in objs ==> !IsPrefixedCamera(cfg.camPrefix, o)
  {
    if !HasObjectNamed(objs, cfg.handMeshName) then Failure(HandMeshMissing)
    else if PlanCameras(cfg, objs) == [] then Failure(NoCameras)
    else Success(Jobs(cfg, PlanShots(cfg, objs, materials, frameStart, frameEnd)))
  }

  /** A successful run renders |P| * |C| * |F| stills, with P the present skins, C the cameras and F the frames. */
  lemma RenderPlanLength(cfg: Config, objs: seq<BlendObject>, materials: set<string>, frameStart: int, frameEnd: int)
    requires ValidConfig(cfg)
    requires RenderPlan(cfg, objs, materials, frameStart, frameEnd).Success?
    ensures |RenderPlan(cfg, objs, materials, frameStart, frameEnd).value| ==
              |PresentSkins(cfg.skinNames, materials)| * (|PlanCameras(cfg, objs)| * |PlanFrames(cfg, frameStart, frameEnd)|)
  {
    SkinShotsLength(PresentSkins(cfg.skinNames, materials), PlanCameras(cfg, objs), PlanFrames(cfg, frameStart, frameEnd));
  }

  /**
   * The jobs of a successful run, in order: job ShotIndex(s, c, f, |C|, |F|)
   * renders skin P[s] through camera C[c] at frame F[f], to that triple's
   * output path. Skins vary slowest, frames fastest.
   */
  lemma RenderPlanJobs(cfg: Config, objs: seq<BlendObject>, materials: set<string>, frameStart: int, frameEnd: int, s: nat, c: nat, f: nat)
    requires ValidConfig(cfg)
    requires RenderPlan(cfg, objs, materials, frameStart, frameEnd).Success?
    requires s < |PresentSkins(cfg.skinNames, materials)| && c < |PlanCameras(cfg, objs)| && f < |PlanFrames(cfg, frameStart, frameEnd)|
    ensures var jobs := RenderPlan(cfg, objs, materials, frameStart, frameEnd).value;
            var P := PresentSkins(cfg.skinNames, materials);
            var C := PlanCameras(cfg, objs);
            var F := PlanFrames(cfg, frameStart, frameEnd);
            && ShotIndex(s, c, f, |C|, |F|) < |jobs|
            && jobs[ShotIndex(s, c, f, |C|, |F|)] == JobOf(cfg, Shot(P[s], C[c], F[f]))
  {
    SkinShotAt(PresentSkins(cfg.skinNames, materials), PlanCameras(cfg, objs), PlanFrames(cfg, frameStart, frameEnd), s, c, f);
  }

  /** Every job of a successful run renders a present skin through a selected camera at a frame of the range, to that triple's output path. */
  lemma RenderPlanJobsAreShots(cfg: Config, objs: seq<BlendObject>, materials: set<string>, frameStart: int, frameEnd: int, x: nat)
    requires ValidConfig(cfg)
    requires RenderPlan(cfg, objs, materials, frameStart, frameEnd).Success?
    requires x < |RenderPlan(cfg, objs, materials, frameStart, frameEnd).value|
    ensures var j := RenderPlan(cfg, objs, materials, frameStart, frameEnd).value[x];
            && j.material.Some? && j.camera.Some?
            && j.material.value in cfg.skinNames && j.material.value in materials
            && j.camera.value in PlanCameras(cfg, objs)
            && j.frame in PlanFrames(cfg, frameStart, frameEnd)
            && j.filepath == OutputPath(cfg, j.camera.value, j.material.value, j.frame)
  {
    SkinShotsFrom(PresentSkins(cfg.skinNames, materials), PlanCameras(cfg, objs), PlanFrames(cfg, frameStart, frameEnd), x);
  }

  /** Skins whose material is missing contribute no job and do not abort the run. */
  lemma MissingSkinsSkipped(cfg: Config, objs: seq<BlendObject>, materials: set<string>, frameStart: int, frameEnd: int)
    requires ValidConfig(cfg)
    requires RenderPlan(cfg, objs, materials, frameStart, frameEnd).Success?
    ensures forall j :: j in RenderPlan(cfg, objs, materials, frameStart, frameEnd).value ==>
              j.material.Some? && j.material.value in cfg.skinNames && j.material.value in materials
  {
    var jobs := RenderPlan(cfg, objs, materials, frameStart, frameEnd).value;
    forall j | j in jobs ensures j.material.Some? && j.material.value in cfg.skinNames && j.material.value in materials {
      var x :| 0 <= x < |jobs| && jobs[x] == j;
      RenderPlanJobsAreShots(cfg, objs, materials, frameStart, frameEnd, x);
    }
  }

  /** Every present skin is rendered through every selected camera whenever the frame range is not empty. */
  lemma PresentSkinsRendered(cfg: Config, objs: seq<BlendObject>, materials: set<string>, frameStart: int, frameEnd: int, skin: string, cam: string)
    requires ValidConfig(cfg)
    requires RenderPlan(cfg, objs, materials, frameStart, frameEnd).Success?
    requires skin in cfg.skinNames && skin in materials && cam in PlanCameras(cfg, objs) && PlanFrames(cfg, frameStart, frameEnd) != []
    ensures exists j :: j in RenderPlan(cfg, objs, materials, frameStart, frameEnd).value && j.material == Some(skin) && j.camera == Some(cam)
  {
    var jobs := RenderPlan(cfg, objs, materials, frameStart, frameEnd).value;
    var P := PresentSkins(cfg.skinNames, materials);
    var C := PlanCameras(cfg, objs);
    var F := PlanFrames(cfg, frameStart, frameEnd);
    var k :| 0 <= k < |P| && P[k] == skin;
    var c :| 0 <= c < |C| && C[c] == cam;
    RenderPlanJobs(cfg, objs, materials, frameStart, frameEnd, k, c, 0);
    var x := ShotIndex(k, c, 0, |C|, |F|);
    assert jobs[x] in jobs;
  }

  /** The frames of a range strictly increase. */
  lemma {:induction false} FrameRangeIncreasing(fs: int, fe: int, step: int)
    requires step >= 1
    ensures forall a, b :: 0 <= a < b < |FrameRange(fs, fe, step)| ==> FrameRange(fs, fe, step)[a] < FrameRange(fs, fe, step)[b]
    ensures forall a :: 0 <= a < |FrameRange(fs, fe, step)| ==> fs <= FrameRange(fs, fe, step)[a]
    decreases fe - fs + 1
  {
    if fs <= fe {
      FrameRangeIncreasing(fs + step, fe, step);
      var r := FrameRange(fs, fe, step);
      var rest := FrameRange(fs + step, fe, step);
      assert r == [fs] + rest;
      assert forall a :: 0 < a < |r| ==> r[a] == rest[a - 1];
    }
  }

  /** Within one camera and skin the frames are rendered in increasing order, each to its own file. */
  lemma FramesIncreaseAndFilesDiffer(cfg: Config, skin: string, cam: string, fs: int, fe: int, step: int)
    requires step >= 1 && FramesNamedApart(cfg)
    ensures var jobs := Jobs(cfg, FrameShots(skin, cam, FrameRange(fs, fe, step)));
            forall a, b :: 0 <= a < b < |jobs| ==> jobs[a].frame < jobs[b].frame && jobs[a].filepath != jobs[b].filepath
  {
    var frames := FrameRange(fs, fe, step);
    FrameRangeIncreasing(fs, fe, step);
    FrameShotsAt(skin, cam, frames);
    var jobs := Jobs(cfg, FrameShots(skin, cam, frames));
    forall a, b | 0 <= a < b < |jobs| ensures jobs[a].frame < jobs[b].frame && jobs[a].filepath != jobs[b].filepath {
      assert jobs[a] == JobOf(cfg, Shot(skin, cam, frames[a]));
      assert jobs[b] == JobOf(cfg, Shot(skin, cam, frames[b]));
      if jobs[a].filepath == jobs[b].filepath {
        OutputPathInjective(cfg, cam, skin, frames[a], frames[b]);
      }
    }
  }

  // ---------------------------------------------------------------------
  // The render loops over the scene state
  // ---------------------------------------------------------------------

  class Renderer {
    const cfg: Config
    var objects: seq<BlendObject>
    var materials: set<string>
    var frameStart: int
    var frameEnd: int
    var frameCurrent: int
    /** hand_obj.active_material */
    var handMaterial: Option<string>
    /** scene.camera */
    var camera: Option<string>
    /** scene.render.filepath */
    var filepath: string
    /** The stills rendered so far. */
    var rendered: seq<RenderJob>

    constructor (cfg: Config, objects: seq<BlendObject>, materials: set<string>, frameStart: int, frameEnd: int, frameCurrent: int)
      requires ValidConfig(cfg)
      ensures this.cfg == cfg && ValidConfig(this.cfg)
      ensures this.objects == objects && this.materials == materials
      ensures this.frameStart == frameStart && this.frameEnd == frameEnd && this.frameCurrent == frameCurrent
      ensures handMaterial == None && camera == None && filepath == [] && rendered == []
    {
      this.cfg := cfg;
      this.objects := objects;
      this.materials := materials;
      this.frameStart := frameStart;
      this.frameEnd := frameEnd;
      this.frameCurrent := frameCurrent;
      handMaterial := None;
      camera := None;
      filepath := [];
      rendered := [];
    }

    /** bpy.ops.render.render(write_still=True): one still of the current state. */
    method Render()
      modifies this
      ensures rendered == old(rendered) + [RenderJob(handMaterial, camera, frameCurrent, filepath)]
      ensures objects == old(objects) && materials == old(materials)
      ensures frameStart == old(frameStart) && frameEnd == old(frameEnd) && frameCurrent == old(frameCurrent)
      ensures handMaterial == old(handMaterial) && camera == old(camera) && filepath == old(filepath)
    {
      rendered := rendered + [RenderJob(handMaterial, camera, frameCurrent, filepath)];
    }

    /** One pass of the innermost loop: go to frame fr, point render.filepath at its file and render. */
    method RenderFrame(skin: string, cam: string, fr: int)
      requires handMaterial == Some(skin) && camera == Some(cam)
      modifies this
      ensures rendered == old(rendered) + [JobOf(cfg, Shot(skin, cam, fr))]
      ensures frameCurrent == fr && filepath == OutputPath(cfg, cam, skin, fr)
      ensures objects == old(objects) && materials == old(materials)
      ensures frameStart == old(frameStart) && frameEnd == old(frameEnd)
      ensures handMaterial == old(handMaterial) && camera == old(camera)
    {
      frameCurrent := fr;
      filepath := OutputPath(cfg, cam, skin, fr);
      Render();
    }

    /** The innermost loop: every frame of the range through the current camera and material. */
    method RenderFrames(skin: string, cam: string, fs: int, fe: int)
      requires ValidConfig(cfg) && handMaterial == Some(skin) && camera == Some(cam)
      modifies this
      ensures rendered == old(rendered) + Jobs(cfg, FrameShots(skin, cam, FrameRange(fs, fe, cfg.frameStep)))
      ensures FrameRange(fs, fe, cfg.frameStep) == [] ==> frameCurrent == old(frameCurrent) && filepath == old(filepath)
      ensures FrameRange(fs, fe, cfg.frameStep) != [] ==>
                var last := Last(FrameRange(fs, fe, cfg.frameStep));
                frameCurrent == last && filepath == OutputPath(cfg, cam, skin, last)
      ensures objects == old(objects) && materials == old(materials)
      ensures frameStart == old(frameStart) && frameEnd == old(frameEnd)
      ensures handMaterial == old(handMaterial) && camera == old(camera)
    {
      ghost var all := FrameRange(fs, fe, cfg.frameStep);
      ghost var done: seq<int> := [];
      var fr := fs;
      while fr <= fe
        invariant done + FrameRange(fr, fe, cfg.frameStep) == all
        invariant rendered == old(rendered) + Jobs(cfg, FrameShots(skin, cam, done))
        invariant done == [] ==> frameCurrent == old(frameCurrent) && filepath == old(filepath)
        invariant done != [] ==> frameCurrent == Last(done) && filepath == OutputPath(cfg, cam, skin, Last(done))
        invariant objects == old(objects) && materials == old(materials)
        invariant frameStart == old(frameStart) && frameEnd == old(frameEnd)
        invariant handMaterial == Some(skin) && camera == Some(cam)
        decreases fe - fr
      {
        RenderFrame(skin, cam, fr);
        FrameJobsSnoc(cfg, skin, cam, done, fr);
        AppendAssociative(old(rendered), Jobs(cfg, FrameShots(skin, cam, done)), [JobOf(cfg, Shot(skin, cam, fr))]);
        FrameRangeStep(done, fr, fe, cfg.frameStep);
        done := done + [fr];
        fr := fr + cfg.frameStep;
      }
      assert done == all;
    }

    /** The middle loop: every camera, for the current material. */
    method RenderCameras(skin: string, cams: seq<string>, fs: int, fe: int)
      requires ValidConfig(cfg) && handMaterial == Some(skin)
      modifies this
      ensures rendered == old(rendered) + Jobs(cfg, CameraShots(skin, cams, FrameRange(fs, fe, cfg.frameStep)))
      ensures camera == (if cams == [] then old(camera) else Some(Last(cams)))
      ensures cams == [] || FrameRange(fs, fe, cfg.frameStep) == [] ==> frameCurrent == old(frameCurrent) && filepath == old(filepath)
      ensures cams != [] && FrameRange(fs, fe, cfg.frameStep) != [] ==>
                var last := Last(FrameRange(fs, fe, cfg.frameStep));
                frameCurrent == last && filepath == OutputPath(cfg, Last(cams), skin, last)
      ensures objects == old(objects) && materials == old(materials)
      ensures frameStart == old(frameStart) && frameEnd == old(frameEnd)
      ensures handMaterial == old(handMaterial)
    {
      ghost var frames := FrameRange(fs, fe, cfg.frameStep);
      var c := 0;
      while c < |cams|
        invariant 0 <= c <= |cams|
        invariant rendered == old(rendered) + Jobs(cfg, CameraShots(skin, cams[..c], frames))
        invariant camera == (if c == 0 then old(camera) else Some(cams[c - 1]))
        invariant c == 0 || frames == [] ==> frameCurrent == old(frameCurrent) && filepath == old(filepath)
        invariant c > 0 && frames != [] ==> frameCurrent == Last(frames) && filepath == OutputPath(cfg, cams[c - 1], skin, Last(frames))
        invariant objects == old(objects) && materials == old(materials)
        invariant frameStart == old(frameStart) && frameEnd == old(frameEnd)
        invariant handMaterial == Some(skin)
      {
        camera := Some(cams[c]);
        RenderFrames(skin, cams[c], fs, fe);
        CameraJobsSnoc(cfg, skin, cams, c, frames);
        AppendAssociative(old(rendered), Jobs(cfg, CameraShots(skin, cams[..c], frames)), Jobs(cfg, FrameShots(skin, cams[c], frames)));
        c := c + 1;
      }
      assert cams[..c] == cams;
    }

    /** One pass of the outer loop: a skin whose material is missing is skipped; otherwise it goes on the hand and every camera renders it. */
    method RenderSkin(skin: string, cams: seq<string>, fs: int, fe: int)
      requires ValidConfig(cfg) && cams != []
      modifies this
      ensures skin !in materials ==> unchanged(this)
      ensures skin in materials ==>
                var frames := FrameRange(fs, fe, cfg.frameStep);
                && rendered == old(rendered) + Jobs(cfg, CameraShots(skin, cams, frames))
                && handMaterial == Some(skin) && camera == Some(Last(cams))
                && (frames == [] ==> frameCurrent == old(frameCurrent) && filepath == old(filepath))
                && (frames != [] ==> frameCurrent == Last(frames) && filepath == OutputPath(cfg, Last(cams), skin, Last(frames)))
      ensures objects == old(objects) && materials == old(materials)
      ensures frameStart == old(frameStart) && frameEnd == old(frameEnd)
    {
      if skin in materials {
        handMaterial := Some(skin);
        RenderCameras(skin, cams, fs, fe);
      }
    }

    /** The outer loop: every configured skin whose material exists, through every camera. */
    method RenderSkins(skins: seq<string>, cams: seq<string>, fs: int, fe: int)
      requires ValidConfig(cfg) && cams != []
      modifies this
      ensures rendered == old(rendered) + Jobs(cfg, SkinShots(PresentSkins(skins, materials), cams, FrameRange(fs, fe, cfg.frameStep)))
      ensures objects == old(objects) && materials == old(materials)
      ensures frameStart == old(frameStart) && frameEnd == old(frameEnd)
      ensures var P := PresentSkins(skins, materials);
              var frames := FrameRange(fs, fe, cfg.frameStep);
              && handMaterial == (if P == [] then old(handMaterial) else Some(Last(P)))
              && camera == (if P == [] then old(camera) else Some(Last(cams)))
              && (P == [] || frames == [] ==> frameCurrent == old(frameCurrent) && filepath == old(filepath))
              && (P != [] && frames != [] ==> frameCurrent == Last(frames) && filepath == OutputPath(cfg, Last(cams), Last(P), Last(frames)))
    {
      ghost var frames := FrameRange(fs, fe, cfg.frameStep);
      var k := 0;
      while k < |skins|
        invariant 0 <= k <= |skins|
        invariant rendered == old(rendered) + Jobs(cfg, SkinShots(PresentSkins(skins[..k], materials), cams, frames))
        invariant objects == old(objects) && materials == old(materials)
        invariant frameStart == old(frameStart) && frameEnd == old(frameEnd)
        invariant var P := PresentSkins(skins[..k], materials);
                  && handMaterial == (if P == [] then old(handMaterial) else Some(Last(P)))
                  && camera == (if P == [] then old(camera) else Some(Last(cams)))
                  && (P == [] || frames == [] ==> frameCurrent == old(frameCurrent) && filepath == old(filepath))
                  && (P != [] && frames != [] ==> frameCurrent == Last(frames) && filepath == OutputPath(cfg, Last(cams), Last(P), Last(frames)))
      {
        SkinJobsSnoc(cfg, skins, k, materials, cams, frames);
        ghost var before := Jobs(cfg, SkinShots(PresentSkins(skins[..k], materials), cams, frames));
        RenderSkin(skins[k], cams, fs, fe);
        if skins[k] in materials {
          AppendAssociative(old(rendered), before, Jobs(cfg, CameraShots(skins[k], cams, frames)));
        }
        k := k + 1;
      }
      assert skins[..k] == skins;
    }

    /** render_animation_multi_cam, from the hand-mesh check on. */
    method RenderAnimationMultiCam() returns (err: Option<RenderError>)
      requires ValidConfig(cfg)
      modifies this
      ensures err.Some? <==> RenderPlan(cfg, old(objects), old(materials), old(frameStart), old(frameEnd)).Failure?
      ensures err.Some? ==> RenderPlan(cfg, old(objects), old(materials), old(frameStart), old(frameEnd)) == Failure(err.value)
      ensures err.Some? ==> unchanged(this)
      ensures err.None? ==> rendered == old(rendered) + RenderPlan(cfg, old(objects), old(materials), old(frameStart), old(frameEnd)).value
      ensures err.None? ==> rendered == old(rendered) + Jobs(cfg, PlanShots(cfg, old(objects), old(materials), old(frameStart), old(frameEnd)))
      ensures objects == old(objects) && materials == old(materials)
      ensures frameStart == old(frameStart) && frameEnd == old(frameEnd)
      ensures err.None? ==>
                var P := PresentSkins(cfg.skinNames, materials);
                var C := PlanCameras(cfg, objects);
                var F := PlanFrames(cfg, frameStart, frameEnd);
                && handMaterial == (if P == [] then old(handMaterial) else Some(Last(P)))
                && camera == (if P == [] then old(camera) else Some(Last(C)))
                && (P == [] || F == [] ==> frameCurrent == old(frameCurrent) && filepath == old(filepath))
                && (P != [] && F != [] ==> frameCurrent == Last(F) && filepath == OutputPath(cfg, Last(C), Last(P), Last(F)))
    {
      if !HasObjectNamed(objects, cfg.handMeshName) {
        return Some(HandMeshMissing);
      }
      var fs := ResolveFrame(cfg.frameStart, frameStart);
      var fe := ResolveFrame(cfg.frameEnd, frameEnd);
      var cams := PlanCameras(cfg, objects);
      if cams == [] {
        return Some(NoCameras);
      }
      RenderSkins(cfg.skinNames, cams, fs, fe);
      return None;
    }
  }
}
