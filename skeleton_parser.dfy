/**
 * `load_fphab_skeleton` of load_skeleton.py over the lines of the file.
 * Each line is `t x1 y1 z1 ... x21 y21 z21`: blank lines are skipped,
 * the first field (the timestamp) is dropped unread, every other field is
 * converted with `float()` (a field that is not a number raises, ending
 * the load), and a line whose field count after the timestamp is not 63
 * is skipped with a warning that names its 1-based line number. Accepted
 * lines become frames of 21 (x, y, z) joints, in input order.
 */
module SkeletonParser {
  import opened Wrappers
  import opened Text
  import opened Transform

  const JOINT_COUNT: nat := 21
  const VALUES_PER_LINE: nat := 63

  /** The joints of one time sample, in F-PHAB joint order. */
  type Frame = seq<Vec3>

  /** `[WARN] line <line>: expected 63 floats, got <got> -> skip`. */
  datatype Warning = WrongCount(line: nat, got: nat)

  /** `float()` raised on a field of this (1-based) line. */
  datatype LoadError = NotANumber(line: nat)

  datatype Skeleton = Skeleton(frames: seq<Frame>, warnings: seq<Warning>)

  /** What one line contributes. */
  datatype LineResult = Blank | Unconvertible | Miscount(got: nat) | Joints(frame: Frame)

  /** `list(map(float, fields))`: every field converted, or nothing if one field is not a number. */
  function ToReals(fields: seq<string>, toReal: string -> Option<real>): (r: Option<seq<real>>)
    ensures r.Some? ==> |r.value| == |fields|
  {
    if fields == [] then Some([])
    else match (toReal(fields[0]), ToReals(fields[1..], toReal))
      case (Some(v), Some(vs)) => Some([v] + vs)
      case _ => None
  }

  /** The conversion succeeds iff every field converts, and then keeps each field's value in place. */
  lemma {:induction false} ToRealsExact(fields: seq<string>, toReal: string -> Option<real>)
    ensures ToReals(fields, toReal).Some? <==> forall i :: 0 <= i < |fields| ==> toReal(fields[i]).Some?
    ensures ToReals(fields, toReal).Some? ==>
              forall i :: 0 <= i < |fields| ==> ToReals(fields, toReal).value[i] == toReal(fields[i]).value
  {
    if fields != [] {
      ToRealsExact(fields[1..], toReal);
      assert forall i :: 1 <= i < |fields| ==> fields[i] == fields[1..][i - 1];
    }
  }

  /** The consecutive (x, y, z) triples of a payload whose length is a multiple of three. */
  function Triples(vals: seq<real>): Frame
    requires |vals| % 3 == 0
    decreases |vals|
  {
    if vals == [] then [] else [Vec3(vals[0], vals[1], vals[2])] + Triples(vals[3..])
  }

  /** Triple j is values 3j, 3j+1 and 3j+2. */
  lemma {:induction false} TriplesAt(vals: seq<real>)
    requires |vals| % 3 == 0
    ensures |Triples(vals)| == |vals| / 3
    ensures forall j :: 0 <= j < |vals| / 3 ==> Triples(vals)[j] == Vec3(vals[3 * j], vals[3 * j + 1], vals[3 * j + 2])
    decreases |vals|
  {
    if vals != [] {
      var rest := vals[3..];
      TriplesAt(rest);
      forall j | 1 <= j < |vals| / 3
        ensures Triples(vals)[j] == Vec3(vals[3 * j], vals[3 * j + 1], vals[3 * j + 2])
      {
        assert Triples(vals)[j] == Triples(rest)[j - 1];
        assert rest[3 * (j - 1)] == vals[3 * j];
      }
    }
  }

  /** The fate of one line of the file. */
  function ReadLine(line: string, toReal: string -> Option<real>): LineResult
  {
    var parts := Split(line);
    if parts == [] then Blank
    else match ToReals(parts[1..], toReal)
      case None => Unconvertible
      case Some(vals) => if |vals| != VALUES_PER_LINE then Miscount(|vals|) else Joints(Triples(vals))
  }

  /** The fate of every line, in file order. */
  function Fates(lines: seq<string>, toReal: string -> Option<real>): seq<LineResult>
  {
    seq(|lines|, i requires 0 <= i < |lines| => ReadLine(lines[i], toReal))
  }

  /** What the line loop makes of a run of line fates; the last fate is line `|rs|`. */
  function Gather(rs: seq<LineResult>): Result<Skeleton, LoadError>
    decreases |rs|
  {
    if rs == [] then Success(Skeleton([], []))
    else match Gather(rs[..|rs| - 1])
      case Failure(e) => Failure(e)
      case Success(sk) =>
        match rs[|rs| - 1]
        case Blank => Success(sk)
        case Unconvertible => Failure(NotANumber(|rs|))
        case Miscount(got) => Success(sk.(warnings := sk.warnings + [WrongCount(|rs|, got)]))
        case Joints(frame) => Success(sk.(frames := sk.frames + [frame]))
  }

  /** The result of reading `lines` in order. */
  function Load(lines: seq<string>, toReal: string -> Option<real>): (r: Result<Skeleton, LoadError>)
    ensures r.Failure? ==> 1 <= r.error.line <= |lines|
    ensures r.Success? ==> |r.value.frames| + |r.value.warnings| <= |lines|
  {
    GatherBounds(Fates(lines, toReal));
    Gather(Fates(lines, toReal))
  }

  /** A failure names one of the lines read, and every line gives at most one frame or one warning. */
  lemma {:induction false} GatherBounds(rs: seq<LineResult>)
    ensures Gather(rs).Failure? ==> 1 <= Gather(rs).error.line <= |rs|
    ensures Gather(rs).Success? ==> |Gather(rs).value.frames| + |Gather(rs).value.warnings| <= |rs|
    decreases |rs|
  {
    if rs != [] {
      GatherBounds(rs[..|rs| - 1]);
    }
  }

  /** The indices of the fates that are frames, in increasing order. */
  function Accepted(rs: seq<LineResult>): seq<nat>
    decreases |rs|
  {
    if rs == [] then []
    else Accepted(rs[..|rs| - 1]) + (if rs[|rs| - 1].Joints? then [|rs| - 1] else [])
  }

  /** The indices of the lines that yield a frame. */
  function AcceptedLines(lines: seq<string>, toReal: string -> Option<real>): seq<nat>
  {
    Accepted(Fates(lines, toReal))
  }

  // ---------------------------------------------------------------------
  // The imperative loader
  // ---------------------------------------------------------------------

  /** The inner `for j in range(21)` loop that regroups the payload into joints. */
  method GroupJoints(vals: seq<real>) returns (joints: Frame)
    requires |vals| == VALUES_PER_LINE
    ensures |joints| == JOINT_COUNT
    ensures forall j :: 0 <= j < JOINT_COUNT ==> joints[j] == Vec3(vals[3 * j], vals[3 * j + 1], vals[3 * j + 2])
  {
    joints := [];
    var j := 0;
    while j < JOINT_COUNT
      invariant 0 <= j <= JOINT_COUNT
      invariant |joints| == j
      invariant forall k :: 0 <= k < j ==> joints[k] == Vec3(vals[3 * k], vals[3 * k + 1], vals[3 * k + 2])
    {
      joints := joints + [Vec3(vals[3 * j], vals[3 * j + 1], vals[3 * j + 2])];
      j := j + 1;
    }
  }

  /** load_fphab_skeleton: the line loop, appending frames and warnings. */
  method LoadFphabSkeleton(lines: seq<string>, toReal: string -> Option<real>) returns (r: Result<Skeleton, LoadError>)
    ensures r == Load(lines, toReal)
  {
    ghost var fates := Fates(lines, toReal);
    var frames: seq<Frame> := [];
    var warnings: seq<Warning> := [];
    var i := 0;
    while i < |lines|
      invariant 0 <= i <= |lines|
      invariant Gather(fates[..i]) == Success(Skeleton(frames, warnings))
    {
      var ln := i + 1;
      assert fates[..ln][..i] == fates[..i] && fates[..ln][i] == ReadLine(lines[i], toReal);
      var parts := Split(lines[i]);
      if parts == [] {
        i := i + 1;
        continue;
      }
      var vals := ToReals(parts[1..], toReal);
      if vals.None? {
        GatherFailureSticks(fates, ln);
        assert fates[..|lines|] == fates;
        return Failure(NotANumber(ln));
      }
      if |vals.value| != VALUES_PER_LINE {
        warnings := warnings + [WrongCount(ln, |vals.value|)];
        i := i + 1;
        continue;
      }
      var joints := GroupJoints(vals.value);
      TriplesAt(vals.value);
      assert joints == Triples(vals.value);
      frames := frames + [joints];
      i := i + 1;
    }
    assert fates[..i] == fates;
    r := Success(Skeleton(frames, warnings));
  }

  /** Once a run of fates fails, every longer run fails with the same error. */
  lemma {:induction false} GatherFailureSticks(rs: seq<LineResult>, n: nat)
    requires n <= |rs|
    requires Gather(rs[..n]).Failure?
    ensures Gather(rs) == Gather(rs[..n])
    decreases |rs| - n
  {
    if n < |rs| {
      assert rs[..n + 1][..n] == rs[..n];
      GatherFailureSticks(rs, n + 1);
    } else {
      assert rs[..n] == rs;
    }
  }

  // ---------------------------------------------------------------------
  // One line
  // ---------------------------------------------------------------------

  /** A line contributes nothing, not even a warning, exactly when it is blank. */
  lemma BlankLinesAreSkipped(line: string, toReal: string -> Option<real>)
    ensures ReadLine(line, toReal) == Blank <==> IsBlank(line)
  {
    SplitEmptyIffBlank(line);
  }

  /** A non-blank line is a frame iff it has exactly 63 fields after the first and all convert; joint j is then (v[3j], v[3j+1], v[3j+2]). */
  lemma AcceptedLineShape(line: string, toReal: string -> Option<real>)
    ensures var parts := Split(line);
            ReadLine(line, toReal).Joints? <==>
              |parts| == VALUES_PER_LINE + 1 && forall i :: 1 <= i < |parts| ==> toReal(parts[i]).Some?
    ensures var parts := Split(line);
            ReadLine(line, toReal).Joints? ==>
              var f := ReadLine(line, toReal).frame;
              |f| == JOINT_COUNT &&
              forall j :: 0 <= j < JOINT_COUNT ==>
                f[j] == Vec3(toReal(parts[3 * j + 1]).value, toReal(parts[3 * j + 2]).value, toReal(parts[3 * j + 3]).value)
  {
    var parts := Split(line);
    if parts != [] {
      var conv := ToReals(parts[1..], toReal);
      ToRealsExact(parts[1..], toReal);
      assert conv.Some? <==> forall i :: 1 <= i < |parts| ==> toReal(parts[i]).Some? by {
        assert forall i :: 1 <= i < |parts| ==> parts[i] == parts[1..][i - 1];
      }
      if conv.Some? && |conv.value| == VALUES_PER_LINE {
        TriplesAt(conv.value);
      }
    }
  }

  /** A non-blank line whose fields all convert but whose count after the first is not 63 is skipped with that count. */
  lemma MiscountedLineShape(line: string, toReal: string -> Option<real>)
    ensures var parts := Split(line);
            ReadLine(line, toReal).Miscount? <==>
              |parts| >= 1 && |parts| != VALUES_PER_LINE + 1 && forall i :: 1 <= i < |parts| ==> toReal(parts[i]).Some?
    ensures ReadLine(line, toReal).Miscount? ==> ReadLine(line, toReal).got == |Split(line)| - 1
  {
    var parts := Split(line);
    if parts != [] {
      ToRealsExact(parts[1..], toReal);
      assert forall i :: 1 <= i < |parts| ==> parts[i] == parts[1..][i - 1];
    }
  }

  /** A line makes the load fail iff it is non-blank and a field after the first is not a number. */
  lemma UnconvertibleLineShape(line: string, toReal: string -> Option<real>)
    ensures var parts := Split(line);
            ReadLine(line, toReal) == Unconvertible <==>
              |parts| >= 1 && exists i :: 1 <= i < |parts| && toReal(parts[i]).None?
  {
    var parts := Split(line);
    if parts != [] {
      var conv := ToReals(parts[1..], toReal);
      ToRealsExact(parts[1..], toReal);
      if conv.None? {
        var k :| 0 <= k < |parts| - 1 && toReal(parts[1..][k]).None?;
        assert toReal(parts[k + 1]).None?;
      } else {
        forall i | 1 <= i < |parts| ensures toReal(parts[i]).Some? {
          assert parts[i] == parts[1..][i - 1];
        }
      }
    }
  }

  /** The first field is never read: two non-blank lines that agree after it have the same fate, whatever their timestamps. */
  lemma TimestampIsIgnored(a: string, b: string, toReal: string -> Option<real>)
    requires Split(a) != [] && Split(b) != []
    requires Split(a)[1..] == Split(b)[1..]
    ensures ReadLine(a, toReal) == ReadLine(b, toReal)
  {
  }

  // ---------------------------------------------------------------------
  // The whole file
  // ---------------------------------------------------------------------

  /** A run of fates gathers without error exactly when none of them is Unconvertible. */
  lemma {:induction false} GatherSucceedsIffAllConvert(rs: seq<LineResult>)
    ensures Gather(rs).Success? <==> forall i :: 0 <= i < |rs| ==> rs[i] != Unconvertible
    decreases |rs|
  {
    if rs != [] {
      GatherSucceedsIffAllConvert(rs[..|rs| - 1]);
    }
  }

  /** A failed gather names the first Unconvertible fate, counting from 1. */
  lemma {:induction false} GatherFailsAtFirstUnconvertible(rs: seq<LineResult>)
    requires Gather(rs).Failure?
    ensures var n := Gather(rs).error.line;
            1 <= n <= |rs| && rs[n - 1] == Unconvertible
            && forall i :: 0 <= i < n - 1 ==> rs[i] != Unconvertible
    decreases |rs|
  {
    var front := rs[..|rs| - 1];
    if Gather(front).Failure? {
      GatherFailsAtFirstUnconvertible(front);
    } else {
      GatherSucceedsIffAllConvert(front);
    }
  }

  /** Accepted lists, in strictly increasing order, exactly the positions of the frames. */
  lemma {:induction false} AcceptedExact(rs: seq<LineResult>)
    ensures var acc := Accepted(rs);
            (forall k :: 0 <= k < |acc| ==> acc[k] < |rs|)
            && (forall k, l :: 0 <= k < l < |acc| ==> acc[k] < acc[l])
            && (forall i :: 0 <= i < |rs| ==> (i in acc <==> rs[i].Joints?))
    decreases |rs|
  {
    if rs != [] {
      AcceptedExact(rs[..|rs| - 1]);
    }
  }

  /** The gathered frames are the frames among the fates, in order, one per accepted position. */
  lemma {:induction false} GatheredFramesAreAccepted(rs: seq<LineResult>)
    requires Gather(rs).Success?
    ensures var frames := Gather(rs).value.frames;
            var acc := Accepted(rs);
            |frames| == |acc|
            && forall k :: 0 <= k < |acc| ==> acc[k] < |rs| && rs[acc[k]] == Joints(frames[k])
    decreases |rs|
  {
    if rs != [] {
      GatheredFramesAreAccepted(rs[..|rs| - 1]);
    }
  }

  /** Each gathered warning names a Miscount fate by its 1-based position and carries its count. */
  lemma {:induction false} GatheredWarningsAreMiscounts(rs: seq<LineResult>)
    requires Gather(rs).Success?
    ensures var ws := Gather(rs).value.warnings;
            forall k :: 0 <= k < |ws| ==> 1 <= ws[k].line <= |rs| && rs[ws[k].line - 1] == Miscount(ws[k].got)
    decreases |rs|
  {
    if rs != [] {
      GatheredWarningsAreMiscounts(rs[..|rs| - 1]);
    }
  }

  /** The gathered warnings come in increasing position. */
  lemma {:induction false} GatheredWarningsInOrder(rs: seq<LineResult>)
    requires Gather(rs).Success?
    ensures var ws := Gather(rs).value.warnings;
            (forall k :: 0 <= k < |ws| ==> ws[k].line <= |rs|)
            && (forall k, l :: 0 <= k < l < |ws| ==> ws[k].line < ws[l].line)
    decreases |rs|
  {
    if rs != [] {
      GatheredWarningsInOrder(rs[..|rs| - 1]);
    }
  }

  /** Every Miscount fate is warned about. */
  lemma {:induction false} GatherWarnsEveryMiscount(rs: seq<LineResult>)
    requires Gather(rs).Success?
    ensures forall i :: 0 <= i < |rs| && rs[i].Miscount? ==> WrongCount(i + 1, rs[i].got) in Gather(rs).value.warnings
    decreases |rs|
  {
    if rs != [] {
      var front := rs[..|rs| - 1];
      GatherWarnsEveryMiscount(front);
      assert forall w :: w in Gather(front).value.warnings ==> w in Gather(rs).value.warnings;
    }
  }

  /** The load fails exactly when some line is non-blank with a non-numeric field. */
  lemma LoadSucceedsIffAllConvert(lines: seq<string>, toReal: string -> Option<real>)
    ensures Load(lines, toReal).Success? <==> forall i :: 0 <= i < |lines| ==> ReadLine(lines[i], toReal) != Unconvertible
  {
    var rs := Fates(lines, toReal);
    GatherSucceedsIffAllConvert(rs);
    assert forall i :: 0 <= i < |lines| ==> rs[i] == ReadLine(lines[i], toReal);
  }

  /** A failed load names the first line with a non-numeric field; the lines before it were all read. */
  lemma LoadFailsAtFirstUnconvertibleLine(lines: seq<string>, toReal: string -> Option<real>)
    requires Load(lines, toReal).Failure?
    ensures var n := Load(lines, toReal).error.line;
            1 <= n <= |lines| && ReadLine(lines[n - 1], toReal) == Unconvertible
            && forall i :: 0 <= i < n - 1 ==> ReadLine(lines[i], toReal) != Unconvertible
  {
    var rs := Fates(lines, toReal);
    GatherFailsAtFirstUnconvertible(rs);
    assert forall i :: 0 <= i < |lines| ==> rs[i] == ReadLine(lines[i], toReal);
  }

  /** AcceptedLines lists, in strictly increasing order, exactly the lines that yield a frame. */
  lemma AcceptedLinesExact(lines: seq<string>, toReal: string -> Option<real>)
    ensures var acc := AcceptedLines(lines, toReal);
            (forall k :: 0 <= k < |acc| ==> acc[k] < |lines|)
            && (forall k, l :: 0 <= k < l < |acc| ==> acc[k] < acc[l])
            && (forall i :: 0 <= i < |lines| ==> (i in acc <==> ReadLine(lines[i], toReal).Joints?))
  {
    AcceptedExact(Fates(lines, toReal));
  }

  /** The frames are the accepted lines' joints, one per accepted line, in input order. */
  lemma FramesAreAcceptedLines(lines: seq<string>, toReal: string -> Option<real>)
    requires Load(lines, toReal).Success?
    ensures var frames := Load(lines, toReal).value.frames;
            var acc := AcceptedLines(lines, toReal);
            |frames| == |acc|
            && forall k :: 0 <= k < |acc| ==> acc[k] < |lines| && ReadLine(lines[acc[k]], toReal) == Joints(frames[k])
  {
    GatheredFramesAreAccepted(Fates(lines, toReal));
  }

  /** Every frame produced has 21 joints. */
  lemma FramesHaveAllJoints(lines: seq<string>, toReal: string -> Option<real>)
    requires Load(lines, toReal).Success?
    ensures forall f :: f in Load(lines, toReal).value.frames ==> |f| == JOINT_COUNT
  {
    FramesAreAcceptedLines(lines, toReal);
    var frames := Load(lines, toReal).value.frames;
    var acc := AcceptedLines(lines, toReal);
    forall f | f in frames ensures |f| == JOINT_COUNT {
      var k :| 0 <= k < |frames| && frames[k] == f;
      AcceptedLineShape(lines[acc[k]], toReal);
    }
  }

  /** Each warning names a miscounted line by its 1-based number in the file (blank lines counted) and carries its field count. */
  lemma WarningsAreMiscountedLines(lines: seq<string>, toReal: string -> Option<real>)
    requires Load(lines, toReal).Success?
    ensures var ws := Load(lines, toReal).value.warnings;
            forall k :: 0 <= k < |ws| ==>
              1 <= ws[k].line <= |lines| && ReadLine(lines[ws[k].line - 1], toReal) == Miscount(ws[k].got)
  {
    GatheredWarningsAreMiscounts(Fates(lines, toReal));
  }

  /** The warnings come in line order, each line at most once. */
  lemma WarningsInLineOrder(lines: seq<string>, toReal: string -> Option<real>)
    requires Load(lines, toReal).Success?
    ensures var ws := Load(lines, toReal).value.warnings;
            (forall k :: 0 <= k < |ws| ==> ws[k].line <= |lines|)
            && (forall k, l :: 0 <= k < l < |ws| ==> ws[k].line < ws[l].line)
  {
    GatheredWarningsInOrder(Fates(lines, toReal));
  }

  /** Every miscounted line is reported. */
  lemma MiscountedLinesAreWarned(lines: seq<string>, toReal: string -> Option<real>)
    requires Load(lines, toReal).Success?
    ensures forall i :: 0 <= i < |lines| && ReadLine(lines[i], toReal).Miscount? ==>
              WrongCount(i + 1, ReadLine(lines[i], toReal).got) in Load(lines, toReal).value.warnings
  {
    var rs := Fates(lines, toReal);
    GatherWarnsEveryMiscount(rs);
    assert forall i :: 0 <= i < |lines| ==> rs[i] == ReadLine(lines[i], toReal);
  }

  /** A blank line at the end changes nothing. */
  lemma TrailingBlankLineChangesNothing(lines: seq<string>, blank: string, toReal: string -> Option<real>)
    requires IsBlank(blank)
    ensures Load(lines + [blank], toReal) == Load(lines, toReal)
  {
    SplitEmptyIffBlank(blank);
    assert Fates(lines + [blank], toReal)[..|lines|] == Fates(lines, toReal);
  }
}
