/**
 * get_cameras_by_prefix and its cam_sort_key in render.py: the cameras
 * whose name starts with a prefix, ordered by (main number, suffix
 * number, name), where a name "Cam_6.001" has main 6 and suffix 1, and a
 * name outside that pattern sorts with the key (10**9, 10**9, name).
 */
module CameraOrder {
  import opened Wrappers
  import opened Text

  /** An entry of bpy.data.objects, as far as camera selection looks at it. */
  datatype BlendObject = BlendObject(name: string, objType: string)

  const CAMERA_TYPE: string := "CAMERA"

  /** 10**9, the main and suffix number of a name the pattern rejects. */
  const SENTINEL: nat := 1000000000

  /** The tuple cam_sort_key returns. */
  datatype SortKey = SortKey(main: nat, sub: nat, name: string)

  /** Python's `<=` on (int, int, str) tuples. */
  predicate KeyLe(a: SortKey, b: SortKey)
  {
    a.main < b.main || (a.main == b.main && (a.sub < b.sub || (a.sub == b.sub && LexLe(a.name, b.name))))
  }

  predicate KeyLt(a: SortKey, b: SortKey)
  {
    KeyLe(a, b) && a != b
  }

  lemma KeyLeTotal(a: SortKey, b: SortKey)
    ensures KeyLe(a, b) || KeyLe(b, a)
  {
    LexLeTotal(a.name, b.name);
  }

  lemma KeyLeTransitive(a: SortKey, b: SortKey, c: SortKey)
    requires KeyLe(a, b) && KeyLe(b, c)
    ensures KeyLe(a, c)
  {
    if a.main == b.main == c.main && a.sub == b.sub == c.sub {
      LexLeTransitive(a.name, b.name, c.name);
    }
  }

  lemma KeyLeAntisymmetric(a: SortKey, b: SortKey)
    requires KeyLe(a, b) && KeyLe(b, a)
    ensures a == b
  {
    LexLeAntisymmetric(a.name, b.name);
  }

  // ---------------------------------------------------------------------
  // The pattern ^<prefix>(\d+)(?:\.(\d+))?$
  // ---------------------------------------------------------------------

  /** The position of the first '.' in `s`, or -1. */
  function IndexOfDot(s: string): (k: int)
    ensures -1 <= k < |s|
    ensures k >= 0 ==> s[k] == '.' && forall i :: 0 <= i < k ==> s[i] != '.'
    ensures k < 0 ==> forall i :: 0 <= i < |s| ==> s[i] != '.'
  {
    if s == [] then -1
    else if s[0] == '.' then 0
    else
      var k := IndexOfDot(s[1..]);
      if k < 0 then -1 else k + 1
  }

  /** The name with one final newline removed: where `$` may match. */
  function StripNewline(rest: string): string
  {
    if rest != [] && rest[|rest| - 1] == '\n' then rest[..|rest| - 1] else rest
  }

  /** (\d+)(?:\.(\d+))? against the whole of `body`. */
  function MatchBody(body: string): Option<(string, Option<string>)>
  {
    var k := IndexOfDot(body);
    if k < 0 then
      if body != [] && AllDigits(body) then Some((body, None)) else None
    else
      var d1 := body[..k];
      var d2 := body[k + 1..];
      if d1 != [] && AllDigits(d1) && d2 != [] && AllDigits(d2) then Some((d1, Some(d2))) else None
  }

  /**
   * re.match(rf"^{re.escape(prefix)}(\d+)(?:\.(\d+))?$", name): the two
   * groups when the name matches. As in Python, `$` also matches just
   * before a newline that ends the string.
   */
  function MatchCamName(prefix: string, name: string): (r: Option<(string, Option<string>)>)
    ensures !StartsWith(name, prefix) ==> r.None?
    ensures r.Some? ==> r.value.0 != [] && AllDigits(r.value.0)
    ensures r.Some? && r.value.1.Some? ==> r.value.1.value != [] && AllDigits(r.value.1.value)
  {
    if !StartsWith(name, prefix) then None
    else
      var body := StripNewline(name[|prefix|..]);
      if MatchBody(body).Some? then MatchBodySound(body); MatchBody(body) else None
  }

  /** The part of a name after the prefix that the groups cover: digits, optionally '.' and digits. */
  function GroupText(d1: string, d2: Option<string>): string
  {
    d1 + (if d2.Some? then "." + d2.value else "")
  }

  /** The strings the pattern is written to accept, spelled out: the prefix, a digit run, optionally '.' and a second digit run, optionally one final newline. */
  predicate NameForm(prefix: string, name: string, d1: string, d2: Option<string>, newline: bool)
  {
    && d1 != [] && AllDigits(d1)
    && (d2.Some? ==> d2.value != [] && AllDigits(d2.value))
    && name == prefix + GroupText(d1, d2) + (if newline then "\n" else "")
  }

  /** No digit run contains a '.'. */
  lemma DigitsHaveNoDot(d: string)
    requires AllDigits(d)
    ensures forall i :: 0 <= i < |d| ==> d[i] != '.'
  {
  }

  lemma MatchBodyComplete(d1: string, d2: Option<string>)
    requires d1 != [] && AllDigits(d1)
    requires d2.Some? ==> d2.value != [] && AllDigits(d2.value)
    ensures MatchBody(GroupText(d1, d2)) == Some((d1, d2))
  {
    var body := GroupText(d1, d2);
    DigitsHaveNoDot(d1);
    if d2.Some? {
      assert body[|d1|] == '.';
      assert forall i :: 0 <= i < |d1| ==> body[i] == d1[i];
      assert IndexOfDot(body) == |d1|;
      assert body[..|d1|] == d1 && body[|d1| + 1..] == d2.value;
    } else {
      assert body == d1;
    }
  }

  lemma MatchBodySound(body: string)
    requires MatchBody(body).Some?
    ensures var m := MatchBody(body).value;
            && m.0 != [] && AllDigits(m.0)
            && (m.1.Some? ==> m.1.value != [] && AllDigits(m.1.value))
            && body == GroupText(m.0, m.1)
  {
    var k := IndexOfDot(body);
    if k >= 0 {
      assert body == body[..k] + "." + body[k + 1..];
    }
  }

  lemma StripNewlineExact(body: string, newline: bool)
    requires body != [] && body[|body| - 1] != '\n'
    ensures StripNewline(body + (if newline then "\n" else "")) == body
  {
    if newline {
      assert (body + "\n")[..|body|] == body;
    }
  }

  /** Every name of the written form matches, with the groups it was built from. */
  lemma MatchComplete(prefix: string, name: string, d1: string, d2: Option<string>, newline: bool)
    requires NameForm(prefix, name, d1, d2, newline)
    ensures MatchCamName(prefix, name) == Some((d1, d2))
  {
    var body := GroupText(d1, d2);
    var nl := if newline then "\n" else "";
    assert name == prefix + (body + nl);
    assert name[..|prefix|] == prefix;
    assert name[|prefix|..] == body + nl;
    assert body[|body| - 1] != '\n' by {
      if d2.Some? {
        assert body[|body| - 1] == d2.value[|d2.value| - 1];
      } else {
        assert body[|body| - 1] == d1[|d1| - 1];
      }
    }
    StripNewlineExact(body, newline);
    MatchBodyComplete(d1, d2);
  }

  /** Every match comes from a name of the written form. */
  lemma MatchSound(prefix: string, name: string)
    requires MatchCamName(prefix, name).Some?
    ensures var m := MatchCamName(prefix, name).value;
            NameForm(prefix, name, m.0, m.1, name[|name| - 1] == '\n')
  {
    var rest := name[|prefix|..];
    assert name == prefix + rest;
    var body := StripNewline(rest);
    MatchBodySound(body);
    var m := MatchCamName(prefix, name).value;
    var newline := rest != [] && rest[|rest| - 1] == '\n';
    assert rest == body + (if newline then "\n" else "");
    assert name[|name| - 1] == '\n' <==> newline;
    assert name == prefix + GroupText(m.0, m.1) + (if newline then "\n" else "");
  }

  /** cam_sort_key. */
  function CamSortKey(prefix: string, name: string): (k: SortKey)
    ensures k.name == name
  {
    match MatchCamName(prefix, name)
    case Some((d1, d2)) =>
      assert AllDigits(d1) && (d2.Some? ==> AllDigits(d2.value)) by { MatchBodySound(StripNewline(name[|prefix|..])); }
      SortKey(DecimalValue(d1), if d2.Some? then DecimalValue(d2.value) else 0, name)
    case None => SortKey(SENTINEL, SENTINEL, name)
  }

  /** cam_sort_key of prefix + digits (optionally followed by one newline) is (int(digits), 0, name). */
  lemma CamSortKeyPlain(prefix: string, name: string, d1: string, newline: bool)
    requires NameForm(prefix, name, d1, None, newline)
    ensures CamSortKey(prefix, name) == SortKey(DecimalValue(d1), 0, name)
  {
    MatchComplete(prefix, name, d1, None, newline);
  }

  /** cam_sort_key of prefix + digits + "." + digits (optionally followed by one newline) is (int(d1), int(d2), name). */
  lemma CamSortKeyDotted(prefix: string, name: string, d1: string, d2: string, newline: bool)
    requires NameForm(prefix, name, d1, Some(d2), newline)
    ensures CamSortKey(prefix, name) == SortKey(DecimalValue(d1), DecimalValue(d2), name)
  {
    MatchComplete(prefix, name, d1, Some(d2), newline);
  }

  /** Every name of neither form gets the sentinel key (10**9, 10**9, name). */
  lemma CamSortKeyOther(prefix: string, name: string)
    requires forall d1, d2, newline :: !NameForm(prefix, name, d1, d2, newline)
    ensures CamSortKey(prefix, name) == SortKey(SENTINEL, SENTINEL, name)
  {
    if MatchCamName(prefix, name).Some? {
      MatchSound(prefix, name);
      assert false;
    }
  }

  /** Numbers compare as numbers, not as strings: prefix + str(m) sorts before prefix + str(n) when m < n (so Cam_2 before Cam_10). */
  lemma NumericOrder(prefix: string, m: nat, n: nat)
    requires m < n
    ensures KeyLt(CamSortKey(prefix, prefix + Decimal(m)), CamSortKey(prefix, prefix + Decimal(n)))
  {
    DecimalRoundTrip(m);
    DecimalRoundTrip(n);
    assert prefix + GroupText(Decimal(m), None) + "" == prefix + Decimal(m);
    assert prefix + GroupText(Decimal(n), None) + "" == prefix + Decimal(n);
    MatchComplete(prefix, prefix + Decimal(m), Decimal(m), None, false);
    MatchComplete(prefix, prefix + Decimal(n), Decimal(n), None, false);
  }

  /** The plain name prefix + d sorts strictly before its Blender duplicates prefix + d + "." + suffix, whatever the spelling of d. */
  lemma DuplicatesFollowOriginal(prefix: string, d: string, suffix: string)
    requires d != [] && AllDigits(d) && suffix != [] && AllDigits(suffix)
    ensures KeyLt(CamSortKey(prefix, prefix + d), CamSortKey(prefix, prefix + d + "." + suffix))
  {
    ExtensionIsLexLe(prefix + d, "." + suffix);
    assert prefix + d + "." + suffix == (prefix + d) + ("." + suffix);
    DuplicateKeys(prefix, d, suffix);
    SameMainKeyLe(CamSortKey(prefix, prefix + d), CamSortKey(prefix, prefix + d + "." + suffix));
    assert |prefix + d| < |prefix + d + "." + suffix|;
  }

  /** A name and its dotted duplicate share their main number, and the plain name has suffix number 0. */
  lemma DuplicateKeys(prefix: string, d: string, suffix: string)
    requires d != [] && AllDigits(d) && suffix != [] && AllDigits(suffix)
    ensures var kp := CamSortKey(prefix, prefix + d);
            var kd := CamSortKey(prefix, prefix + d + "." + suffix);
            kp.main == kd.main && kp.sub == 0 && kp.name == prefix + d && kd.name == prefix + d + "." + suffix
  {
    var plain := prefix + d;
    var dup := prefix + d + "." + suffix;
    assert NameForm(prefix, plain, d, None, false) by {
      assert prefix + GroupText(d, None) + "" == plain;
    }
    assert NameForm(prefix, dup, d, Some(suffix), false) by {
      assert prefix + GroupText(d, Some(suffix)) + "" == dup;
    }
    CamSortKeyPlain(prefix, plain, d, false);
    CamSortKeyDotted(prefix, dup, d, suffix, false);
  }

  lemma SameMainKeyLe(a: SortKey, b: SortKey)
    requires a.main == b.main && a.sub <= b.sub && (a.sub == b.sub ==> LexLe(a.name, b.name))
    ensures KeyLe(a, b)
  {
  }

  lemma ExtensionIsLexLe(a: string, ext: string)
    ensures LexLe(a, a + ext)
  {
    assert (a + ext)[..|a|] == a;
    PrefixIsLexLe(a, a + ext);
  }

  lemma {:induction false} PrefixIsLexLe(a: string, b: string)
    requires |a| <= |b| && b[..|a|] == a
    ensures LexLe(a, b)
  {
    if a != [] {
      assert b[1..][..|a| - 1] == a[1..];
      PrefixIsLexLe(a[1..], b[1..]);
    }
  }

  /** A name the pattern rejects sorts after every name it accepts whose main number is below 10**9. */
  lemma NonMatchingSortLast(prefix: string, a: string, b: string)
    requires MatchCamName(prefix, a).Some? && CamSortKey(prefix, a).main < SENTINEL
    requires MatchCamName(prefix, b).None?
    ensures KeyLt(CamSortKey(prefix, a), CamSortKey(prefix, b))
  {
  }

  /** The bound in NonMatchingSortLast is needed: a matching name whose number exceeds 10**9 sorts after a name the pattern rejects. */
  lemma SentinelBoundary(prefix: string, digits: string)
    requires digits != [] && AllDigits(digits) && DecimalValue(digits) > SENTINEL
    ensures MatchCamName(prefix, prefix + digits).Some?
    ensures MatchCamName(prefix, prefix + "x").None?
    ensures KeyLt(CamSortKey(prefix, prefix + "x"), CamSortKey(prefix, prefix + digits))
  {
    var big := prefix + digits;
    assert NameForm(prefix, big, digits, None, false) by {
      assert prefix + GroupText(digits, None) + "" == big;
    }
    MatchComplete(prefix, big, digits, None, false);
    var odd := prefix + "x";
    assert odd[..|prefix|] == prefix && odd[|prefix|..] == "x";
  }

  // ---------------------------------------------------------------------
  // cams.sort(key=...): a stable sort on the key
  // ---------------------------------------------------------------------

  /** The key function handed to list.sort. */
  function CamKey(prefix: string): BlendObject -> SortKey
  {
    (o: BlendObject) => CamSortKey(prefix, o.name)
  }

  predicate SortedBy(key: BlendObject -> SortKey, s: seq<BlendObject>)
  {
    forall i, j :: 0 <= i < j < |s| ==> KeyLe(key(s[i]), key(s[j]))
  }

  /** Places `x` after every element of `s` whose key is at most its own. */
  function Insert(key: BlendObject -> SortKey, s: seq<BlendObject>, x: BlendObject): (r: seq<BlendObject>)
    ensures multiset(r) == multiset(s) + multiset{x}
    ensures SortedBy(key, s) ==> SortedBy(key, r)
  {
    if s == [] then [x]
    else if KeyLe(key(s[|s| - 1]), key(x)) then
      assert SortedBy(key, s) ==> SortedBy(key, s + [x]) by {
        if SortedBy(key, s) {
          InsertAtEnd(key, s, x);
        }
      }
      s + [x]
    else
      var front := s[..|s| - 1];
      var last := s[|s| - 1];
      assert s == front + [last];
      var r := Insert(key, front, x) + [last];
      assert SortedBy(key, s) ==> SortedBy(key, r) by {
        if SortedBy(key, s) {
          KeyLeTotal(key(last), key(x));
          InsertBeforeLast(key, front, last, x, Insert(key, front, x));
        }
      }
      r
  }

  lemma InsertAtEnd(key: BlendObject -> SortKey, s: seq<BlendObject>, x: BlendObject)
    requires s != [] && SortedBy(key, s) && KeyLe(key(s[|s| - 1]), key(x))
    ensures SortedBy(key, s + [x])
  {
    forall i | 0 <= i < |s| ensures KeyLe(key(s[i]), key(x)) {
      if i < |s| - 1 {
        KeyLeTransitive(key(s[i]), key(s[|s| - 1]), key(x));
      }
    }
  }

  lemma InsertBeforeLast(key: BlendObject -> SortKey, front: seq<BlendObject>, last: BlendObject, x: BlendObject, ins: seq<BlendObject>)
    requires SortedBy(key, front + [last]) && SortedBy(key, ins)
    requires multiset(ins) == multiset(front) + multiset{x}
    requires KeyLe(key(x), key(last))
    ensures SortedBy(key, ins + [last])
  {
    forall i | 0 <= i < |ins| ensures KeyLe(key(ins[i]), key(last)) {
      var y := ins[i];
      assert y in multiset(ins);
      if y != x {
        assert y in multiset(front);
        var k :| 0 <= k < |front| && front[k] == y;
        assert (front + [last])[k] == y && (front + [last])[|front|] == last;
      }
    }
  }

  /** cams.sort(key=lambda o: cam_sort_key(o.name)), as insertion sort. */
  function SortBy(key: BlendObject -> SortKey, s: seq<BlendObject>): (r: seq<BlendObject>)
    ensures multiset(r) == multiset(s)
    ensures SortedBy(key, r)
  {
    if s == [] then []
    else
      assert s == s[..|s| - 1] + [s[|s| - 1]];
      Insert(key, SortBy(key, s[..|s| - 1]), s[|s| - 1])
  }

  /** Distinct elements of `s` have distinct keys. */
  predicate KeysDistinct(key: BlendObject -> SortKey, s: seq<BlendObject>)
  {
    forall i, j :: 0 <= i < j < |s| ==> key(s[i]) != key(s[j])
  }

  /** When no two elements share a key there is only one sorted arrangement: any sort algorithm gives the same result. */
  lemma {:induction false} SortedPermutationUnique(key: BlendObject -> SortKey, a: seq<BlendObject>, b: seq<BlendObject>)
    requires multiset(a) == multiset(b) && KeysDistinct(key, a)
    requires SortedBy(key, a) && SortedBy(key, b)
    ensures a == b
  {
    if a != [] {
      SortedHeadsAgree(key, a, b);
      SortedTails(key, a, b);
      SortedPermutationUnique(key, a[1..], b[1..]);
      assert a == [a[0]] + a[1..] && b == [b[0]] + b[1..];
    }
  }

  lemma SortedHeadsAgree(key: BlendObject -> SortKey, a: seq<BlendObject>, b: seq<BlendObject>)
    requires a != [] && multiset(a) == multiset(b) && KeysDistinct(key, a)
    requires SortedBy(key, a) && SortedBy(key, b)
    ensures b != [] && a[0] == b[0]
  {
    assert |b| == |multiset(b)| == |a|;
    assert a[0] in multiset(b) && b[0] in multiset(a);
    var i :| 0 <= i < |b| && b[i] == a[0];
    var k :| 0 <= k < |a| && a[k] == b[0];
    if a[0] != b[0] {
      assert KeyLe(key(b[0]), key(b[i]));
      assert KeyLe(key(a[0]), key(a[k]));
      KeyLeAntisymmetric(key(a[0]), key(b[0]));
      assert false;
    }
  }

  lemma SortedTails(key: BlendObject -> SortKey, a: seq<BlendObject>, b: seq<BlendObject>)
    requires a != [] && b != [] && a[0] == b[0] && multiset(a) == multiset(b) && KeysDistinct(key, a)
    requires SortedBy(key, a) && SortedBy(key, b)
    ensures multiset(a[1..]) == multiset(b[1..]) && KeysDistinct(key, a[1..])
    ensures SortedBy(key, a[1..]) && SortedBy(key, b[1..])
  {
    TailMultiset(a);
    TailMultiset(b);
    TailKeys(key, a);
    TailKeys(key, b);
  }

  lemma TailMultiset(a: seq<BlendObject>)
    requires a != []
    ensures multiset(a[1..]) == multiset(a) - multiset{a[0]}
  {
    assert a == [a[0]] + a[1..];
  }

  lemma TailKeys(key: BlendObject -> SortKey, a: seq<BlendObject>)
    requires a != []
    ensures KeysDistinct(key, a) ==> KeysDistinct(key, a[1..])
    ensures SortedBy(key, a) ==> SortedBy(key, a[1..])
  {
    forall i | 0 <= i < |a[1..]| ensures a[1..][i] == a[i + 1] {
    }
  }

  predicate DistinctNames(s: seq<BlendObject>)
  {
    forall i, j :: 0 <= i < j < |s| ==> s[i].name != s[j].name
  }

  // ---------------------------------------------------------------------
  // get_cameras_by_prefix
  // ---------------------------------------------------------------------

  predicate IsPrefixedCamera(prefix: string, o: BlendObject)
  {
    o.objType == CAMERA_TYPE && StartsWith(o.name, prefix)
  }

  /** [obj for obj in bpy.data.objects if obj.type == 'CAMERA' and obj.name.startswith(prefix)]. */
  function PrefixedCameras(prefix: string, objs: seq<BlendObject>): (r: seq<BlendObject>)
    ensures forall o :: o in r <==> o in objs && IsPrefixedCamera(prefix, o)
    ensures |r| <= |objs|
  {
    if objs == [] then []
    else
      var front := PrefixedCameras(prefix, objs[..|objs| - 1]);
      var last := objs[|objs| - 1];
      assert forall o :: o in objs <==> o in objs[..|objs| - 1] || o == last by {
        assert objs == objs[..|objs| - 1] + [last];
      }
      if IsPrefixedCamera(prefix, last) then front + [last] else front
  }

  /** The filter keeps the objects' order and drops no qualifying object, so it keeps distinct names distinct. */
  lemma {:induction false} PrefixedCamerasDistinct(prefix: string, objs: seq<BlendObject>)
    requires DistinctNames(objs)
    ensures DistinctNames(PrefixedCameras(prefix, objs))
  {
    if objs != [] {
      var front := objs[..|objs| - 1];
      PrefixedCamerasDistinct(prefix, front);
      var last := objs[|objs| - 1];
      forall o | o in PrefixedCameras(prefix, front) ensures o.name != last.name {
        var i :| 0 <= i < |front| && front[i] == o;
      }
    }
  }

  /** get_cameras_by_prefix: the qualifying cameras, sorted by cam_sort_key. */
  function GetCamerasByPrefix(prefix: string, objs: seq<BlendObject>): (cams: seq<BlendObject>)
    ensures forall o :: o in cams <==> o in objs && IsPrefixedCamera(prefix, o)
    ensures multiset(cams) == multiset(PrefixedCameras(prefix, objs))
    ensures forall i, j :: 0 <= i < j < |cams| ==> KeyLe(CamSortKey(prefix, cams[i].name), CamSortKey(prefix, cams[j].name))
    ensures cams == [] <==> forall o :: o in objs ==> !IsPrefixedCamera(prefix, o)
  {
    var cams := SortBy(CamKey(prefix), PrefixedCameras(prefix, objs));
    assert forall o :: o in cams <==> o in multiset(cams);
    assert forall i, j :: 0 <= i < j < |cams| ==> KeyLe(CamKey(prefix)(cams[i]), CamKey(prefix)(cams[j]));
    cams
  }

  /** With unique object names the result is the one sorted arrangement of the qualifying cameras, whatever algorithm sorts them. */
  lemma CamerasDetermined(prefix: string, objs: seq<BlendObject>, other: seq<BlendObject>)
    requires DistinctNames(objs)
    requires multiset(other) == multiset(PrefixedCameras(prefix, objs))
    requires forall i, j :: 0 <= i < j < |other| ==> KeyLe(CamSortKey(prefix, other[i].name), CamSortKey(prefix, other[j].name))
    ensures other == GetCamerasByPrefix(prefix, objs)
  {
    var cams := GetCamerasByPrefix(prefix, objs);
    var filtered := PrefixedCameras(prefix, objs);
    PrefixedCamerasDistinct(prefix, objs);
    DistinctNamesOfPermutation(filtered, cams);
    assert KeysDistinct(CamKey(prefix), cams) by {
      forall i, j | 0 <= i < j < |cams| ensures CamKey(prefix)(cams[i]) != CamKey(prefix)(cams[j]) {
        assert CamKey(prefix)(cams[i]).name == cams[i].name;
      }
    }
    assert SortedBy(CamKey(prefix), cams);
    assert SortedBy(CamKey(prefix), other);
    SortedPermutationUnique(CamKey(prefix), cams, other);
  }

  lemma DistinctNamesOfPermutation(a: seq<BlendObject>, b: seq<BlendObject>)
    requires DistinctNames(a) && multiset(a) == multiset(b)
    ensures DistinctNames(b)
  {
    forall i, j | 0 <= i < j < |b| ensures b[i].name != b[j].name {
      if b[i].name == b[j].name {
        assert b[i] in multiset(a) && b[j] in multiset(a);
        var p :| 0 <= p < |a| && a[p] == b[i];
        var q :| 0 <= q < |a| && a[q] == b[j];
        assert p == q;
        var x := b[i];
        assert multiset(b)[x] >= 2 by {
          assert b == b[..i] + [b[i]] + b[i + 1..j] + [b[j]] + b[j + 1..];
        }
        AtMostOnce(a, p);
        assert false;
      }
    }
  }

  lemma {:induction false} AtMostOnce(a: seq<BlendObject>, p: nat)
    requires DistinctNames(a) && p < |a|
    ensures multiset(a)[a[p]] == 1
  {
    var x := a[p];
    var before := a[..p];
    var after := a[p + 1..];
    assert a == before + [x] + after;
    forall k | 0 <= k < |before| ensures before[k] != x {
      assert before[k] == a[k];
    }
    forall k | 0 <= k < |after| ensures after[k] != x {
      assert after[k] == a[p + 1 + k];
    }
    assert x !in multiset(before) && x !in multiset(after);
  }
}
