/**
 * Choice of the camera preview resolution: the supported sizes are sorted by
 * pixel area (largest first), those whose area is outside the allowed range are
 * dropped, an exact match with the landscape screen size wins outright, and
 * otherwise the size whose landscape aspect ratio is closest to the screen's is
 * chosen. With no list of supported sizes, or nothing in range, the camera's
 * current preview size is kept.
 */
module PreviewSizes {
  import opened Options

  /** A resolution in pixels (the source's `Size` and `Camera.Size`). */
  datatype Size = Size(width: int, height: int)

  /** Inclusive bounds on the pixel area of a preview size worth choosing. */
  const MinPreviewPixels: int := 470 * 320
  const MaxPreviewPixels: int := 1920 * 1080

  function Area(s: Size): int {
    s.width * s.height
  }

  predicate InPixelRange(s: Size) {
    MinPreviewPixels <= Area(s) <= MaxPreviewPixels
  }

  /** A size turned to landscape: width and height are exchanged when the width is the smaller. */
  function Landscape(s: Size): (r: Size)
    ensures r.width >= r.height
    ensures r == s || r == Size(s.height, s.width)
    ensures s.width >= s.height ==> r == s
    ensures Area(r) == Area(s)
  {
    if s.width < s.height then Size(s.height, s.width) else s
  }

  function Abs(x: real): real {
    if x < 0.0 then -x else x
  }

  /** Width over height, as an exact rational. */
  function AspectRatio(s: Size): real
    requires s.height != 0
  {
    s.width as real / s.height as real
  }

  /** How far the landscape aspect ratio of `s` is from that of `target`. */
  function AspectDiff(s: Size, target: Size): real
    requires s.width != 0 && s.height != 0 && target.height != 0
  {
    Abs(AspectRatio(Landscape(s)) - AspectRatio(target))
  }

  // ---------------------------------------------------------------------------
  // Sorting by pixel area, largest first, keeping the order of equal areas
  // ---------------------------------------------------------------------------

  predicate AreaNonIncreasing(s: seq<Size>) {
    forall i, j :: 0 <= i < j < |s| ==> Area(s[i]) >= Area(s[j])
  }

  /** Puts `x` in front of the first element whose area is not larger than its own. */
  function InsertByArea(x: Size, s: seq<Size>): (r: seq<Size>)
    ensures |r| == |s| + 1
  {
    if s == [] || Area(s[0]) <= Area(x) then
      [x] + s
    else
      [s[0]] + InsertByArea(x, s[1..])
  }

  /** The supported sizes as a stable sort orders them by non-increasing area. */
  function SortByAreaDescending(s: seq<Size>): (r: seq<Size>)
    ensures |r| == |s|
  {
    if s == [] then [] else InsertByArea(s[0], SortByAreaDescending(s[1..]))
  }

  lemma PrependSorted(y: Size, t: seq<Size>)
    requires AreaNonIncreasing(t)
    requires forall j :: 0 <= j < |t| ==> Area(y) >= Area(t[j])
    ensures AreaNonIncreasing([y] + t)
  {
  }

  lemma {:induction false} InsertByAreaSorted(x: Size, s: seq<Size>)
    requires AreaNonIncreasing(s)
    ensures AreaNonIncreasing(InsertByArea(x, s))
    ensures multiset(InsertByArea(x, s)) == multiset(s) + multiset{x}
  {
    if s == [] || Area(s[0]) <= Area(x) {
      PrependSorted(x, s);
    } else {
      var t := InsertByArea(x, s[1..]);
      InsertByAreaSorted(x, s[1..]);
      assert s == [s[0]] + s[1..];
      forall j | 0 <= j < |t| ensures Area(s[0]) >= Area(t[j]) {
        var y := t[j];
        assert y in multiset(t);
        if y != x {
          assert y in s[1..];
          var m :| 0 <= m < |s[1..]| && s[1..][m] == y;
          assert s[m + 1] == y;
        }
      }
      PrependSorted(s[0], t);
    }
  }

  /** The sort orders by non-increasing area and only rearranges the sizes. */
  lemma {:induction false} SortByAreaSorted(s: seq<Size>)
    ensures AreaNonIncreasing(SortByAreaDescending(s))
    ensures multiset(SortByAreaDescending(s)) == multiset(s)
  {
    if s != [] {
      SortByAreaSorted(s[1..]);
      InsertByAreaSorted(s[0], SortByAreaDescending(s[1..]));
      assert s == [s[0]] + s[1..];
    }
  }

  /** The elements of `s` whose area is `a`, in their order in `s`. */
  function WithArea(s: seq<Size>, a: int): seq<Size> {
    if s == [] then [] else (if Area(s[0]) == a then [s[0]] else []) + WithArea(s[1..], a)
  }

  lemma {:induction false} InsertByAreaKeepsOrder(x: Size, s: seq<Size>, a: int)
    ensures WithArea(InsertByArea(x, s), a) == (if Area(x) == a then [x] else []) + WithArea(s, a)
  {
    var r := InsertByArea(x, s);
    var fromX := if Area(x) == a then [x] else [];
    if s == [] || Area(s[0]) <= Area(x) {
      assert r == [x] + s && r[1..] == s;
    } else {
      var t := InsertByArea(x, s[1..]);
      var fromHead := if Area(s[0]) == a then [s[0]] else [];
      assert r == [s[0]] + t && r[1..] == t;
      assert WithArea(r, a) == fromHead + WithArea(t, a);
      InsertByAreaKeepsOrder(x, s[1..], a);
      assert fromHead == [] || fromX == [];
      calc {
        WithArea(r, a);
        fromHead + (fromX + WithArea(s[1..], a));
        fromX + (fromHead + WithArea(s[1..], a));
        fromX + WithArea(s, a);
      }
    }
  }

  /** The sort is stable: sizes of equal area keep their relative order. */
  lemma {:induction false} SortByAreaIsStable(s: seq<Size>, a: int)
    ensures WithArea(SortByAreaDescending(s), a) == WithArea(s, a)
  {
    if s != [] {
      SortByAreaIsStable(s[1..], a);
      InsertByAreaKeepsOrder(s[0], SortByAreaDescending(s[1..]), a);
    }
  }

  // ---------------------------------------------------------------------------
  // What the selection returns
  // ---------------------------------------------------------------------------

  /** An in-range size that, turned to landscape, is exactly the target. */
  predicate IsExactMatch(s: Size, target: Size) {
    InPixelRange(s) && Landscape(s) == target
  }

  /** `cands[k]` is the first exact match in `cands`. */
  ghost predicate IsFirstExactMatch(cands: seq<Size>, target: Size, k: int) {
    && 0 <= k < |cands|
    && IsExactMatch(cands[k], target)
    && forall j :: 0 <= j < k ==> !IsExactMatch(cands[j], target)
  }

  /**
   * `cands[k]` is in range, strictly closer in aspect ratio than every in-range
   * size before it, and at least as close as every in-range size after it.
   */
  ghost predicate IsFirstClosest(cands: seq<Size>, target: Size, k: int)
    requires target.height != 0
  {
    && 0 <= k < |cands|
    && InPixelRange(cands[k])
    && (forall j :: 0 <= j < k && InPixelRange(cands[j]) ==>
          AspectDiff(cands[k], target) < AspectDiff(cands[j], target))
    && (forall j :: k < j < |cands| && InPixelRange(cands[j]) ==>
          AspectDiff(cands[k], target) <= AspectDiff(cands[j], target))
  }

  /**
   * `best` is the preview size chosen for `target` from the supported sizes
   * (`None` when the device reports none), with `defaultSize` the camera's
   * current preview size.
   */
  ghost predicate IsBestPreviewSize(supported: Option<seq<Size>>, defaultSize: Size, target: Size, best: Size)
    requires target.height != 0
  {
    match supported
    case None => best == defaultSize
    case Some(raw) =>
      var sorted := SortByAreaDescending(raw);
      if exists i :: 0 <= i < |sorted| && IsExactMatch(sorted[i], target) then
        exists k :: IsFirstExactMatch(sorted, target, k) && best == sorted[k]
      else if exists i :: 0 <= i < |sorted| && InPixelRange(sorted[i]) then
        exists k :: IsFirstClosest(sorted, target, k) && best == sorted[k]
      else
        best == defaultSize
  }

  /** Picks the preview size for the landscape screen size `target`. */
  method FindBestPreviewSize(supported: Option<seq<Size>>, defaultSize: Size, target: Size) returns (best: Size)
    requires target.height > 0
    ensures supported.None? ==> best == defaultSize
    ensures IsBestPreviewSize(supported, defaultSize, target, best)
  {
    if supported.None? {
      return defaultSize;
    }
    var sorted := SortByAreaDescending(supported.value);
    var bestSize: Option<Size> := None;
    var screenAspectRatio := AspectRatio(target);
    var diff: real := 0.0;  // meaningful only once bestSize is set
    ghost var k: int := 0;
    for i := 0 to |sorted|
      invariant forall j :: 0 <= j < i ==> !IsExactMatch(sorted[j], target)
      invariant bestSize.None? <==> forall j :: 0 <= j < i ==> !InPixelRange(sorted[j])
      invariant bestSize.Some? ==>
        && 0 <= k < i
        && bestSize.value == sorted[k]
        && InPixelRange(sorted[k])
        && diff == AspectDiff(sorted[k], target)
        && (forall j :: 0 <= j < k && InPixelRange(sorted[j]) ==> diff < AspectDiff(sorted[j], target))
        && (forall j :: k < j < i && InPixelRange(sorted[j]) ==> diff <= AspectDiff(sorted[j], target))
    {
      var candidate := sorted[i];
      var pixels := candidate.width * candidate.height;
      if pixels < MinPreviewPixels || pixels > MaxPreviewPixels {
        continue;
      }
      var flipped := Landscape(candidate);
      if flipped.width == target.width && flipped.height == target.height {
        assert IsFirstExactMatch(sorted, target, i);
        return candidate;
      }
      var newDiff := Abs(AspectRatio(flipped) - screenAspectRatio);
      if bestSize.None? || newDiff < diff {
        bestSize, diff, k := Some(candidate), newDiff, i;
      }
    }
    if bestSize.None? {
      best := defaultSize;
    } else {
      assert IsFirstClosest(sorted, target, k);
      best := bestSize.value;
    }
  }

  // ---------------------------------------------------------------------------
  // Properties of the selection
  // ---------------------------------------------------------------------------

  /** The selection is deterministic: at most one size meets its description. */
  lemma BestPreviewSizeIsUnique(supported: Option<seq<Size>>, defaultSize: Size, target: Size, b1: Size, b2: Size)
    requires target.height > 0
    requires IsBestPreviewSize(supported, defaultSize, target, b1)
    requires IsBestPreviewSize(supported, defaultSize, target, b2)
    ensures b1 == b2
  {
  }

  /**
   * Nothing outside the pixel range is chosen from the supported sizes: the
   * result is one of the in-range supported sizes, or the default size when
   * none is in range.
   */
  lemma BestPreviewSizeInRangeOrDefault(raw: seq<Size>, defaultSize: Size, target: Size, best: Size)
    requires target.height > 0
    requires IsBestPreviewSize(Some(raw), defaultSize, target, best)
    ensures (exists s :: s in raw && InPixelRange(s)) ==> best in raw && InPixelRange(best)
    ensures (forall s :: s in raw ==> !InPixelRange(s)) ==> best == defaultSize
  {
    var sorted := SortByAreaDescending(raw);
    SortByAreaSorted(raw);
    if exists s :: s in raw && InPixelRange(s) {
      var s :| s in raw && InPixelRange(s);
      assert s in multiset(sorted);
      var i :| 0 <= i < |sorted| && sorted[i] == s;
      var k :| 0 <= k < |sorted| && best == sorted[k] && InPixelRange(best);
      assert best in multiset(sorted);
    } else {
      forall i | 0 <= i < |sorted| ensures !InPixelRange(sorted[i]) {
        assert sorted[i] in multiset(raw);
      }
    }
  }

  /**
   * When some supported size is an exact match for the target, the result is
   * an exact match too, and it is returned in its own (possibly portrait)
   * orientation.
   */
  lemma ExactMatchIsChosen(raw: seq<Size>, defaultSize: Size, target: Size, best: Size)
    requires target.height > 0
    requires exists s :: s in raw && IsExactMatch(s, target)
    requires IsBestPreviewSize(Some(raw), defaultSize, target, best)
    ensures best in raw && IsExactMatch(best, target)
  {
    var sorted := SortByAreaDescending(raw);
    SortByAreaSorted(raw);
    var s :| s in raw && IsExactMatch(s, target);
    assert s in multiset(sorted);
    var i :| 0 <= i < |sorted| && sorted[i] == s;
    var k :| IsFirstExactMatch(sorted, target, k) && best == sorted[k];
    assert best in multiset(sorted);
  }

  // ---------------------------------------------------------------------------
  // Worked cases
  // ---------------------------------------------------------------------------

  /** Between a 4:3 and a 16:9 size, a 16:9 screen gets the 16:9 one. */
  lemma WidescreenPrefersWidescreenSize(defaultSize: Size, best: Size)
    requires IsBestPreviewSize(Some([Size(640, 480), Size(1280, 720)]), defaultSize, Size(1920, 1080), best)
    ensures best == Size(1280, 720)
  {
    var raw := [Size(640, 480), Size(1280, 720)];
    var target := Size(1920, 1080);
    var sorted := SortByAreaDescending(raw);
    assert SortByAreaDescending(raw[1..]) == [Size(1280, 720)];
    assert sorted == [Size(1280, 720), Size(640, 480)];
    assert !IsExactMatch(sorted[0], target) && !IsExactMatch(sorted[1], target);
    assert InPixelRange(sorted[0]);
    var k :| IsFirstClosest(sorted, target, k) && best == sorted[k];
    assert AspectDiff(sorted[0], target) == 0.0;
    assert AspectDiff(sorted[1], target) > 0.0;
  }

  /** A portrait size that is the landscape screen size turned is an exact match, returned as it is. */
  lemma PortraitSizeMatchesExactly(defaultSize: Size, best: Size)
    requires IsBestPreviewSize(Some([Size(480, 640)]), defaultSize, Size(640, 480), best)
    ensures best == Size(480, 640)
  {
    var sorted := SortByAreaDescending([Size(480, 640)]);
    assert sorted == [Size(480, 640)];
    assert IsExactMatch(sorted[0], Size(640, 480));
  }

  /**
   * Against a 480x320 screen, 320x240 is too small to be considered, and of
   * 1920x1080 and 640x480 the latter is closer to a 3:2 ratio.
   */
  lemma SmallSizeIsFilteredOut(defaultSize: Size, best: Size)
    requires IsBestPreviewSize(Some([Size(1920, 1080), Size(640, 480), Size(320, 240)]), defaultSize, Size(480, 320), best)
    ensures best == Size(640, 480)
  {
    var raw := [Size(1920, 1080), Size(640, 480), Size(320, 240)];
    var target := Size(480, 320);
    var sorted := SortByAreaDescending(raw);
    assert SortByAreaDescending(raw[2..]) == [Size(320, 240)];
    assert SortByAreaDescending(raw[1..]) == [Size(640, 480), Size(320, 240)];
    assert sorted == raw;
    assert !InPixelRange(sorted[2]);
    assert !IsExactMatch(sorted[0], target) && !IsExactMatch(sorted[1], target);
    assert InPixelRange(sorted[0]);
    var k :| IsFirstClosest(sorted, target, k) && best == sorted[k];
    assert AspectDiff(sorted[1], target) < AspectDiff(sorted[0], target);
  }
}
