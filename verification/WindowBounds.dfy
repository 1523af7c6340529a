/** Window placement: `ensureBoundsAreVisible` of emain/emain-util.ts and the new-window branch of
    `calculateWindowBounds` in emain/emain-window.ts.  Rectangles have integer coordinates. */
module WindowBounds {
  import opened Basics

  datatype Rect = Rect(x: int, y: int, width: int, height: int)

  datatype Display = Display(bounds: Rect, workArea: Rect)

  // ---------------------------------------------------------------- the code

  predicate PointIn(d: Display, x: int, y: int) {
    d.bounds.x <= x < d.bounds.x + d.bounds.width && d.bounds.y <= y < d.bounds.y + d.bounds.height
  }

  predicate OnScreen(ds: seq<Display>, x: int, y: int) {
    exists d <- ds :: PointIn(d, x, y)
  }

  /** All four corners are on some display. */
  predicate FullyVisible(ds: seq<Display>, b: Rect) {
    OnScreen(ds, b.x, b.y) && OnScreen(ds, b.x + b.width, b.y) &&
    OnScreen(ds, b.x, b.y + b.height) && OnScreen(ds, b.x + b.width, b.y + b.height)
  }

  function Overlap(b: Rect, r: Rect): nat {
    var w := Max(0, Min(b.x + b.width, r.x + r.width) - Max(b.x, r.x));
    var h := Max(0, Min(b.y + b.height, r.y + r.height) - Max(b.y, r.y));
    Area(w, h)
  }

  function Area(w: nat, h: nat): nat {
    w * h
  }

  method IsPointInDisplay(ds: seq<Display>, x: int, y: int) returns (found: bool)
    ensures found <==> OnScreen(ds, x, y)
  {
    for i := 0 to |ds|
      invariant forall j :: 0 <= j < i ==> !PointIn(ds[j], x, y)
    {
      if PointIn(ds[i], x, y) {
        return true;
      }
    }
    return false;
  }

  method IsWindowFullyVisible(ds: seq<Display>, b: Rect) returns (visible: bool)
    ensures visible <==> FullyVisible(ds, b)
  {
    var topLeft := IsPointInDisplay(ds, b.x, b.y);
    var topRight := IsPointInDisplay(ds, b.x + b.width, b.y);
    var bottomLeft := IsPointInDisplay(ds, b.x, b.y + b.height);
    var bottomRight := IsPointInDisplay(ds, b.x + b.width, b.y + b.height);
    return topLeft && topRight && bottomLeft && bottomRight;
  }

  /** `d` is the first display that overlaps `b` most, if any overlaps it at all. */
  predicate MostArea(ds: seq<Display>, b: Rect, best: Option<Display>) {
    match best
    case None => forall d <- ds :: Overlap(b, d.bounds) == 0
    case Some(d) =>
      exists i :: 0 <= i < |ds| && ds[i] == d && Overlap(b, d.bounds) > 0 &&
        (forall j :: 0 <= j < |ds| ==> Overlap(b, ds[j].bounds) <= Overlap(b, d.bounds)) &&
        (forall j :: 0 <= j < i ==> Overlap(b, ds[j].bounds) < Overlap(b, d.bounds))
  }

  method FindDisplayWithMostArea(ds: seq<Display>, b: Rect) returns (best: Option<Display>)
    ensures MostArea(ds, b, best)
  {
    var maxArea := 0;
    best := None;
    for i := 0 to |ds|
      invariant best == None ==> maxArea == 0
      invariant best.Some? ==> maxArea == Overlap(b, best.value.bounds)
      invariant forall j :: 0 <= j < i ==> Overlap(b, ds[j].bounds) <= maxArea
      invariant MostArea(ds[..i], b, best)
    {
      var overlapArea := Overlap(b, ds[i].bounds);
      assert ds[..i + 1] == ds[..i] + [ds[i]];
      if overlapArea > maxArea {
        maxArea := overlapArea;
        best := Some(ds[i]);
        assert ds[..i + 1][i] == ds[i];
      }
    }
    assert ds[..|ds|] == ds;
  }

  /** One axis of `adjustBoundsToFitDisplay`: where a window of this size goes. */
  function Shift(x: int, size: int, low: int, room: int): int {
    if x < low then low else if x + size > low + room then low + room - size else x
  }

  function Fit(b: Rect, area: Rect): Rect {
    var width := Min(b.width, area.width);
    var height := Min(b.height, area.height);
    Rect(Shift(b.x, width, area.x, area.width), Shift(b.y, height, area.y, area.height), width, height)
  }

  method AdjustBoundsToFitDisplay(b: Rect, d: Display) returns (r: Rect)
    ensures r == Fit(b, d.workArea)
  {
    var area := d.workArea;
    var x, y, width, height := b.x, b.y, b.width, b.height;
    width := Min(width, area.width);
    height := Min(height, area.height);
    if x < area.x {
      x := area.x;
    } else if x + width > area.x + area.width {
      x := area.x + area.width - width;
    }
    if y < area.y {
      y := area.y;
    } else if y + height > area.y + area.height {
      y := area.y + area.height - height;
    }
    return Rect(x, y, width, height);
  }

  /** What `ensureBoundsAreVisible` does with its argument. */
  ghost predicate Ensured(ds: seq<Display>, primary: Display, b: Rect, r: Rect) {
    if FullyVisible(ds, b) then r == b
    else exists best :: MostArea(ds, b, best) && r == Fit(b, Target(best, primary).workArea)
  }

  function Target(best: Option<Display>, primary: Display): Display {
    if best.Some? then best.value else primary
  }

  method EnsureBoundsAreVisible(ds: seq<Display>, primary: Display, b: Rect) returns (r: Rect)
    ensures Ensured(ds, primary, b, r)
  {
    var visible := IsWindowFullyVisible(ds, b);
    if !visible {
      var best := FindDisplayWithMostArea(ds, b);
      r := AdjustBoundsToFitDisplay(b, Target(best, primary));
    } else {
      r := b;
    }
  }

  // ---------------------------------------------------------------- properties

  predicate Within(r: Rect, area: Rect) {
    area.x <= r.x && r.x + r.width <= area.x + area.width &&
    area.y <= r.y && r.y + r.height <= area.y + area.height
  }

  predicate Sized(r: Rect) {
    r.width >= 0 && r.height >= 0
  }

  /** It has points. */
  predicate Solid(r: Rect) {
    r.width > 0 && r.height > 0
  }

  predicate Disjoint(a: Rect, b: Rect) {
    a.x + a.width <= b.x || b.x + b.width <= a.x || a.y + a.height <= b.y || b.y + b.height <= a.y
  }

  /** Displays do not overlap and each holds its work area; the primary one is among them. */
  predicate Layout(ds: seq<Display>, primary: Display) {
    primary in ds &&
    (forall d <- ds :: Sized(d.workArea) && Within(d.workArea, d.bounds)) &&
    (forall i, j :: 0 <= i < j < |ds| ==> Disjoint(ds[i].bounds, ds[j].bounds))
  }

  /** At most one display overlaps most: the answer is determined. */
  lemma MostAreaIsUnique(ds: seq<Display>, b: Rect, one: Option<Display>, two: Option<Display>)
    requires MostArea(ds, b, one) && MostArea(ds, b, two)
    ensures one == two
  {}

  lemma EnsuredIsUnique(ds: seq<Display>, primary: Display, b: Rect, one: Rect, two: Rect)
    requires Ensured(ds, primary, b, one) && Ensured(ds, primary, b, two)
    ensures one == two
  {
    if !FullyVisible(ds, b) {
      var a :| MostArea(ds, b, a) && one == Fit(b, Target(a, primary).workArea);
      var c :| MostArea(ds, b, c) && two == Fit(b, Target(c, primary).workArea);
      MostAreaIsUnique(ds, b, a, c);
    }
  }

  /** The point lies, in both coordinates, on or after the near edge of one display and before its far
      edge. */
  predicate Inside(ds: seq<Display>, x: int, y: int) {
    exists i :: 0 <= i < |ds| &&
      !(x < ds[i].bounds.x) && x - ds[i].bounds.x < ds[i].bounds.width &&
      !(y < ds[i].bounds.y) && y - ds[i].bounds.y < ds[i].bounds.height
  }

  lemma OnScreenIsInside(ds: seq<Display>, x: int, y: int)
    ensures OnScreen(ds, x, y) <==> Inside(ds, x, y)
  {
    if OnScreen(ds, x, y) {
      var d :| d in ds && PointIn(d, x, y);
      var i :| 0 <= i < |ds| && ds[i] == d;
      assert x - ds[i].bounds.x < ds[i].bounds.width;
    }
    if Inside(ds, x, y) {
      var i :| 0 <= i < |ds| && !(x < ds[i].bounds.x) && x - ds[i].bounds.x < ds[i].bounds.width &&
        !(y < ds[i].bounds.y) && y - ds[i].bounds.y < ds[i].bounds.height;
      assert PointIn(ds[i], x, y);
    }
  }

  /** A window is fully visible when its near and far corners, on both sides, all lie on displays. */
  lemma VisibleByCorners(ds: seq<Display>, b: Rect)
    ensures FullyVisible(ds, b) <==>
      Inside(ds, b.x, b.y) && Inside(ds, b.x + b.width, b.y) &&
      Inside(ds, b.x, b.y + b.height) && Inside(ds, b.x + b.width, b.y + b.height)
  {
    OnScreenIsInside(ds, b.x, b.y);
    OnScreenIsInside(ds, b.x + b.width, b.y);
    OnScreenIsInside(ds, b.x, b.y + b.height);
    OnScreenIsInside(ds, b.x + b.width, b.y + b.height);
  }

  function Range(low: int, high: int): set<int>
    decreases high - low
  {
    if low >= high then {} else Range(low, high - 1) + {high - 1}
  }

  lemma {:induction false} RangeSize(low: int, high: int)
    ensures |Range(low, high)| == Max(0, high - low)
    ensures forall i :: i in Range(low, high) <==> low <= i < high
    decreases high - low
  {
    if low < high {
      RangeSize(low, high - 1);
      assert high - 1 !in Range(low, high - 1);
    }
  }

  predicate Shared(b: Rect, r: Rect, x: int, y: int) {
    b.x <= x < b.x + b.width && b.y <= y < b.y + b.height && r.x <= x < r.x + r.width && r.y <= y < r.y + r.height
  }

  /** The overlap is the number of points the two rectangles share: as many columns as there are shared
      abscissas, and in each of them as many points as there are shared ordinates. */
  lemma OverlapCountsPoints(b: Rect, r: Rect)
    ensures var xs := Range(Max(b.x, r.x), Min(b.x + b.width, r.x + r.width));
      var ys := Range(Max(b.y, r.y), Min(b.y + b.height, r.y + r.height));
      && (forall x, y :: Shared(b, r, x, y) <==> x in xs && y in ys)
      && Overlap(b, r) == |xs| * |ys|
  {
    RangeSize(Max(b.x, r.x), Min(b.x + b.width, r.x + r.width));
    RangeSize(Max(b.y, r.y), Min(b.y + b.height, r.y + r.height));
  }

  /** A window that is not visible goes into the work area of the display it overlaps most, and into that of
      the primary display if it overlaps none. */
  lemma GoesWhereItMostlyIs(ds: seq<Display>, primary: Display, b: Rect, r: Rect)
    requires (forall d <- ds :: Sized(d.workArea)) && Sized(primary.workArea)
    requires Ensured(ds, primary, b, r) && !FullyVisible(ds, b)
    ensures (forall d <- ds :: Overlap(b, d.bounds) == 0) ==> Within(r, primary.workArea)
    ensures forall d <- ds | Overlap(b, d.bounds) > 0 &&
        forall other <- ds | other != d :: Overlap(b, other.bounds) < Overlap(b, d.bounds) :: Within(r, d.workArea)
  {
    var best :| MostArea(ds, b, best) && r == Fit(b, Target(best, primary).workArea);
    if best.Some? { FitInside(b, best.value.workArea); } else { FitInside(b, primary.workArea); }
  }

  /** Whatever the arrangement of the displays, overlapping ones included, the result has all four
      corners on screen or lies wholly inside one work area. */
  lemma VisibleOrInside(ds: seq<Display>, primary: Display, b: Rect, r: Rect)
    requires primary in ds && (forall d <- ds :: Sized(d.workArea))
    requires Ensured(ds, primary, b, r)
    ensures FullyVisible(ds, r) || exists d <- ds :: Within(r, d.workArea)
  {}

  /** The window is moved no further than it must be: of all places for its size inside the work
      area, it takes the nearest on each axis; it shrinks only where it would not fit. */
  lemma FitIsNearest(b: Rect, area: Rect, q: Rect)
    requires Sized(area) && Within(q, area) && q.width == Min(b.width, area.width) && q.height == Min(b.height, area.height)
    ensures var r := Fit(b, area);
      && Abs(r.x - b.x) <= Abs(q.x - b.x) && Abs(r.y - b.y) <= Abs(q.y - b.y) && Within(r, area)
      && (if b.width <= area.width then r.width == b.width else r.width == area.width)
      && (if b.height <= area.height then r.height == b.height else r.height == area.height)
  {}

  function Abs(x: int): nat {
    if x < 0 then -x else x
  }

  lemma FitInside(b: Rect, area: Rect)
    requires Sized(area)
    ensures Within(Fit(b, area), area)
    ensures Solid(Fit(b, area)) <==> Solid(b) && Solid(area)
  {}

  lemma FitStays(r: Rect, area: Rect)
    requires Sized(area)
    ensures Fit(r, area) == r <==> Within(r, area)
  {}

  lemma AreaPositive(w: nat, h: nat)
    ensures Area(w, h) > 0 <==> w > 0 && h > 0
  {}

  lemma OverlapInside(r: Rect, area: Rect)
    requires Within(r, area)
    ensures Overlap(r, area) > 0 <==> Solid(r)
  {
    AreaPositive(Max(0, r.width), Max(0, r.height));
  }

  lemma OverlapNeedsSolid(r: Rect, area: Rect)
    requires Overlap(r, area) > 0
    ensures Solid(r) && !Disjoint(r, area)
  {
    AreaPositive(Max(0, Min(r.x + r.width, area.x + area.width) - Max(r.x, area.x)),
                 Max(0, Min(r.y + r.height, area.y + area.height) - Max(r.y, area.y)));
  }

  /** A window with points inside one display is found on that display. */
  lemma FoundWhereItIs(ds: seq<Display>, primary: Display, i: nat, r: Rect)
    requires Layout(ds, primary) && i < |ds| && Within(r, ds[i].workArea) && Solid(r)
    ensures MostArea(ds, r, Some(ds[i]))
  {
    OverlapInside(r, ds[i].bounds);
    forall j | 0 <= j < |ds| && j != i ensures Overlap(r, ds[j].bounds) == 0 {
      if Overlap(r, ds[j].bounds) > 0 {
        OverlapNeedsSolid(r, ds[j].bounds);
      }
    }
  }

  lemma FlatIsNowhere(ds: seq<Display>, r: Rect)
    requires !Solid(r)
    ensures MostArea(ds, r, None)
  {
    forall d <- ds ensures Overlap(r, d.bounds) == 0 {
      if Overlap(r, d.bounds) > 0 {
        OverlapNeedsSolid(r, d.bounds);
      }
    }
  }

  /** Fitted to a work area that has points, a window is found on that display again. */
  lemma FittedIsFound(ds: seq<Display>, primary: Display, b: Rect, d: Display)
    requires Layout(ds, primary) && d in ds && Solid(b) && Solid(d.workArea)
    ensures MostArea(ds, Fit(b, d.workArea), Some(d))
  {
    var i :| 0 <= i < |ds| && ds[i] == d;
    FoundWhereItIs(ds, primary, i, Fit(b, d.workArea));
  }

  /** What the second call does to the result `r` of the first. */
  lemma SecondCall(ds: seq<Display>, primary: Display, r: Rect, best: Option<Display>)
    requires Layout(ds, primary) && MostArea(ds, r, best)
    ensures Ensured(ds, primary, r, r) <==> FullyVisible(ds, r) || Within(r, Target(best, primary).workArea)
  {
    FitStays(r, Target(best, primary).workArea);
    if !FullyVisible(ds, r) && Ensured(ds, primary, r, r) {
      var other :| MostArea(ds, r, other) && r == Fit(r, Target(other, primary).workArea);
      MostAreaIsUnique(ds, r, best, other);
    }
  }

  lemma FirstCall(ds: seq<Display>, primary: Display, b: Rect, best: Option<Display>, r: Rect)
    requires MostArea(ds, b, best) && Ensured(ds, primary, b, r) && !FullyVisible(ds, b)
    ensures r == Fit(b, Target(best, primary).workArea)
  {
    var other :| MostArea(ds, b, other) && r == Fit(b, Target(other, primary).workArea);
    MostAreaIsUnique(ds, b, best, other);
  }

  lemma IdempotentAfter(ds: seq<Display>, primary: Display, b: Rect, best: Option<Display>, r: Rect)
    requires Layout(ds, primary) && MostArea(ds, b, best) && Ensured(ds, primary, b, r)
    ensures Ensured(ds, primary, r, r) <==>
      FullyVisible(ds, b) || !Solid(b) || Solid(Target(best, primary).workArea) ||
      FullyVisible(ds, r) || Within(r, primary.workArea)
  {
    if !FullyVisible(ds, b) {
      FirstCall(ds, primary, b, best, r);
      var target := Target(best, primary);
      FitInside(b, target.workArea);
      if Solid(b) && Solid(target.workArea) {
        FittedIsFound(ds, primary, b, target);
        SecondCall(ds, primary, r, Some(target));
      } else {
        FlatIsNowhere(ds, r);
        SecondCall(ds, primary, r, None);
        if !Solid(b) {
          FlatIsNowhere(ds, b);
          MostAreaIsUnique(ds, b, best, None);
        }
      }
    }
  }

  /** Where a coordinate range of this size goes along one side of a work area, and its far end. */
  function Ends(x: int, size: int, low: int, room: int): (int, int) {
    var length := Min(size, room);
    var at := Shift(x, length, low, room);
    (at, at + length)
  }

  /** Before the call: the window will be squeezed into a work area without points, onto a line or
      a point that is neither on screen at its ends nor inside the primary work area. */
  predicate Squeezed(ds: seq<Display>, primary: Display, b: Rect, area: Rect) {
    var h, v := Ends(b.x, b.width, area.x, area.width), Ends(b.y, b.height, area.y, area.height);
    var home := primary.workArea;
    && (area.width == 0 || area.height == 0)
    && !(OnScreen(ds, h.0, v.0) && OnScreen(ds, h.1, v.0) && OnScreen(ds, h.0, v.1) && OnScreen(ds, h.1, v.1))
    && !(home.x <= h.0 && h.1 <= home.x + home.width && home.y <= v.0 && v.1 <= home.y + home.height)
  }

  /** Placing a placed window moves it again exactly when the window was not visible, had points,
      and was squeezed.  All of it can be checked on the window and the displays before the call. */
  lemma IdempotentIff(ds: seq<Display>, primary: Display, b: Rect, best: Option<Display>, r: Rect)
    requires Layout(ds, primary) && MostArea(ds, b, best) && Ensured(ds, primary, b, r)
    ensures Ensured(ds, primary, r, r) <==>
      FullyVisible(ds, b) || !Solid(b) || !Squeezed(ds, primary, b, Target(best, primary).workArea)
  {
    IdempotentAfter(ds, primary, b, best, r);
    if !FullyVisible(ds, b) {
      FirstCall(ds, primary, b, best, r);
      TargetIsDisplay(ds, primary, b, best);
      SqueezedIff(ds, primary, b, Target(best, primary).workArea);
    }
  }

  lemma TargetIsDisplay(ds: seq<Display>, primary: Display, b: Rect, best: Option<Display>)
    requires primary in ds && MostArea(ds, b, best)
    ensures Target(best, primary) in ds
  {}

  lemma SqueezedIff(ds: seq<Display>, primary: Display, b: Rect, area: Rect)
    requires Sized(area)
    ensures var r := Fit(b, area);
      Squeezed(ds, primary, b, area) <==>
      !Solid(area) && !FullyVisible(ds, r) && !Within(r, primary.workArea)
  {
    var r := Fit(b, area);
    var h, v := Ends(b.x, b.width, area.x, area.width), Ends(b.y, b.height, area.y, area.height);
    assert r.x == h.0 && r.x + r.width == h.1 && r.y == v.0 && r.y + r.height == v.1;
  }

  /** Where every work area has points, placing is idempotent for every window. */
  lemma Idempotent(ds: seq<Display>, primary: Display, b: Rect, r: Rect)
    requires Layout(ds, primary) && (forall d <- ds :: Solid(d.workArea))
    requires Ensured(ds, primary, b, r)
    ensures Ensured(ds, primary, r, r)
  {
    if !FullyVisible(ds, b) {
      var best :| MostArea(ds, b, best) && r == Fit(b, Target(best, primary).workArea);
      IdempotentIff(ds, primary, b, best, r);
    }
  }

  /** A display whose work area is empty: the second call moves the window again. */
  lemma EmptyWorkAreaMovesAgain()
    ensures var main := Display(Rect(0, 0, 100, 100), Rect(0, 0, 100, 100));
      var side := Display(Rect(200, 0, 100, 100), Rect(300, 0, 0, 100));
      var b, r, again := Rect(250, 10, 100, 20), Rect(300, 10, 0, 20), Rect(100, 10, 0, 20);
      Layout([main, side], main) && Ensured([main, side], main, b, r) && Ensured([main, side], main, r, again)
  {
    var main := Display(Rect(0, 0, 100, 100), Rect(0, 0, 100, 100));
    var side := Display(Rect(200, 0, 100, 100), Rect(300, 0, 0, 100));
    var ds := [main, side];
    var b, r := Rect(250, 10, 100, 20), Rect(300, 10, 0, 20);
    assert Overlap(b, main.bounds) == Area(0, 20) && Overlap(b, side.bounds) == Area(50, 20) == 1000;
    assert ds[1] == side && MostArea(ds, b, Some(side));
    FlatIsNowhere(ds, r);
    assert Target(None, main) == main;
  }

  // ---------------------------------------------------------------- new windows

  const MIN_WIDTH := 800
  const MIN_HEIGHT := 500
  const FALLBACK_WIDTH := 1280
  const FALLBACK_HEIGHT := 800

  /** Half a pixel rounds up. */
  function Round(v: real): int {
    (v + 0.5).Floor
  }

  function MinReal(a: real, b: real): real {
    if a <= b then a else b
  }

  function MaxReal(a: real, b: real): real {
    if a >= b then a else b
  }

  /** The first of the three sizes that is not zero; the wanted size is zero when there is none. */
  function Wanted(size: int, reference: Option<int>, fallback: int): int {
    if size != 0 then size
    else if reference.Some? && reference.value != 0 then reference.value
    else fallback
  }

  /** One axis of a new window: where it starts and how long it is. */
  function Place(size: int, reference: Option<(int, int)>, low: int, room: int, least: int, fallback: int)
    : (int, int)
  {
    var length := Min(room, Max(least, Wanted(size, if reference.Some? then Some(reference.value.1) else None, fallback)));
    var start := if reference.Some? then (reference.value.0 + 32) as real else low as real + (room - length) as real / 2.0;
    (Round(MaxReal(low as real, MinReal(start, (low + room - length) as real))), length)
  }

  function NewWindow(width: int, height: int, reference: Option<Rect>, area: Rect): Rect {
    var alongX := match reference case Some(r) => Some((r.x, r.width)) case None => None;
    var alongY := match reference case Some(r) => Some((r.y, r.height)) case None => None;
    var h := Place(width, alongX, area.x, area.width, MIN_WIDTH, FALLBACK_WIDTH);
    var v := Place(height, alongY, area.y, area.height, MIN_HEIGHT, FALLBACK_HEIGHT);
    Rect(h.0, v.0, h.1, v.1)
  }

  lemma RoundInt(n: int)
    ensures Round(n as real) == n
  {}

  lemma RoundKeepsRange(low: int, v: real, high: int)
    requires low as real <= v <= high as real
    ensures low <= Round(v) <= high
  {}

  /** The length of a new window along one side: as long as the work area at most, and within that at
      least the minimum; in between the size asked for, or else that of the window it inherits from, or
      else the fallback. */
  lemma NewWindowLength(size: int, reference: Option<(int, int)>, low: int, room: nat, least: nat, fallback: int)
    ensures var length := Place(size, reference, low, room, least, fallback).1;
      && (room <= least ==> length == room)
      && (least <= size <= room && size != 0 ==> length == size)
      && (size != 0 && size < least <= room ==> length == least)
      && (size > room >= least ==> length == room)
      && (size == 0 && reference.Some? && reference.value.1 != 0 ==>
            length == Place(reference.value.1, reference, low, room, least, fallback).1)
      && (size == 0 && (reference.None? || reference.value.1 == 0) && least <= fallback <= room ==> length == fallback)
  {}

  /** With no size asked for and nothing to inherit from, a new window is 1280 by 800 where there is room,
      and never smaller than 800 by 500 where there is room for that. */
  lemma NewWindowDefaults(width: int, height: int, reference: Option<Rect>, area: Rect)
    requires area.width >= 1280 && area.height >= 800
    ensures var r := NewWindow(width, height, reference, area);
      r.width >= 800 && r.height >= 500 &&
      (width == 0 && height == 0 && reference.None? ==> r.width == 1280 && r.height == 800)
  {}

  /** Rounding never pushes a new window out of its work area, and it is as small as the minimum
      only when the work area allows no more. */
  lemma NewWindowInside(width: int, height: int, reference: Option<Rect>, area: Rect)
    requires Sized(area)
    ensures var r := NewWindow(width, height, reference, area);
      Within(r, area) && Min(area.width, MIN_WIDTH) <= r.width && Min(area.height, MIN_HEIGHT) <= r.height
  {
    PlaceInside(width, match reference case Some(r) => Some((r.x, r.width)) case None => None, area.x, area.width, MIN_WIDTH, FALLBACK_WIDTH);
    PlaceInside(height, match reference case Some(r) => Some((r.y, r.height)) case None => None, area.y, area.height, MIN_HEIGHT, FALLBACK_HEIGHT);
  }

  lemma PlaceInside(size: int, reference: Option<(int, int)>, low: int, room: nat, least: nat, fallback: int)
    ensures var p := Place(size, reference, low, room, least, fallback);
      low <= p.0 && p.0 + p.1 <= low + room && Min(room, least) <= p.1 <= room
  {
    var p := Place(size, reference, low, room, least, fallback);
    var start := if reference.Some? then (reference.value.0 + 32) as real else low as real + (room - p.1) as real / 2.0;
    RoundKeepsRange(low, MaxReal(low as real, MinReal(start, (low + room - p.1) as real)), low + room - p.1);
  }

  /** With no window to inherit from, the new one is centred: the gap before it is the gap after it,
      or one pixel more. */
  lemma NewWindowCentred(size: int, low: int, room: nat, least: nat, fallback: int)
    ensures var p := Place(size, None, low, room, least, fallback);
      0 <= (p.0 - low) - (low + room - p.0 - p.1) <= 1
  {
    var length := Place(size, None, low, room, least, fallback).1;
    var gap := room - length;
    assert low as real <= low as real + gap as real / 2.0 <= (low + gap) as real;
  }

  /** With one to inherit from, it sits 32 pixels further, or at the nearest place that fits. */
  lemma NewWindowCascades(size: int, at: int, length: int, low: int, room: nat, least: nat, fallback: int, q: int)
    requires var p := Place(size, Some((at, length)), low, room, least, fallback);
      low <= q && q + p.1 <= low + room
    ensures var p := Place(size, Some((at, length)), low, room, least, fallback);
      Abs(p.0 - (at + 32)) <= Abs(q - (at + 32))
  {
    var p := Place(size, Some((at, length)), low, room, least, fallback);
    RoundInt(at + 32);
    RoundInt(low);
    RoundInt(low + room - p.1);
  }
}
