/**
 * What a drag or an arrow key commits, in percent: `commitPlacement` of
 * apps/web/components/overlay-settings-form.tsx and `nudge` of
 * apps/web/components/overlay-placement-canvas.tsx.
 */
module PlacementCommit {
  import opened Wrappers

  datatype Percent = Percent(x: real, y: real, width: real, height: real)

  function Clamp(value: real, min: real, max: real): real {
    var floored := if min >= value then min else value;
    if max <= floored then max else floored
  }

  /** The nearest thousandth, halves up. */
  function Round3(value: real): real { (value * 1000.0 + 0.5).Floor as real / 1000.0 }

  function Committed(p: Percent): Percent {
    var width := Clamp(p.width, 10.0, 100.0);
    var height := Clamp(p.height, 8.0, 100.0);
    Percent(
      Round3(Clamp(p.x, 0.0, 100.0 - width)), Round3(Clamp(p.y, 0.0, 100.0 - height)), Round3(width), Round3(height))
  }

  // ----- the draft the commit changes -----

  datatype PlacementId = PanelId(id: string) | LayerId(id: string)

  class PlacementDraft {
    var panels: map<string, Percent>
    var layers: map<string, Percent>
    var revision: nat

    constructor (panels: map<string, Percent>, layers: map<string, Percent>)
      ensures this.panels == panels && this.layers == layers && revision == 0
    {
      this.panels := panels;
      this.layers := layers;
      revision := 0;
    }

    /** Only the placement named by `id` changes: a panel is placed, a layer is moved if it exists. */
    method CommitPlacement(id: PlacementId, percent: Percent)
      modifies this
      ensures revision == old(revision) + 1
      ensures id.PanelId? ==> panels == old(panels)[id.id := Committed(percent)] && layers == old(layers)
      ensures id.LayerId? ==>
        && panels == old(panels)
        && layers == if id.id in old(layers) then old(layers)[id.id := Committed(percent)] else old(layers)
    {
      var patch := Committed(percent);
      match id {
        case PanelId(panel) =>
          panels := panels[panel := patch];
        case LayerId(layer) =>
          if layer in layers {
            layers := layers[layer := patch];
          }
      }
      revision := revision + 1;
    }
  }

  // ----- the thousandth grid -----

  /** Whole thousandths. */
  predicate OnGrid(x: real) { (x * 1000.0).Floor as real == x * 1000.0 }

  function Grid(n: int): real { n as real / 1000.0 }

  lemma GridIs(x: real) returns (n: int)
    requires OnGrid(x)
    ensures x == Grid(n)
  {
    n := (x * 1000.0).Floor;
  }

  /** The rounded value as a whole number of thousandths. */
  function Thousandths(x: real): int { (x * 1000.0 + 0.5).Floor }

  lemma ThousandthsBounds(x: real)
    ensures Thousandths(x) as real - 0.5 <= x * 1000.0 < Thousandths(x) as real + 0.5
    ensures Round3(x) == Grid(Thousandths(x))
  {
  }

  lemma ThousandthsIs(x: real, n: int)
    requires n as real - 0.5 <= x * 1000.0 < n as real + 0.5
    ensures Thousandths(x) == n
  {
  }

  lemma ThousandthsOfGrid(n: int)
    ensures Thousandths(Grid(n)) == n && OnGrid(Grid(n))
  {
    assert Grid(n) * 1000.0 == n as real;
  }

  lemma RoundNear(x: real)
    ensures -0.0005 <= Round3(x) - x <= 0.0005 && OnGrid(Round3(x))
    ensures OnGrid(x) ==> Round3(x) == x
  {
    ThousandthsBounds(x);
    ThousandthsOfGrid(Thousandths(x));
    if OnGrid(x) {
      var n := GridIs(x);
      ThousandthsOfGrid(n);
    }
  }

  lemma RoundMonotone(x: real, y: real)
    requires x <= y
    ensures Round3(x) <= Round3(y)
  {
    ThousandthsBounds(x);
    ThousandthsBounds(y);
    RoundMonotoneInt(x * 1000.0, y * 1000.0, Thousandths(x), Thousandths(y));
    GridOrder(Thousandths(x), Thousandths(y));
  }

  lemma RoundMonotoneInt(x: real, y: real, n: int, m: int)
    requires x <= y && n as real - 0.5 <= x && y < m as real + 0.5
    ensures n <= m
  {
  }

  // ----- every commit -----

  /** An axis of a box: its position and length as committed. */
  function Position(x: real, length: real): real { Round3(Clamp(x, 0.0, 100.0 - length)) }

  /** Exactly between two thousandths, where rounding goes up. */
  predicate HalfWay(x: real) { x * 1000.0 == Thousandths(x) as real - 0.5 }

  lemma PositionInRange(x: real, length: real)
    requires 0.0 <= length <= 100.0
    ensures 0.0 <= Position(x, length) <= 100.0
    ensures Position(x, length) + Round3(length) <= 100.001
    ensures OnGrid(length) ==> Position(x, length) + Round3(length) <= 100.0
  {
    var c := Clamp(x, 0.0, 100.0 - length);
    RoundMonotone(0.0, c);
    RoundMonotone(c, 100.0);
    ThousandthsOfGrid(0);
    ThousandthsOfGrid(100_000);
    RoundNear(length);
    RoundNear(c);
    if OnGrid(length) {
      var n := GridIs(length);
      ThousandthsOfGrid(100_000 - n);
      assert 100.0 - length == Grid(100_000 - n);
      RoundMonotone(c, 100.0 - length);
    }
  }

  /**
   * A committed box leaves the frame exactly when its length lies half-way between two thousandths and the
   * clamp puts it at the edge: both are then rounded up. It leaves by one thousandth.
   */
  lemma LeavesFrameIff(x: real, length: real)
    requires 0.0 <= length <= 100.0
    ensures Position(x, length) + Round3(length) > 100.0 <==> HalfWay(length) && x >= 100.0 - length
  {
    var c := Clamp(x, 0.0, 100.0 - length);
    ThousandthsBounds(c);
    ThousandthsBounds(length);
    HalvesMeet(c, length);
    assert Position(x, length) + Round3(length) == Grid(Thousandths(c) + Thousandths(length));
    GridOrder(Thousandths(c) + Thousandths(length), 100_000);
    if HalfWay(length) {
      ThousandthsOfGrid(100_000);
      assert length < 100.0;
      assert c == 100.0 - length <==> x >= 100.0 - length;
    }
  }

  /** Two lengths that fill the frame at most are rounded beyond it only when both lie half-way and fill it exactly. */
  lemma HalvesMeet(c: real, length: real)
    requires c + length <= 100.0
    ensures Thousandths(c) + Thousandths(length) > 100_000 <==> HalfWay(length) && c == 100.0 - length
  {
    var p, q := Thousandths(c), Thousandths(length);
    ThousandthsBounds(c);
    ThousandthsBounds(length);
    assert c * 1000.0 + length * 1000.0 <= 100_000.0;
    if p + q > 100_000 {
      assert p as real + q as real >= 100_001.0;
    }
  }

  /**
   * Every commit: sizes within their limits, positions within the frame, and the far edges at most one
   * thousandth out.
   */
  lemma CommitInRange(p: Percent)
    ensures var c := Committed(p);
      && 10.0 <= c.width <= 100.0 && 8.0 <= c.height <= 100.0 && 0.0 <= c.x && 0.0 <= c.y
      && c.x + c.width <= 100.001 && c.y + c.height <= 100.001
      && (OnGrid(p.width) ==> c.x + c.width <= 100.0) && (OnGrid(p.height) ==> c.y + c.height <= 100.0)
  {
    var width, height := Clamp(p.width, 10.0, 100.0), Clamp(p.height, 8.0, 100.0);
    ThousandthsOfGrid(10_000);
    ThousandthsOfGrid(8_000);
    ThousandthsOfGrid(100_000);
    assert Grid(10_000) == 10.0 && Grid(8_000) == 8.0 && Grid(100_000) == 100.0;
    RoundMonotone(10.0, width);
    RoundMonotone(width, 100.0);
    RoundMonotone(8.0, height);
    RoundMonotone(height, 100.0);
    PositionInRange(p.x, width);
    PositionInRange(p.y, height);
  }

  /** A value cut to `min` and `max` and rounded: off by at most half a thousandth, and on the grid. */
  ghost predicate IsCut(c: real, value: real, min: real, max: real) {
    && OnGrid(c)
    && (value <= min ==> -0.0005 <= c - min <= 0.0005)
    && (min <= value <= max ==> -0.0005 <= c - value <= 0.0005)
    && (value >= max ==> -0.0005 <= c - max <= 0.0005)
  }

  lemma RoundedCut(value: real, min: real, max: real)
    requires min <= max
    ensures IsCut(Round3(Clamp(value, min, max)), value, min, max)
  {
    RoundNear(Clamp(value, min, max));
  }

  /** The size as committed before rounding. */
  function SizeOf(value: real, least: real): real {
    if value < least then least else if value > 100.0 then 100.0 else value
  }

  /**
   * A commit keeps what it is given: the size cut to its limits, the position to the room the size leaves, each to the
   * nearest thousandth.
   */
  lemma CommitKeeps(p: Percent)
    ensures var c := Committed(p);
      && IsCut(c.width, p.width, 10.0, 100.0) && IsCut(c.height, p.height, 8.0, 100.0)
      && IsCut(c.x, p.x, 0.0, 100.0 - SizeOf(p.width, 10.0)) && IsCut(c.y, p.y, 0.0, 100.0 - SizeOf(p.height, 8.0))
  {
    RoundedCut(p.width, 10.0, 100.0);
    RoundedCut(p.height, 8.0, 100.0);
    RoundedCut(p.x, 0.0, 100.0 - SizeOf(p.width, 10.0));
    RoundedCut(p.y, 0.0, 100.0 - SizeOf(p.height, 8.0));
  }

  /**
   * What a drag hands to the commit: the box against the safe area, in percent, clamped as the renderer
   * clamps it, `resolvePlacementPercent` of packages/core/src/overlay-layout.ts.
   */
  function Dragged(p: Percent): Percent {
    var x, y := Clamp(p.x, 0.0, 100.0), Clamp(p.y, 0.0, 100.0);
    Percent(x, y, Clamp(p.width, 10.0, RealMax(10.0, 100.0 - x)), Clamp(p.height, 8.0, RealMax(8.0, 100.0 - y)))
  }

  /**
   * A box inside the frame and not below the least size is handed on as it is; any other keeps its near corner as far
   * as that lies in the frame, and never reaches beyond the frame unless the least size does.
   */
  lemma DraggedIs(p: Percent)
    ensures var d := Dragged(p);
      && (d == p <==>
            && 0.0 <= p.x <= 100.0 && 10.0 <= p.width && (p.x + p.width <= 100.0 || p.width == 10.0)
            && 0.0 <= p.y <= 100.0 && 8.0 <= p.height && (p.y + p.height <= 100.0 || p.height == 8.0))
      && (0.0 <= p.x <= 100.0 ==> d.x == p.x) && (0.0 <= p.y <= 100.0 ==> d.y == p.y)
      && d.width >= 10.0 && (d.x + d.width <= 100.0 || d.width == 10.0)
      && d.height >= 8.0 && (d.y + d.height <= 100.0 || d.height == 8.0)
  {
  }

  /**
   * A drag can leave the frame too, though its box is cut to the frame first: exactly when the cut box
   * reaches the edge precisely and its length lies half-way between two thousandths.
   */
  lemma DragLeavesFrameIff(p: Percent)
    ensures var d, c := Dragged(p), Committed(Dragged(p));
      && (c.x + c.width > 100.0 <==> HalfWay(d.width) && d.x + d.width == 100.0)
      && (c.y + c.height > 100.0 <==> HalfWay(d.height) && d.y + d.height == 100.0)
  {
    var d := Dragged(p);
    LeavesFrameIff(d.x, d.width);
    LeavesFrameIff(d.y, d.height);
    WholeIsNotHalfWay(10_000);
    WholeIsNotHalfWay(8_000);
    assert Grid(10_000) == 10.0 && Grid(8_000) == 8.0;
  }

  lemma WholeIsNotHalfWay(n: int)
    ensures !HalfWay(Grid(n))
  {
    ThousandthsOfGrid(n);
  }

  /** A box dragged with the modifier key until it reaches the right edge precisely, its width half-way. */
  lemma CommitCanLeaveFrame()
    ensures var p := Percent(89.9995, 0.0, 10.0005, 8.0);
      Dragged(p) == p && Committed(p).x + Committed(p).width == 100.001
  {
    ThousandthsIs(10.0005, 10_001);
    ThousandthsIs(89.9995, 90_000);
  }

  // ----- arrow keys -----

  /** What one key moves a placement by, in percent: `step` design pixels at `scale`, of a safe area `safe` long. */
  function Delta(step: real, scale: real, safe: real): real
    requires safe > 0.0
  {
    step * scale / safe * 100.0
  }

  /** That percentage of the safe area is `step` design pixels at `scale`, in output pixels. */
  lemma DeltaIsPixels(step: real, scale: real, safe: real)
    requires safe > 0.0
    ensures Delta(step, scale, safe) * safe == 100.0 * step * scale
  {
    var part := step * scale / safe;
    assert part * safe == step * scale;
    assert part * 100.0 * safe == 100.0 * (part * safe);
  }

  /** One key, committed: the stored position `x` of a box whose length is stored. */
  function Nudged(x: real, length: real, delta: real): real { Position(x + delta, length) }

  function NudgedTimes(x: real, length: real, delta: real, n: nat): real {
    if n == 0 then x else Nudged(NudgedTimes(x, length, delta, n - 1), length, delta)
  }

  /** A stored position: on the grid and inside the frame. */
  predicate Stored(x: real, length: real) {
    OnGrid(x) && OnGrid(length) && 0.0 <= length <= 100.0 && 0.0 <= x <= 100.0 - length
  }

  lemma RoundShifts(n: int, delta: real)
    ensures Thousandths(Grid(n) + delta) == n + Thousandths(delta)
  {
    ThousandthsBounds(delta);
    assert (Grid(n) + delta) * 1000.0 == n as real + delta * 1000.0;
    ThousandthsIs(Grid(n) + delta, n + Thousandths(delta));
  }

  function ClampInt(value: int, max: int): int { if value <= 0 then 0 else if value >= max then max else value }

  lemma GridOrder(n: int, m: int)
    ensures n <= m <==> Grid(n) <= Grid(m)
  {
  }

  /**
   * From a stored position a key moves by the rounded step, up to the frame's edge: rounding and clamping
   * commute here.
   */
  lemma NudgeIsWholeStep(n: int, room: int, length: real, delta: real)
    requires length == 100.0 - Grid(room) && 0 <= n <= room <= 100_000
    ensures Nudged(Grid(n), length, delta) == Grid(ClampInt(n + Thousandths(delta), room))
  {
    var x := Grid(n) + delta;
    RoundShifts(n, delta);
    ThousandthsBounds(x);
    ThousandthsOfGrid(0);
    ThousandthsOfGrid(room);
    assert Grid(0) == 0.0 && 100.0 - length == Grid(room);
    if x <= 0.0 {
      RoundMonotone(x, 0.0);
      GridOrder(Thousandths(x), 0);
      assert Clamp(x, 0.0, Grid(room)) == 0.0;
    } else if x >= Grid(room) {
      RoundMonotone(Grid(room), x);
      GridOrder(room, Thousandths(x));
      assert Clamp(x, 0.0, Grid(room)) == Grid(room);
    } else {
      RoundMonotone(0.0, x);
      RoundMonotone(x, Grid(room));
      GridOrder(0, Thousandths(x));
      GridOrder(Thousandths(x), room);
      assert Clamp(x, 0.0, Grid(room)) == x;
    }
  }

  /** An arrow key moves the stored box and never resizes it: each axis is nudged on its own. */
  lemma NudgeKeepsSize(p: Percent, dx: real, dy: real)
    requires Stored(p.x, p.width) && Stored(p.y, p.height) && 10.0 <= p.width && 8.0 <= p.height
    ensures Committed(Percent(p.x + dx, p.y + dy, p.width, p.height))
         == Percent(Nudged(p.x, p.width, dx), Nudged(p.y, p.height, dy), p.width, p.height)
  {
    RoundNear(p.width);
    RoundNear(p.height);
  }

  lemma ClampedSteps(n: int, room: int, step: int, k: nat)
    requires 0 <= n <= room
    ensures ClampInt(ClampInt(n + k * step, room) + step, room) == ClampInt(n + (k + 1) * step, room)
  {
    assert (k + 1) * step == k * step + step;
    if step >= 0 {
      assert k * step >= 0;
    } else {
      assert k * step <= 0;
    }
  }

  /** After `k` keys in one direction the box stands `k` rounded steps away, or at the frame's edge. */
  lemma {:induction false} NudgesAddUp(n: int, room: int, length: real, delta: real, k: nat)
    requires length == 100.0 - Grid(room) && 0 <= n <= room <= 100_000
    ensures NudgedTimes(Grid(n), length, delta, k) == Grid(ClampInt(n + k * Thousandths(delta), room))
  {
    if k > 0 {
      var step := Thousandths(delta);
      NudgesAddUp(n, room, length, delta, k - 1);
      var at := ClampInt(n + (k - 1) * step, room);
      NudgeIsWholeStep(at, room, length, delta);
      ClampedSteps(n, room, step, k - 1);
    }
  }

  /** Eight rounded steps and one rounded step of eight differ by at most four thousandths. */
  lemma EightSteps(delta: real)
    ensures -4 <= 8 * Thousandths(delta) - Thousandths(8.0 * delta) <= 4
  {
    ThousandthsBounds(delta);
    ThousandthsBounds(8.0 * delta);
  }

  lemma StoredIsGrid(x: real, length: real) returns (n: int, room: int)
    requires Stored(x, length)
    ensures x == Grid(n) && length == 100.0 - Grid(room) && 0 <= n <= room <= 100_000
  {
    n := GridIs(x);
    var l := GridIs(length);
    room := 100_000 - l;
    GridOrder(0, n);
    GridOrder(n, room);
    GridOrder(0, l);
  }

  /**
   * Eight arrow keys and one with Shift, from a stored box: never more than four thousandths apart, the
   * frame's edge included. They agree exactly when the rounded steps agree, or both end at the same edge.
   */
  lemma EightKeysAgainstShift(x: real, length: real, scale: real, safe: real, direction: real)
    requires Stored(x, length) && safe > 0.0 && (direction == 1.0 || direction == -1.0)
    ensures var one, eight := Delta(direction, scale, safe), Delta(8.0 * direction, scale, safe);
      var keys, shift := NudgedTimes(x, length, one, 8), Nudged(x, length, eight);
      && -0.004 <= keys - shift <= 0.004
      && (keys == shift <==>
            || 8 * Thousandths(one) == Thousandths(eight)
            || (x + 8.0 * Round3(one) <= 0.0 && x + Round3(eight) <= 0.0)
            || (x + 8.0 * Round3(one) >= 100.0 - length && x + Round3(eight) >= 100.0 - length))
  {
    var one, eight := Delta(direction, scale, safe), Delta(8.0 * direction, scale, safe);
    DeltaScales(direction, scale, safe);
    EightKeysOf(x, length, one, eight);
  }

  lemma DeltaScales(step: real, scale: real, safe: real)
    requires safe > 0.0
    ensures Delta(8.0 * step, scale, safe) == 8.0 * Delta(step, scale, safe)
  {
  }

  lemma EightKeysOf(x: real, length: real, one: real, eight: real)
    requires Stored(x, length) && eight == 8.0 * one
    ensures var keys, shift := NudgedTimes(x, length, one, 8), Nudged(x, length, eight);
      && -0.004 <= keys - shift <= 0.004
      && (keys == shift <==>
            || 8 * Thousandths(one) == Thousandths(eight)
            || (x + 8.0 * Round3(one) <= 0.0 && x + Round3(eight) <= 0.0)
            || (x + 8.0 * Round3(one) >= 100.0 - length && x + Round3(eight) >= 100.0 - length))
  {
    var n, room := StoredIsGrid(x, length);
    var r, s := Thousandths(one), Thousandths(eight);
    var a, b := ClampInt(n + 8 * r, room), ClampInt(n + s, room);
    NudgesAddUp(n, room, length, one, 8);
    NudgeIsWholeStep(n, room, length, eight);
    EightSteps(one);
    SameSign(one, eight, r, s);
    ClampedAgree(n, 8 * r, s, room);
    GridDifference(a, b);
    GridOrder(a, b);
    GridOrder(b, a);
    EdgesOnGrid(x, length, n, room, 8 * r, s, 8.0 * Round3(one), Round3(eight));
  }

  /** The two edge conditions, in percent and in thousandths. */
  lemma EdgesOnGrid(x: real, length: real, n: int, room: int, a: int, b: int, keys: real, shift: real)
    requires x == Grid(n) && length == 100.0 - Grid(room) && keys == Grid(a) && shift == Grid(b)
    ensures x + keys <= 0.0 <==> n + a <= 0
    ensures x + shift <= 0.0 <==> n + b <= 0
    ensures x + keys >= 100.0 - length <==> n + a >= room
    ensures x + shift >= 100.0 - length <==> n + b >= room
  {
  }

  /** Clamped to one room, two moves in one direction end together when they are equal, or both reach the same edge. */
  lemma ClampedAgree(n: int, a: int, b: int, room: int)
    requires 0 <= n <= room && ((a >= 0 && b >= 0) || (a <= 0 && b <= 0)) && -4 <= a - b <= 4
    ensures -4 <= ClampInt(n + a, room) - ClampInt(n + b, room) <= 4
    ensures ClampInt(n + a, room) == ClampInt(n + b, room)
      <==> a == b || (n + a <= 0 && n + b <= 0) || (n + a >= room && n + b >= room)
  {
  }

  lemma GridDifference(a: int, b: int)
    requires -4 <= a - b <= 4
    ensures -0.004 <= Grid(a) - Grid(b) <= 0.004
  {
  }

  lemma SameSign(one: real, eight: real, r: int, s: int)
    requires eight == 8.0 * one && r == Thousandths(one) && s == Thousandths(eight)
    ensures (r >= 0 && s >= 0) || (r <= 0 && s <= 0)
  {
    ThousandthsBounds(one);
    ThousandthsBounds(eight);
  }

  /**
   * They do not always agree: at 1920 by 1080 inside the safe area, eight keys fall two thousandths short of one
   * Shift.
   */
  lemma EightKeysCanFallShort()
    ensures NudgedTimes(20.0, 30.0, Delta(1.0, 1.0, 1776.0), 8) == 20.448
    ensures Nudged(20.0, 30.0, Delta(8.0, 1.0, 1776.0)) == 20.450
  {
    KeyAt1080();
    KeysOf56(Delta(1.0, 1.0, 1776.0), 8);
    ShiftOf450(Delta(8.0, 1.0, 1776.0));
  }

  lemma KeysOf56(one: real, k: nat)
    requires Thousandths(one) == 56 && k == 8
    ensures NudgedTimes(20.0, 30.0, one, k) == 20.448
  {
    assert Grid(20_000) == 20.0 && 30.0 == 100.0 - Grid(70_000);
    NudgesAddUp(20_000, 70_000, 30.0, one, k);
    assert ClampInt(20_000 + k * 56, 70_000) == 20_448 && Grid(20_448) == 20.448;
  }

  lemma ShiftOf450(eight: real)
    requires Thousandths(eight) == 450
    ensures Nudged(20.0, 30.0, eight) == 20.450
  {
    assert Grid(20_000) == 20.0 && 30.0 == 100.0 - Grid(70_000);
    NudgeIsWholeStep(20_000, 70_000, 30.0, eight);
    assert ClampInt(20_450, 70_000) == 20_450 && Grid(20_450) == 20.450;
  }

  lemma KeyAt1080()
    ensures Thousandths(Delta(1.0, 1.0, 1776.0)) == 56 && Thousandths(Delta(8.0, 1.0, 1776.0)) == 450
  {
    var one, eight := Delta(1.0, 1.0, 1776.0), Delta(8.0, 1.0, 1776.0);
    assert one * 1776.0 == 100.0 && eight * 1776.0 == 800.0;
    ThousandthsIs(one, 56);
    ThousandthsIs(eight, 450);
  }
}
