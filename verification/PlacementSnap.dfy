/**
 * Snapping and overlap of the overlay's boxes, in design pixels: apps/web/lib/overlay-placement-drag.ts.
 * Lengths are real numbers.
 */
module PlacementSnap {
  import opened Wrappers

  datatype Box = Box(left: real, top: real, width: real, height: real)

  datatype Targets = Targets(x: seq<real>, y: seq<real>)

  datatype Edge = Left | Right | Top | Bottom

  const GRID: real := 8.0
  const THRESHOLD: real := 6.0
  const MIN_SIZE: real := 8.0

  function Abs(x: real): real { if x >= 0.0 then x else -x }

  /** The nearest whole number, halves up. */
  function Round(x: real): real { (x + 0.5).Floor as real }

  function GridLine(x: real): real { Round(x / GRID) * GRID }

  /** A whole number of grid cells. */
  predicate OnGrid(x: real) { (x / 8.0).Floor as real == x / 8.0 }

  /** The grid line is the nearest one, the higher of two. */
  lemma GridLineNear(x: real)
    ensures OnGrid(GridLine(x)) && -4.0 < GridLine(x) - x <= 4.0
  {
    var k := (x / GRID + 0.5).Floor;
    assert k as real <= x / GRID + 0.5 < k as real + 1.0;
    assert GridLine(x) / 8.0 == k as real;
  }

  // ----- one coordinate -----

  /** The line a coordinate lands on, and the guide that drew it there. */
  datatype Snapped = Snapped(value: real, guide: Option<real>)

  /** The nearest target within the threshold; of several, the last. */
  function Nearest(value: real, targets: seq<real>): (best: Option<real>)
    ensures best.Some? ==> best.value in targets && Abs(value - best.value) <= THRESHOLD
    ensures forall t :: t in targets ==>
      Abs(value - t) > THRESHOLD || (best.Some? && Abs(value - best.value) <= Abs(value - t))
  {
    if targets == [] then None
    else
      var n := |targets| - 1;
      var before := Nearest(value, targets[..n]);
      assert forall t :: t in targets <==> t in targets[..n] || t == targets[n];
      if Abs(value - targets[n]) <= (if before.Some? then Abs(value - before.value) else THRESHOLD)
      then Some(targets[n]) else before
  }

  function SnapOf(value: real, targets: seq<real>, free: bool): Snapped {
    if free then Snapped(value, None)
    else match Nearest(value, targets)
      case Some(best) => Snapped(best, Some(best))
      case None => Snapped(GridLine(value), None)
  }

  method SnapCoordinate(value: real, targets: seq<real>, free: bool) returns (s: Snapped)
    ensures s == SnapOf(value, targets, free)
  {
    if free {
      return Snapped(value, None);
    }
    var best: Option<real> := None;
    var bestDistance := THRESHOLD;
    for i := 0 to |targets|
      invariant best == Nearest(value, targets[..i])
      invariant bestDistance == if best.Some? then Abs(value - best.value) else THRESHOLD
    {
      assert targets[..i + 1][..i] == targets[..i];
      var distance := Abs(value - targets[i]);
      if distance <= bestDistance {
        best := Some(targets[i]);
        bestDistance := distance;
      }
    }
    assert targets[..|targets|] == targets;
    if best.Some? {
      return Snapped(best.value, best);
    }
    return Snapped(Round(value / GRID) * GRID, None);
  }

  // ----- a box being moved -----

  /** One of the box's own lines. */
  datatype Candidate = Candidate(offset: real, from: real)

  function Candidates(start: real, size: real): seq<Candidate> {
    [Candidate(0.0, start), Candidate(size / 2.0, start + size / 2.0), Candidate(size, start + size)]
  }

  datatype Winner = Winner(start: real, guide: real, distance: real)

  function Better(winner: Option<Winner>, c: Candidate, lines: seq<real>, free: bool): Option<Winner> {
    var s := SnapOf(c.from, lines, free);
    if s.guide.None? then winner
    else
      var distance := Abs(s.value - c.from);
      if winner.None? || distance < winner.value.distance
      then Some(Winner(s.value - c.offset, s.guide.value, distance)) else winner
  }

  function Best(cs: seq<Candidate>, lines: seq<real>, free: bool): Option<Winner> {
    if cs == [] then None else Better(Best(cs[..|cs| - 1], lines, free), cs[|cs| - 1], lines, free)
  }

  lemma BestNext(cs: seq<Candidate>, i: nat, lines: seq<real>, free: bool)
    requires i < |cs|
    ensures Best(cs[..i + 1], lines, free) == Better(Best(cs[..i], lines, free), cs[i], lines, free)
  {
    assert cs[..i + 1][..i] == cs[..i];
  }

  datatype Axis = Axis(start: real, guide: Option<real>)

  function AxisOf(start: real, size: real, lines: seq<real>, free: bool): Axis {
    match Best(Candidates(start, size), lines, free)
    case Some(winner) => Axis(winner.start, Some(winner.guide))
    case None => Axis(SnapOf(start, [], free).value, None)
  }

  method SnapAxis(start: real, size: real, lines: seq<real>, free: bool) returns (a: Axis)
    ensures a == AxisOf(start, size, lines, free)
  {
    var candidates := Candidates(start, size);
    var winner: Option<Winner> := None;
    for i := 0 to |candidates|
      invariant winner == Best(candidates[..i], lines, free)
    {
      BestNext(candidates, i, lines, free);
      var candidate := candidates[i];
      var snapped := SnapCoordinate(candidate.from, lines, free);
      if snapped.guide.Some? {
        var distance := Abs(snapped.value - candidate.from);
        if winner.None? || distance < winner.value.distance {
          winner := Some(Winner(snapped.value - candidate.offset, snapped.guide.value, distance));
        }
      }
    }
    assert candidates[..|candidates|] == candidates;
    if winner.Some? {
      return Axis(winner.value.start, Some(winner.value.guide));
    }
    var grid := SnapCoordinate(start, [], free);
    return Axis(grid.value, None);
  }

  function Guides(guide: Option<real>): seq<real> { if guide.Some? then [guide.value] else [] }

  function AcrossOf(box: Box, targets: Targets, free: bool): Axis { AxisOf(box.left, box.width, targets.x, free) }

  function DownOf(box: Box, targets: Targets, free: bool): Axis { AxisOf(box.top, box.height, targets.y, free) }

  /** Where a move puts the box. */
  function MovedBox(box: Box, targets: Targets, free: bool): Box {
    Box(AcrossOf(box, targets, free).start, DownOf(box, targets, free).start, box.width, box.height)
  }

  method SnapMovedBox(box: Box, targets: Targets, free: bool) returns (moved: Box, guides: Targets)
    ensures moved == MovedBox(box, targets, free)
    ensures guides == Targets(Guides(AcrossOf(box, targets, free).guide), Guides(DownOf(box, targets, free).guide))
  {
    var horizontal := SnapAxis(box.left, box.width, targets.x, free);
    var vertical := SnapAxis(box.top, box.height, targets.y, free);
    moved := Box(horizontal.start, vertical.start, box.width, box.height);
    guides := Targets(Guides(horizontal.guide), Guides(vertical.guide));
  }

  /** The winner puts one of the candidates on a target within reach. */
  ghost predicate Lands(w: Winner, cs: seq<Candidate>, lines: seq<real>) {
    exists c :: c in cs && w.start + c.offset == w.guide && w.guide in lines
      && w.distance == Abs(w.guide - c.from) <= THRESHOLD
  }

  /** No candidate is nearer to a target than the winner is, or as near as the threshold when there is none. */
  ghost predicate NoneNearer(w: Option<Winner>, c: Candidate, lines: seq<real>) {
    forall t :: t in lines ==> Abs(c.from - t) > THRESHOLD || (w.Some? && w.value.distance <= Abs(c.from - t))
  }

  lemma BetterIsNearest(w: Option<Winner>, c: Candidate, lines: seq<real>)
    ensures var b := Better(w, c, lines, false);
      && NoneNearer(b, c, lines)
      && (w.Some? ==> b.Some? && b.value.distance <= w.value.distance)
      && (b == w || (b.Some? && Lands(b.value, [c], lines)))
  {
    var b := Better(w, c, lines, false);
    if b != w {
      assert c in [c];
    }
  }

  lemma {:induction false} BestIsNearest(cs: seq<Candidate>, lines: seq<real>)
    ensures var w := Best(cs, lines, false);
      && (w.Some? ==> Lands(w.value, cs, lines))
      && (forall c :: c in cs ==> NoneNearer(w, c, lines))
  {
    if cs != [] {
      var n := |cs| - 1;
      var before := Best(cs[..n], lines, false);
      BestIsNearest(cs[..n], lines);
      BetterIsNearest(before, cs[n], lines);
      var w := Best(cs, lines, false);
      forall c | c in cs ensures NoneNearer(w, c, lines) {
        if c != cs[n] {
          assert c in cs[..n];
          assert NoneNearer(before, c, lines);
        }
      }
      assert forall c :: c in [cs[n]] || c in cs[..n] ==> c in cs;
    }
  }

  lemma {:induction false} FreeHasNoWinner(cs: seq<Candidate>, lines: seq<real>)
    ensures Best(cs, lines, true) == None
  {
    if cs != [] {
      FreeHasNoWinner(cs[..|cs| - 1], lines);
    }
  }

  /** One of the box's three lines: its start, its middle or its end. */
  predicate IsOffset(o: real, size: real) { o == 0.0 || o == size / 2.0 || o == size }

  /** The guide is one of the lines, and one of the box's own lines lies exactly on it, at most 6 from where it was. */
  ghost predicate OnGuide(a: Axis, start: real, size: real, lines: seq<real>) {
    && a.guide.Some? && a.guide.value in lines
    && Abs(a.start - start) <= 6.0
    && exists o :: IsOffset(o, size) && a.start + o == a.guide.value
  }

  /** No line of the box within 6 of a target: none at all without a guide, and none nearer than the move with one. */
  ghost predicate LeastMove(a: Axis, start: real, size: real, lines: seq<real>) {
    forall o, t :: IsOffset(o, size) && t in lines ==>
      Abs(start + o - t) > 6.0 || (a.guide.Some? && Abs(a.start - start) <= Abs(start + o - t))
  }

  /**
   * A move along one axis. A guide is one of the lines, within reach of one of the box's own lines, which
   * then lies exactly on it; and no other pairing of a line of the box with a target would have moved it
   * less. Without a guide no target is in reach, and the start lies on the grid, at most 4 away.
   */
  lemma MovedAxis(start: real, size: real, lines: seq<real>)
    ensures var a := AxisOf(start, size, lines, false);
      && LeastMove(a, start, size, lines)
      && (OnGuide(a, start, size, lines)
        || (a.guide.None? && OnGrid(a.start) && -4.0 < a.start - start <= 4.0))
  {
    BestIsNearest(Candidates(start, size), lines);
    match Best(Candidates(start, size), lines, false) {
      case Some(w) =>
        var c :| c in Candidates(start, size) && w.start + c.offset == w.guide && w.guide in lines
          && w.distance == Abs(w.guide - c.from) <= THRESHOLD;
        GuidedAxis(start, size, lines, w, c);
      case None => GridAxis(start, size, lines);
    }
  }

  lemma GuidedAxis(start: real, size: real, lines: seq<real>, w: Winner, c: Candidate)
    requires c in Candidates(start, size) && w.start + c.offset == w.guide && w.guide in lines
    requires w.distance == Abs(w.guide - c.from) <= THRESHOLD
    requires forall d :: d in Candidates(start, size) ==> NoneNearer(Some(w), d, lines)
    ensures OnGuide(Axis(w.start, Some(w.guide)), start, size, lines)
    ensures LeastMove(Axis(w.start, Some(w.guide)), start, size, lines)
  {
    OwnLine(start, size, c);
    assert w.distance == Abs(w.start - start);
    NoneLess(start, size, lines, Some(w), Axis(w.start, Some(w.guide)));
  }

  lemma NoneLess(start: real, size: real, lines: seq<real>, w: Option<Winner>, a: Axis)
    requires forall c :: c in Candidates(start, size) ==> NoneNearer(w, c, lines)
    requires w.Some? ==> a.guide.Some? && w.value.distance == Abs(a.start - start)
    ensures LeastMove(a, start, size, lines)
  {
    forall o, t | IsOffset(o, size) && t in lines
      ensures Abs(start + o - t) > 6.0 || (a.guide.Some? && Abs(a.start - start) <= Abs(start + o - t))
    {
      OwnCandidate(start, size, o);
      assert NoneNearer(w, Candidate(o, start + o), lines);
    }
  }

  lemma GridAxis(start: real, size: real, lines: seq<real>)
    requires forall c :: c in Candidates(start, size) ==> NoneNearer(None, c, lines)
    ensures OnGrid(GridLine(start)) && -4.0 < GridLine(start) - start <= 4.0
    ensures LeastMove(Axis(GridLine(start), None), start, size, lines)
  {
    GridLineNear(start);
    NoneLess(start, size, lines, None, Axis(GridLine(start), None));
  }

  lemma OwnLine(start: real, size: real, c: Candidate)
    requires c in Candidates(start, size)
    ensures IsOffset(c.offset, size) && c.from == start + c.offset
  {
  }

  lemma OwnCandidate(start: real, size: real, o: real)
    requires IsOffset(o, size)
    ensures Candidate(o, start + o) in Candidates(start, size)
  {
    var cs := Candidates(start, size);
    assert cs[0] in cs && cs[1] in cs && cs[2] in cs;
  }

  /** With the modifier key nothing moves. */
  lemma FreeAxis(start: real, size: real, lines: seq<real>)
    ensures AxisOf(start, size, lines, true) == Axis(start, None)
  {
    FreeHasNoWinner(Candidates(start, size), lines);
  }

  // ----- a box being resized -----

  /** A box along one axis. */
  datatype Span = Span(start: real, length: real) {
    function End(): real { start + length }
  }

  /** The held end of a span lies on its line and the other end stays: the low end when both are held. */
  ghost predicate Held(was: Span, low: bool, high: bool, lines: seq<real>, free: bool, r: Span, guides: seq<real>) {
    && (low ==> var s := SnapOf(was.start, lines, free);
          r.start == s.value && r.End() == was.End() && guides == Guides(s.guide))
    && (!low && high ==> var s := SnapOf(was.End(), lines, free);
          r.start == was.start && r.End() == s.value && guides == Guides(s.guide))
    && (!low && !high ==> r == was && guides == [])
  }

  method HoldEdge(span: Span, low: bool, high: bool, lines: seq<real>, free: bool) returns (r: Span, guides: seq<real>)
    ensures Held(span, low, high, lines, free, r, guides)
  {
    r, guides := span, [];
    if low {
      var snapped := SnapCoordinate(span.start, lines, free);
      r := Span(snapped.value, span.length + (span.start - snapped.value));
      if snapped.guide.Some? {
        guides := guides + [snapped.guide.value];
      }
    } else if high {
      var snapped := SnapCoordinate(span.start + span.length, lines, free);
      r := Span(span.start, snapped.value - span.start);
      if snapped.guide.Some? {
        guides := guides + [snapped.guide.value];
      }
    }
  }

  /**
   * What a resize without an aspect does along one axis. A held end lies on its line, reported as a guide,
   * and the opposite end stays in place, exactly while the length between them is not below the least size;
   * below it the span keeps its start and takes that size.
   */
  ghost predicate Resized(was: Span, low: bool, high: bool, lines: seq<real>, free: bool, r: Span, guides: seq<real>) {
    && r.length >= 8.0
    && (low ==> var s := SnapOf(was.start, lines, free);
          && r.start == s.value && guides == Guides(s.guide)
          && (r.End() == was.End() <==> was.End() - r.start >= 8.0)
          && (was.End() - r.start < 8.0 ==> r.length == 8.0))
    && (!low && high ==> var s := SnapOf(was.End(), lines, free);
          && r.start == was.start && guides == Guides(s.guide)
          && (r.End() == s.value <==> s.value - was.start >= 8.0)
          && (s.value - was.start < 8.0 ==> r.length == 8.0))
    && (!low && !high ==> r.start == was.start && r.length == RealMax(8.0, was.length) && guides == [])
  }

  /**
   * With an aspect the height follows the width: the shape holds exactly when the height it asks for is not
   * below the least size.
   */
  ghost predicate FollowsWidth(was: Span, top: bool, lines: seq<real>, free: bool, width: real, aspect: real, r: Span) {
    && r.length >= 8.0
    && (aspect > 0.0 ==> (width == aspect * r.length <==> width / aspect >= 8.0)
                         && (width / aspect < 8.0 ==> r.length == 8.0))
    && (!top ==> r.start == was.start)
    && (top ==> (r.End() == was.End() <==> was.End() - SnapOf(was.start, lines, free).value >= 8.0))
  }

  lemma LeastSize(was: Span, low: bool, high: bool, lines: seq<real>, free: bool, held: Span, guides: seq<real>)
    requires Held(was, low, high, lines, free, held, guides)
    ensures Resized(was, low, high, lines, free, Span(held.start, RealMax(MIN_SIZE, held.length)), guides)
  {
  }

  lemma LockedHeight(was: Span, low: bool, high: bool, lines: seq<real>, free: bool, held: Span, guides: seq<real>,
      width: real, aspect: real)
    requires Held(was, low, high, lines, free, held, guides) && aspect > 0.0
    ensures var next := RealMax(MIN_SIZE, width / aspect);
      FollowsWidth(was, low, lines, free, width, aspect,
                   Span(if low then held.start + (RealMax(MIN_SIZE, held.length) - next) else held.start, next))
  {
    ShapeHolds(width, aspect, RealMax(MIN_SIZE, width / aspect));
  }

  /** Only the held edges move; the height of a box with an aspect follows its width. */
  method SnapResizedBox(box: Box, held: set<Edge>, targets: Targets, free: bool, aspect: Option<real>)
    returns (resized: Box, guides: Targets)
    ensures Resized(Span(box.left, box.width), Left in held, Right in held, targets.x, free,
      Span(resized.left, resized.width), guides.x)
    ensures !Locked(aspect) ==>
      Resized(Span(box.top, box.height), Top in held, Bottom in held, targets.y, free,
        Span(resized.top, resized.height), guides.y)
    ensures Locked(aspect) ==>
      && FollowsWidth(Span(box.top, box.height), Top in held, targets.y, free, resized.width, aspect.value,
        Span(resized.top, resized.height))
      && guides.y == []
  {
    var wasX, wasY := Span(box.left, box.width), Span(box.top, box.height);
    var h, xs := HoldEdge(wasX, Left in held, Right in held, targets.x, free);
    var v, ys := HoldEdge(wasY, Top in held, Bottom in held, targets.y, free);
    var left, top := h.start, v.start;
    var width := RealMax(MIN_SIZE, h.length);
    var height := RealMax(MIN_SIZE, v.length);
    guides := Targets(xs, ys);
    LeastSize(wasX, Left in held, Right in held, targets.x, free, h, xs);
    LeastSize(wasY, Top in held, Bottom in held, targets.y, free, v, ys);
    if Locked(aspect) {
      LockedHeight(wasY, Top in held, Bottom in held, targets.y, free, v, ys, width, aspect.value);
      var nextHeight := RealMax(MIN_SIZE, width / aspect.value);
      if Top in held {
        top := top + (height - nextHeight);
      }
      height := nextHeight;
      guides := guides.(y := []);
    }
    resized := Box(left, top, width, height);
  }

  /** An aspect that is left out, zero or negative is no aspect. */
  predicate Locked(aspect: Option<real>) { aspect.Some? && aspect.value > 0.0 }

  lemma ShapeHolds(width: real, aspect: real, height: real)
    requires aspect > 0.0 && height == RealMax(MIN_SIZE, width / aspect)
    ensures width == aspect * height <==> width / aspect >= MIN_SIZE
  {
    assert aspect * (width / aspect) == width;
    if width / aspect < MIN_SIZE {
      assert aspect * (MIN_SIZE - width / aspect) > 0.0;
    }
  }

  // ----- overlap -----

  /** The rectangle two boxes share. */
  function Intersect(first: Box, second: Box): Option<Box> {
    var left := RealMax(first.left, second.left);
    var top := RealMax(first.top, second.top);
    var right := RealMin(first.left + first.width, second.left + second.width);
    var bottom := RealMin(first.top + first.height, second.top + second.height);
    if right <= left || bottom <= top then None else Some(Box(left, top, right - left, bottom - top))
  }

  /** A box holds its left and top edges, not its right and bottom ones. */
  predicate Covers(b: Box, x: real, y: real) {
    b.left <= x < b.left + b.width && b.top <= y < b.top + b.height
  }

  ghost predicate SharePoint(a: Box, b: Box) {
    exists x, y :: Covers(a, x, y) && Covers(b, x, y)
  }

  /** The shared rectangle holds exactly the shared points. */
  lemma IntersectIsShared(a: Box, b: Box, x: real, y: real)
    ensures Covers(a, x, y) && Covers(b, x, y) <==> Intersect(a, b).Some? && Covers(Intersect(a, b).value, x, y)
  {
  }

  /** There is none exactly when the boxes share no point, as when they merely touch; and the order does not matter. */
  lemma IntersectIff(a: Box, b: Box)
    ensures Intersect(a, b).Some? <==> SharePoint(a, b)
    ensures Intersect(a, b) == Intersect(b, a)
  {
    if Intersect(a, b).Some? {
      var r := Intersect(a, b).value;
      assert Covers(a, r.left, r.top) && Covers(b, r.left, r.top);
    }
  }

  // ----- the lines offered -----

  function Hundredths(x: real): real { Round(x * 100.0) / 100.0 }

  /** Rounded to hundredths, each value once, in order of first appearance. */
  function Unique(values: seq<real>): (r: seq<real>)
    ensures forall v :: v in values ==> Hundredths(v) in r
    ensures forall u :: u in r ==> exists v :: v in values && Hundredths(v) == u
    ensures forall i, j :: 0 <= i < j < |r| ==> r[i] != r[j]
  {
    if values == [] then []
    else
      var n := |values| - 1;
      var before := Unique(values[..n]);
      assert forall v :: v in values <==> v in values[..n] || v == values[n];
      assert values[n] in values;
      if Hundredths(values[n]) in before then before else before + [Hundredths(values[n])]
  }

  datatype Frame = Frame(width: real, height: real)

  function NeighbourX(neighbours: seq<Box>): seq<real> {
    if neighbours == [] then []
    else
      var n := neighbours[|neighbours| - 1];
      NeighbourX(neighbours[..|neighbours| - 1]) + [n.left, n.left + n.width / 2.0, n.left + n.width]
  }

  function NeighbourY(neighbours: seq<Box>): seq<real> {
    if neighbours == [] then []
    else
      var n := neighbours[|neighbours| - 1];
      NeighbourY(neighbours[..|neighbours| - 1]) + [n.top, n.top + n.height / 2.0, n.top + n.height]
  }

  function FrameX(safe: Box, frame: Frame): seq<real> {
    [0.0, frame.width, frame.width / 2.0, safe.left, safe.left + safe.width, safe.left + safe.width / 2.0]
  }

  function FrameY(safe: Box, frame: Frame): seq<real> {
    [0.0, frame.height, frame.height / 2.0, safe.top, safe.top + safe.height, safe.top + safe.height / 2.0]
  }

  /** `t` is one of the span's three lines, in hundredths. */
  predicate IsLineOf(t: real, start: real, length: real) {
    t == Hundredths(start) || t == Hundredths(start + length / 2.0) || t == Hundredths(start + length)
  }

  /**
   * The targets along one axis: exactly the start, the middle and the end of the frame, of the safe area and of
   * every neighbour, in hundredths, each value once.
   */
  ghost predicate AreTheLines(targets: seq<real>, frame: real, safe: Span, neighbours: seq<Span>) {
    && (forall t :: t in targets <==>
          || IsLineOf(t, 0.0, frame) || IsLineOf(t, safe.start, safe.length)
          || exists n :: n in neighbours && IsLineOf(t, n.start, n.length))
    && (forall j, k :: 0 <= j < k < |targets| ==> targets[j] != targets[k])
  }

  function AllAcross(boxes: seq<Box>): (spans: seq<Span>)
    ensures |spans| == |boxes| && forall i :: 0 <= i < |boxes| ==> spans[i] == Span(boxes[i].left, boxes[i].width)
  {
    seq(|boxes|, i requires 0 <= i < |boxes| => Span(boxes[i].left, boxes[i].width))
  }

  function AllDown(boxes: seq<Box>): (spans: seq<Span>)
    ensures |spans| == |boxes| && forall i :: 0 <= i < |boxes| ==> spans[i] == Span(boxes[i].top, boxes[i].height)
  {
    seq(|boxes|, i requires 0 <= i < |boxes| => Span(boxes[i].top, boxes[i].height))
  }

  /** `lines` is made of the neighbours' lines. */
  ghost predicate AreNeighbourLines(lines: seq<real>, neighbours: seq<Span>) {
    forall v :: v in lines <==>
      exists n :: n in neighbours && (v == n.start || v == n.start + n.length / 2.0 || v == n.start + n.length)
  }

  lemma NextNeighbour(lines: seq<real>, neighbours: seq<Span>, n: Span)
    requires AreNeighbourLines(lines, neighbours)
    ensures AreNeighbourLines(lines + [n.start, n.start + n.length / 2.0, n.start + n.length], neighbours + [n])
  {
    var own := [n.start, n.start + n.length / 2.0, n.start + n.length];
    assert own[0] in own && own[1] in own && own[2] in own;
    var all := neighbours + [n];
    assert n in all && forall m :: m in neighbours ==> m in all;
  }

  lemma {:induction false} NeighbourLinesX(neighbours: seq<Box>)
    ensures AreNeighbourLines(NeighbourX(neighbours), AllAcross(neighbours))
  {
    if neighbours != [] {
      var before, n := neighbours[..|neighbours| - 1], neighbours[|neighbours| - 1];
      NeighbourLinesX(before);
      NextNeighbour(NeighbourX(before), AllAcross(before), Span(n.left, n.width));
      assert AllAcross(neighbours) == AllAcross(before) + [Span(n.left, n.width)];
    }
  }

  lemma {:induction false} NeighbourLinesY(neighbours: seq<Box>)
    ensures AreNeighbourLines(NeighbourY(neighbours), AllDown(neighbours))
  {
    if neighbours != [] {
      var before, n := neighbours[..|neighbours| - 1], neighbours[|neighbours| - 1];
      NeighbourLinesY(before);
      NextNeighbour(NeighbourY(before), AllDown(before), Span(n.top, n.height));
      assert AllDown(neighbours) == AllDown(before) + [Span(n.top, n.height)];
    }
  }

  /** The six lines of frame and safe area. */
  ghost predicate AreFrameLines(lines: seq<real>, frame: real, safe: Span) {
    forall v :: v in lines <==>
      || v == 0.0 || v == frame || v == frame / 2.0
      || v == safe.start || v == safe.start + safe.length || v == safe.start + safe.length / 2.0
  }

  lemma LineOfSome(v: real, own: seq<real>, others: seq<real>, frame: real, safe: Span, neighbours: seq<Span>)
    requires AreFrameLines(own, frame, safe) && AreNeighbourLines(others, neighbours) && v in own + others
    ensures var t := Hundredths(v);
      || IsLineOf(t, 0.0, frame) || IsLineOf(t, safe.start, safe.length)
      || exists n :: n in neighbours && IsLineOf(t, n.start, n.length)
  {
  }

  lemma TargetIsLine(
    own: seq<real>, others: seq<real>, frame: real, safe: Span, neighbours: seq<Span>, t: real)
    requires AreFrameLines(own, frame, safe) && AreNeighbourLines(others, neighbours) && t in Unique(own + others)
    ensures || IsLineOf(t, 0.0, frame) || IsLineOf(t, safe.start, safe.length)
            || exists n :: n in neighbours && IsLineOf(t, n.start, n.length)
  {
    var v :| v in own + others && Hundredths(v) == t;
    LineOfSome(v, own, others, frame, safe, neighbours);
  }

  lemma OwnIsTarget(own: seq<real>, others: seq<real>, frame: real, safe: Span, t: real)
    requires AreFrameLines(own, frame, safe) && (IsLineOf(t, 0.0, frame) || IsLineOf(t, safe.start, safe.length))
    ensures t in Unique(own + others)
  {
    var v :| v in own && Hundredths(v) == t;
    assert v in own + others;
  }

  lemma OtherIsTarget(own: seq<real>, others: seq<real>, neighbours: seq<Span>, n: Span, t: real)
    requires AreNeighbourLines(others, neighbours) && n in neighbours && IsLineOf(t, n.start, n.length)
    ensures t in Unique(own + others)
  {
    var v :| v in others && Hundredths(v) == t;
    assert v in own + others;
  }

  lemma UniqueLines(own: seq<real>, others: seq<real>, frame: real, safe: Span, neighbours: seq<Span>)
    requires AreFrameLines(own, frame, safe) && AreNeighbourLines(others, neighbours)
    ensures AreTheLines(Unique(own + others), frame, safe, neighbours)
  {
    var targets := Unique(own + others);
    forall t | t in targets ensures
      || IsLineOf(t, 0.0, frame) || IsLineOf(t, safe.start, safe.length)
      || exists n :: n in neighbours && IsLineOf(t, n.start, n.length)
    {
      TargetIsLine(own, others, frame, safe, neighbours, t);
    }
    forall t | IsLineOf(t, 0.0, frame) || IsLineOf(t, safe.start, safe.length) ensures t in targets {
      OwnIsTarget(own, others, frame, safe, t);
    }
    forall t, n | n in neighbours && IsLineOf(t, n.start, n.length) ensures t in targets {
      OtherIsTarget(own, others, neighbours, n, t);
    }
  }

  lemma SixLines(a: real, b: real, c: real, d: real, e: real, f: real)
    ensures forall v :: v in [a, b, c, d, e, f] <==> v == a || v == b || v == c || v == d || v == e || v == f
  {
    var s := [a, b, c, d, e, f];
    assert s[0] in s && s[1] in s && s[2] in s && s[3] in s && s[4] in s && s[5] in s;
  }

  lemma FrameLinesX(safe: Box, frame: Frame)
    ensures AreFrameLines(FrameX(safe, frame), frame.width, Span(safe.left, safe.width))
  {
    SixLines(0.0, frame.width, frame.width / 2.0, safe.left, safe.left + safe.width, safe.left + safe.width / 2.0);
  }

  lemma FrameLinesY(safe: Box, frame: Frame)
    ensures AreFrameLines(FrameY(safe, frame), frame.height, Span(safe.top, safe.height))
  {
    SixLines(0.0, frame.height, frame.height / 2.0, safe.top, safe.top + safe.height, safe.top + safe.height / 2.0);
  }

  lemma OfferedAreTheLines(safe: Box, frame: Frame, neighbours: seq<Box>)
    ensures var targets := Offered(safe, frame, neighbours);
      && AreTheLines(targets.x, frame.width, Span(safe.left, safe.width), AllAcross(neighbours))
      && AreTheLines(targets.y, frame.height, Span(safe.top, safe.height), AllDown(neighbours))
  {
    FrameLinesX(safe, frame);
    FrameLinesY(safe, frame);
    NeighbourLinesX(neighbours);
    NeighbourLinesY(neighbours);
    UniqueLines(FrameX(safe, frame), NeighbourX(neighbours), frame.width, Span(safe.left, safe.width),
                AllAcross(neighbours));
    UniqueLines(FrameY(safe, frame), NeighbourY(neighbours), frame.height, Span(safe.top, safe.height),
                AllDown(neighbours));
  }

  /** Every line a dragged box may stick to. */
  function Offered(safe: Box, frame: Frame, neighbours: seq<Box>): Targets {
    Targets(Unique(FrameX(safe, frame) + NeighbourX(neighbours)), Unique(FrameY(safe, frame) + NeighbourY(neighbours)))
  }

  /** The loop over the neighbours: each pushes its lines behind those of frame and safe area. */
  method CollectLines(safe: Box, frame: Frame, neighbours: seq<Box>) returns (x: seq<real>, y: seq<real>)
    ensures x == FrameX(safe, frame) + NeighbourX(neighbours)
    ensures y == FrameY(safe, frame) + NeighbourY(neighbours)
  {
    x := [0.0, frame.width, frame.width / 2.0, safe.left, safe.left + safe.width, safe.left + safe.width / 2.0];
    y := [0.0, frame.height, frame.height / 2.0, safe.top, safe.top + safe.height, safe.top + safe.height / 2.0];
    for i := 0 to |neighbours|
      invariant x == FrameX(safe, frame) + NeighbourX(neighbours[..i])
      invariant y == FrameY(safe, frame) + NeighbourY(neighbours[..i])
    {
      assert neighbours[..i + 1][..i] == neighbours[..i];
      var n := neighbours[i];
      x := x + [n.left, n.left + n.width / 2.0, n.left + n.width];
      y := y + [n.top, n.top + n.height / 2.0, n.top + n.height];
    }
    assert neighbours[..|neighbours|] == neighbours;
  }

  method PlacementSnapTargets(safe: Box, frame: Frame, neighbours: seq<Box>) returns (targets: Targets)
    ensures targets == Offered(safe, frame, neighbours)
    ensures AreTheLines(targets.x, frame.width, Span(safe.left, safe.width), AllAcross(neighbours))
    ensures AreTheLines(targets.y, frame.height, Span(safe.top, safe.height), AllDown(neighbours))
  {
    var x, y := CollectLines(safe, frame, neighbours);
    OfferedAreTheLines(safe, frame, neighbours);
    targets := Targets(Unique(x), Unique(y));
  }

  lemma HundredthsNear(x: real)
    ensures Abs(x - Hundredths(x)) <= 0.005
  {
    var k := (x * 100.0 + 0.5).Floor;
    assert k as real <= x * 100.0 + 0.5 < k as real + 1.0;
  }

  /** The nearest whole hundredth, the higher of two. */
  lemma HundredthsIs(x: real)
    ensures (Hundredths(x) * 100.0).Floor as real == Hundredths(x) * 100.0
    ensures -0.005 < Hundredths(x) - x <= 0.005
  {
    var k := (x * 100.0 + 0.5).Floor;
    assert k as real <= x * 100.0 + 0.5 < k as real + 1.0;
    assert Hundredths(x) * 100.0 == k as real;
  }

  /** The edges and the middle of a span are, in hundredths, among the targets. */
  predicate OffersSpan(targets: seq<real>, span: Span) {
    && Hundredths(span.start) in targets
    && Hundredths(span.start + span.length / 2.0) in targets
    && Hundredths(span.End()) in targets
  }

  predicate Distinct(values: seq<real>) { forall j, k :: 0 <= j < k < |values| ==> values[j] != values[k] }

  lemma BehindOthers(others: seq<real>, lines: seq<real>, span: Span)
    requires span.start in lines && span.start + span.length / 2.0 in lines && span.End() in lines
    ensures OffersSpan(Unique(others + lines), span) && Distinct(Unique(others + lines))
  {
    assert forall v :: v in lines ==> v in others + lines;
  }

  /** Every line of every neighbour is offered, in hundredths, and each value only once. */
  lemma NeighbourOffered(safe: Box, frame: Frame, neighbours: seq<Box>, i: nat)
    requires i < |neighbours|
    ensures var n, targets := neighbours[i], Offered(safe, frame, neighbours);
      && OffersSpan(targets.x, Span(n.left, n.width)) && Distinct(targets.x)
      && OffersSpan(targets.y, Span(n.top, n.height)) && Distinct(targets.y)
  {
    XOffered(FrameX(safe, frame), neighbours, i);
    YOffered(FrameY(safe, frame), neighbours, i);
  }

  lemma XOffered(others: seq<real>, neighbours: seq<Box>, i: nat)
    requires i < |neighbours|
    ensures var n, lines := neighbours[i], Unique(others + NeighbourX(neighbours));
      OffersSpan(lines, Span(n.left, n.width)) && Distinct(lines)
  {
    NeighbourXOffered(neighbours, i);
    BehindOthers(others, NeighbourX(neighbours), Span(neighbours[i].left, neighbours[i].width));
  }

  lemma YOffered(others: seq<real>, neighbours: seq<Box>, i: nat)
    requires i < |neighbours|
    ensures var n, lines := neighbours[i], Unique(others + NeighbourY(neighbours));
      OffersSpan(lines, Span(n.top, n.height)) && Distinct(lines)
  {
    NeighbourYOffered(neighbours, i);
    BehindOthers(others, NeighbourY(neighbours), Span(neighbours[i].top, neighbours[i].height));
  }

  lemma {:induction false} NeighbourXOffered(neighbours: seq<Box>, i: nat)
    requires i < |neighbours|
    ensures var n := neighbours[i];
      n.left in NeighbourX(neighbours) && n.left + n.width / 2.0 in NeighbourX(neighbours)
        && n.left + n.width in NeighbourX(neighbours)
  {
    var before, last := neighbours[..|neighbours| - 1], neighbours[|neighbours| - 1];
    var lines := [last.left, last.left + last.width / 2.0, last.left + last.width];
    assert NeighbourX(neighbours) == NeighbourX(before) + lines;
    if i < |before| {
      NeighbourXOffered(before, i);
    } else {
      assert lines[0] in lines && lines[1] in lines && lines[2] in lines;
    }
  }

  lemma {:induction false} NeighbourYOffered(neighbours: seq<Box>, i: nat)
    requires i < |neighbours|
    ensures var n := neighbours[i];
      n.top in NeighbourY(neighbours) && n.top + n.height / 2.0 in NeighbourY(neighbours)
        && n.top + n.height in NeighbourY(neighbours)
  {
    var before, last := neighbours[..|neighbours| - 1], neighbours[|neighbours| - 1];
    var lines := [last.top, last.top + last.height / 2.0, last.top + last.height];
    assert NeighbourY(neighbours) == NeighbourY(before) + lines;
    if i < |before| {
      NeighbourYOffered(before, i);
    } else {
      assert lines[0] in lines && lines[1] in lines && lines[2] in lines;
    }
  }

  // ----- flush or not -----

  function Across(b: Box): Span { Span(b.left, b.width) }

  function Down(b: Box): Span { Span(b.top, b.height) }

  /** Two spans share more than an end. */
  predicate Meet(a: Span, b: Span) { a.start < b.End() && b.start < a.End() }

  /** Wider and higher than what rounding can take; every drawn box is at least 8 by 8. */
  predicate Solid(b: Box) { b.width > 0.01 && b.height > 0.01 }

  lemma IntersectMeets(a: Box, b: Box)
    requires Solid(a) && Solid(b)
    ensures Intersect(a, b).Some? <==> Meet(Across(a), Across(b)) && Meet(Down(a), Down(b))
  {
  }

  /** The box's line at `offset` and the target `t` are in reach of each other, and no other pair is as near. */
  ghost predicate NearestPair(start: real, size: real, lines: seq<real>, offset: real, t: real) {
    && IsOffset(offset, size) && t in lines && Abs(start + offset - t) <= 6.0
    && forall o, u :: IsOffset(o, size) && u in lines && (o != offset || u != t) ==>
         Abs(start + offset - t) < Abs(start + o - u)
  }

  /** The nearest pair wins: that line of the box comes to lie on that target, which is the guide. */
  lemma NearestPairWins(start: real, size: real, lines: seq<real>, offset: real, t: real)
    requires NearestPair(start, size, lines, offset, t)
    ensures AxisOf(start, size, lines, false) == Axis(t - offset, Some(t))
  {
    MovedAxis(start, size, lines);
    var a := AxisOf(start, size, lines, false);
    assert Abs(a.start - start) <= Abs(start + offset - t);
    var o :| IsOffset(o, size) && a.start + o == a.guide.value;
    assert Abs(start + o - a.guide.value) == Abs(a.start - start);
  }

  /** The move reports a guide, and the box's line at `offset` lies on it. */
  predicate Stuck(a: Axis, offset: real, guide: real) { a.guide == Some(guide) && a.start + offset == guide }

  /**
   * A move brings the box's line at `offset` onto the neighbour's line `edge`, as offered in hundredths: the
   * move reports it, or before the move no other pair was as near.
   */
  ghost predicate Pulled(was: Span, lines: seq<real>, offset: real, edge: real) {
    || Stuck(AxisOf(was.start, was.length, lines, false), offset, Hundredths(edge))
    || NearestPair(was.start, was.length, lines, offset, Hundredths(edge))
  }

  /** Two spans share exactly what rounding put beyond an edge, at most 0.005; or nothing when it put none there. */
  predicate FlushBut(now: Span, n: Span, beyond: real) {
    && (Meet(now, n) <==> beyond > 0.0)
    && RealMin(now.End(), n.End()) - RealMax(now.start, n.start) == beyond <= 0.005
  }

  lemma EndOnStart(now: Span, n: Span)
    requires now.length > 0.01 && n.length > 0.01 && now.End() == Hundredths(n.start)
    ensures FlushBut(now, n, Hundredths(n.start) - n.start)
  {
    HundredthsNear(n.start);
  }

  lemma StartOnEnd(now: Span, n: Span)
    requires now.length > 0.01 && n.length > 0.01 && now.start == Hundredths(n.End())
    ensures FlushBut(now, n, n.End() - Hundredths(n.End()))
  {
    HundredthsNear(n.End());
  }

  lemma PulledLies(was: Span, lines: seq<real>, offset: real, edge: real)
    requires Pulled(was, lines, offset, edge)
    ensures AxisOf(was.start, was.length, lines, false).start + offset == Hundredths(edge)
  {
    if NearestPair(was.start, was.length, lines, offset, Hundredths(edge)) {
      NearestPairWins(was.start, was.length, lines, offset, Hundredths(edge));
    }
  }

  /** One axis of a moved box against a neighbour that it comes to lie before, or behind. */
  lemma FlushAxis(was: Span, lines: seq<real>, n: Span)
    requires was.length > 0.01 && n.length > 0.01
    ensures var now := Span(AxisOf(was.start, was.length, lines, false).start, was.length);
      && (Pulled(was, lines, was.length, n.start) ==> FlushBut(now, n, Hundredths(n.start) - n.start))
      && (Pulled(was, lines, 0.0, n.End()) ==> FlushBut(now, n, n.End() - Hundredths(n.End())))
  {
    var now := Span(AxisOf(was.start, was.length, lines, false).start, was.length);
    if Pulled(was, lines, was.length, n.start) {
      PulledLies(was, lines, was.length, n.start);
      EndOnStart(now, n);
    }
    if Pulled(was, lines, 0.0, n.End()) {
      PulledLies(was, lines, 0.0, n.End());
      StartOnEnd(now, n);
    }
  }

  function SharedWidth(a: Box, b: Box): Option<real> {
    if Intersect(a, b).Some? then Some(Intersect(a, b).value.width) else None
  }

  function SharedHeight(a: Box, b: Box): Option<real> {
    if Intersect(a, b).Some? then Some(Intersect(a, b).value.height) else None
  }

  /** Nothing is shared, or exactly what rounding put beyond the edge, at most 0.005. */
  predicate OverlapIs(shared: Option<real>, beyond: real) {
    if beyond > 0.0 then shared == Some(beyond) && beyond <= 0.005 else shared == None
  }

  lemma SharedAcross(m: Box, n: Box, beyond: real)
    requires Solid(m) && Solid(n) && Meet(Down(m), Down(n)) && FlushBut(Across(m), Across(n), beyond)
    ensures OverlapIs(SharedWidth(m, n), beyond)
  {
    IntersectMeets(m, n);
  }

  lemma SharedDown(m: Box, n: Box, beyond: real)
    requires Solid(m) && Solid(n) && Meet(Across(m), Across(n)) && FlushBut(Down(m), Down(n), beyond)
    ensures OverlapIs(SharedHeight(m, n), beyond)
  {
    IntersectMeets(m, n);
  }

  /**
   * One axis: with its end pulled onto the neighbour's start, the box shares what was rounded up; with its
   * start pulled onto the neighbour's end, what was rounded down.
   */
  ghost predicate SharesWhatWasRounded(was: Span, lines: seq<real>, n: Span, shared: Option<real>) {
    && (Pulled(was, lines, was.length, n.start) ==> OverlapIs(shared, Hundredths(n.start) - n.start))
    && (Pulled(was, lines, 0.0, n.End()) ==> OverlapIs(shared, n.End() - Hundredths(n.End())))
  }

  lemma FlushAcross(box: Box, targets: Targets, n: Box)
    requires Solid(box) && Solid(n) && Meet(Down(MovedBox(box, targets, false)), Down(n))
    ensures SharesWhatWasRounded(Across(box), targets.x, Across(n), SharedWidth(MovedBox(box, targets, false), n))
  {
    var m, at := MovedBox(box, targets, false), Across(n);
    FlushAxis(Across(box), targets.x, at);
    if Pulled(Across(box), targets.x, box.width, at.start) {
      SharedAcross(m, n, Hundredths(at.start) - at.start);
    }
    if Pulled(Across(box), targets.x, 0.0, at.End()) {
      SharedAcross(m, n, at.End() - Hundredths(at.End()));
    }
  }

  lemma FlushDown(box: Box, targets: Targets, n: Box)
    requires Solid(box) && Solid(n) && Meet(Across(MovedBox(box, targets, false)), Across(n))
    ensures SharesWhatWasRounded(Down(box), targets.y, Down(n), SharedHeight(MovedBox(box, targets, false), n))
  {
    var m, at := MovedBox(box, targets, false), Down(n);
    FlushAxis(Down(box), targets.y, at);
    if Pulled(Down(box), targets.y, box.height, at.start) {
      SharedDown(m, n, Hundredths(at.start) - at.start);
    }
    if Pulled(Down(box), targets.y, 0.0, at.End()) {
      SharedDown(m, n, at.End() - Hundredths(at.End()));
    }
  }

  /**
   * Snapping to a neighbour's edge does not always leave the two flush, as the guide is that edge in
   * hundredths. A right edge on a left one, or a bottom on a top: the boxes overlap exactly when the edge is
   * rounded up. A left edge on a right one, or a top on a bottom: exactly when it is rounded down. The
   * overlap is what was rounded, at most 0.005.
   */
  lemma FlushIff(box: Box, targets: Targets, n: Box)
    requires Solid(box) && Solid(n)
    ensures var m := MovedBox(box, targets, false);
      && (Meet(Down(m), Down(n)) ==> SharesWhatWasRounded(Across(box), targets.x, Across(n), SharedWidth(m, n)))
      && (Meet(Across(m), Across(n)) ==> SharesWhatWasRounded(Down(box), targets.y, Down(n), SharedHeight(m, n)))
  {
    var m := MovedBox(box, targets, false);
    if Meet(Down(m), Down(n)) {
      FlushAcross(box, targets, n);
    }
    if Meet(Across(m), Across(n)) {
      FlushDown(box, targets, n);
    }
  }

  // ----- flush or not, resized -----

  /** The target `t` is in reach of the held end, and no other is as near. */
  ghost predicate NearestLine(end: real, lines: seq<real>, t: real) {
    t in lines && Abs(end - t) <= 6.0 && forall u :: u in lines && u != t ==> Abs(end - t) < Abs(end - u)
  }

  lemma NearestLineWins(end: real, lines: seq<real>, t: real)
    requires NearestLine(end, lines, t)
    ensures SnapOf(end, lines, false) == Snapped(t, Some(t))
  {
    var best := Nearest(end, lines);
    assert best.Some? && Abs(end - best.value) <= Abs(end - t);
  }

  /** A held end comes to the neighbour's line `edge`: it is the guide reported, or was the nearest target before. */
  ghost predicate PulledEnd(end: real, lines: seq<real>, guides: seq<real>, edge: real) {
    guides == [Hundredths(edge)] || NearestLine(end, lines, Hundredths(edge))
  }

  /**
   * A resized axis. The high end on the neighbour's start shares what was rounded up, unless the least size
   * pushed it on; the low end on the neighbour's end, what was rounded down.
   */
  ghost predicate ResizeShares(
    was: Span, low: bool, high: bool, lines: seq<real>, guides: seq<real>, n: Span, shared: Option<real>)
  {
    && (!low && high && PulledEnd(was.End(), lines, guides, n.start) && Hundredths(n.start) - was.start >= 8.0 ==>
          OverlapIs(shared, Hundredths(n.start) - n.start))
    && (low && PulledEnd(was.start, lines, guides, n.End()) ==> OverlapIs(shared, n.End() - Hundredths(n.End())))
  }

  /** The held end then lies on that line. */
  lemma ResizedLies(was: Span, low: bool, high: bool, lines: seq<real>, r: Span, guides: seq<real>, edge: real)
    requires Resized(was, low, high, lines, false, r, guides) && (low || high)
    requires PulledEnd(if low then was.start else was.End(), lines, guides, edge)
    ensures if low then r.start == Hundredths(edge)
            else Hundredths(edge) - was.start >= MIN_SIZE ==> r.End() == Hundredths(edge)
  {
    var end := if low then was.start else was.End();
    if guides == [Hundredths(edge)] {
      assert SnapOf(end, lines, false).guide == Some(guides[0]);
    } else {
      NearestLineWins(end, lines, Hundredths(edge));
    }
  }

  lemma ResizeFlushAcross(was: Box, low: bool, high: bool, lines: seq<real>, r: Box, guides: seq<real>, n: Box)
    requires Solid(r) && Solid(n) && Meet(Down(r), Down(n))
    requires Resized(Across(was), low, high, lines, false, Across(r), guides)
    ensures ResizeShares(Across(was), low, high, lines, guides, Across(n), SharedWidth(r, n))
  {
    var own, at := Across(was), Across(n);
    if low && PulledEnd(own.start, lines, guides, at.End()) {
      ResizedLies(own, low, high, lines, Across(r), guides, at.End());
      StartOnEnd(Across(r), at);
      SharedAcross(r, n, at.End() - Hundredths(at.End()));
    }
    if && !low && high && PulledEnd(own.End(), lines, guides, at.start)
       && Hundredths(at.start) - own.start >= MIN_SIZE
    {
      ResizedLies(own, low, high, lines, Across(r), guides, at.start);
      EndOnStart(Across(r), at);
      SharedAcross(r, n, Hundredths(at.start) - at.start);
    }
  }

  lemma ResizeFlushDown(was: Box, low: bool, high: bool, lines: seq<real>, r: Box, guides: seq<real>, n: Box)
    requires Solid(r) && Solid(n) && Meet(Across(r), Across(n))
    requires Resized(Down(was), low, high, lines, false, Down(r), guides)
    ensures ResizeShares(Down(was), low, high, lines, guides, Down(n), SharedHeight(r, n))
  {
    var own, at := Down(was), Down(n);
    if low && PulledEnd(own.start, lines, guides, at.End()) {
      ResizedLies(own, low, high, lines, Down(r), guides, at.End());
      StartOnEnd(Down(r), at);
      SharedDown(r, n, at.End() - Hundredths(at.End()));
    }
    if && !low && high && PulledEnd(own.End(), lines, guides, at.start)
       && Hundredths(at.start) - own.start >= MIN_SIZE
    {
      ResizedLies(own, low, high, lines, Down(r), guides, at.start);
      EndOnStart(Down(r), at);
      SharedDown(r, n, Hundredths(at.start) - at.start);
    }
  }

  /**
   * The same for a resize: a held edge that comes to a neighbour's edge overlaps it by what was rounded towards
   * the box, and not at all otherwise. Across that holds with an aspect or without; down, a resize with an aspect
   * has no guide.
   */
  lemma ResizeFlushIff(box: Box, held: set<Edge>, targets: Targets, resized: Box, guides: Targets, n: Box)
    requires Solid(n) && resized.height >= MIN_SIZE
    requires Resized(Across(box), Left in held, Right in held, targets.x, false, Across(resized), guides.x)
    ensures Meet(Down(resized), Down(n)) ==>
      ResizeShares(Across(box), Left in held, Right in held, targets.x, guides.x, Across(n), SharedWidth(resized, n))
    ensures
      && Resized(Down(box), Top in held, Bottom in held, targets.y, false, Down(resized), guides.y)
      && Meet(Across(resized), Across(n)) ==>
        ResizeShares(Down(box), Top in held, Bottom in held, targets.y, guides.y, Down(n), SharedHeight(resized, n))
  {
    if Meet(Down(resized), Down(n)) {
      ResizeFlushAcross(box, Left in held, Right in held, targets.x, resized, guides.x, n);
    }
    if && Resized(Down(box), Top in held, Bottom in held, targets.y, false, Down(resized), guides.y)
       && Meet(Across(resized), Across(n))
    {
      ResizeFlushDown(box, Top in held, Bottom in held, targets.y, resized, guides.y, n);
    }
  }

  /** Every pair but one is further apart than six. */
  ghost predicate OthersFar(was: Span, values: seq<real>, offset: real, edge: real) {
    forall o, v :: IsOffset(o, was.length) && v in values && (o != offset || v != edge) ==>
      Abs(was.start + o - v) > 6.0
  }

  lemma OtherPairFar(was: Span, values: seq<real>, offset: real, edge: real, o: real, u: real)
    requires OthersFar(was, values, offset, edge) && IsOffset(o, was.length) && u in Unique(values)
    requires o != offset || u != Hundredths(edge)
    ensures Abs(was.start + o - u) > 5.99
  {
    var v :| v in values && Hundredths(v) == u;
    HundredthsNear(v);
    assert Abs(was.start + o - v) > 6.0;
  }

  lemma StillNear(x: real, edge: real)
    requires Abs(x - edge) <= 5.0
    ensures Abs(x - Hundredths(edge)) <= 5.01
  {
    HundredthsNear(edge);
  }

  /** Far from all lines but one, a box is pulled to that one, however the lines are rounded. */
  lemma OnlyNear(was: Span, values: seq<real>, offset: real, edge: real)
    requires IsOffset(offset, was.length) && edge in values && Abs(was.start + offset - edge) <= 5.0
    requires OthersFar(was, values, offset, edge)
    ensures Pulled(was, Unique(values), offset, edge)
  {
    StillNear(was.start + offset, edge);
    NearestOfFar(was, Unique(values), offset, Hundredths(edge)) by {
      forall o, u | IsOffset(o, was.length) && u in Unique(values) && (o != offset || u != Hundredths(edge))
        ensures Abs(was.start + o - u) > 5.99
      {
        OtherPairFar(was, values, offset, edge, o, u);
      }
    }
  }

  lemma NearestOfFar(was: Span, lines: seq<real>, offset: real, t: real)
    requires IsOffset(offset, was.length) && t in lines && Abs(was.start + offset - t) <= 5.01
    requires forall o, u :: IsOffset(o, was.length) && u in lines && (o != offset || u != t) ==>
      Abs(was.start + o - u) > 5.99
    ensures NearestPair(was.start, was.length, lines, offset, t)
  {
  }

  // ----- two panels on a frame of 854 by 480 -----

  const SCALE: real := 854.0 / 1920.0

  const FRAME := Frame(1920.0, 480.0 / SCALE)

  const SAFE := Box(32.0 / SCALE, 25.0 / SCALE, 790.0 / SCALE, 430.0 / SCALE)

  /** A panel on whole output pixels, as every panel at rest is. */
  const PANEL := Box(200.0 / SCALE, 100.0 / SCALE, 100.0 / SCALE, 100.0 / SCALE)

  /**
   * Two panels of 89 by 89 output pixels, dragged to the panel's left and to its right edge: the first from pixel
   * 100 by 12 pixels of a preview 960 wide, each of them two design pixels, the second from pixel 310 by 11.
   */
  const BEFORE := Box(100.0 / SCALE + 24.0, 100.0 / SCALE + 6.0, 89.0 / SCALE, 89.0 / SCALE)
  const BEHIND := Box(310.0 / SCALE - 22.0, 100.0 / SCALE + 6.0, 89.0 / SCALE, 89.0 / SCALE)

  lemma Measures()
    ensures 248.8 < BEFORE.left < 248.9 && 674.9 < BEHIND.left < 675.0
    ensures 200.0 < BEFORE.width == BEHIND.width < 200.1
    ensures 230.8 < BEFORE.top == BEHIND.top < 230.9 && BEFORE.height == BEHIND.height == BEFORE.width
  {
  }

  /** Where the lines across lie. */
  predicate LineAcross(v: real) {
    v <= 100.0 || 449.6 < v == PANEL.left < 449.65 || 500.0 <= v <= 600.0
    || 674.47 < v == PANEL.left + PANEL.width < 674.48 || v >= 900.0
  }

  lemma LinesAcross(v: real)
    requires v in FrameX(SAFE, FRAME) + NeighbourX([PANEL])
    ensures LineAcross(v)
  {
    assert NeighbourX([PANEL]) == NeighbourX([])
      + [PANEL.left, PANEL.left + PANEL.width / 2.0, PANEL.left + PANEL.width];
  }

  lemma LeftEdgeNear(was: Span, values: seq<real>)
    requires 248.8 < was.start < 248.9 && 200.0 < was.length < 200.1
    requires forall v :: v in values ==> LineAcross(v)
    ensures OthersFar(was, values, was.length, PANEL.left)
  {
    assert was.start + was.length / 2.0 > 348.0;
  }

  lemma RightEdgeNear(was: Span, values: seq<real>)
    requires 674.9 < was.start < 675.0 && 200.0 < was.length < 200.1
    requires forall v :: v in values ==> LineAcross(v)
    ensures OthersFar(was, values, 0.0, PANEL.left + PANEL.width)
  {
    assert was.start + was.length / 2.0 > 774.0;
  }

  lemma EdgesRounded()
    ensures Hundredths(PANEL.left) > PANEL.left
    ensures Hundredths(PANEL.left + PANEL.width) < PANEL.left + PANEL.width
  {
    assert Hundredths(PANEL.left) == 449.65;
    assert Hundredths(PANEL.left + PANEL.width) == 674.47;
  }

  lemma BesidePanel(dragged: Box, targets: Targets)
    requires dragged == BEFORE || dragged == BEHIND
    ensures Meet(Down(MovedBox(dragged, targets, false)), Down(PANEL))
  {
    Measures();
    MovedAxis(dragged.top, dragged.height, targets.y);
  }

  lemma PulledToPanel(dragged: Box)
    requires dragged == BEFORE || dragged == BEHIND
    ensures var xs := Offered(SAFE, FRAME, [PANEL]).x;
      if dragged == BEFORE then Pulled(Across(BEFORE), xs, BEFORE.width, PANEL.left)
      else Pulled(Across(BEHIND), xs, 0.0, PANEL.left + PANEL.width)
  {
    var xs := FrameX(SAFE, FRAME) + NeighbourX([PANEL]);
    NeighbourXOffered([PANEL], 0);
    Measures();
    forall v | v in xs ensures LineAcross(v) {
      LinesAcross(v);
    }
    if dragged == BEFORE {
      LeftEdgeNear(Across(BEFORE), xs);
      OnlyNear(Across(BEFORE), xs, BEFORE.width, PANEL.left);
    } else {
      RightEdgeNear(Across(BEHIND), xs);
      OnlyNear(Across(BEHIND), xs, 0.0, PANEL.left + PANEL.width);
    }
  }

  lemma OverlapsBefore(box: Box, targets: Targets, n: Box)
    requires Solid(box) && Solid(n) && Meet(Down(MovedBox(box, targets, false)), Down(n))
    requires Pulled(Across(box), targets.x, box.width, n.left) && Hundredths(n.left) > n.left
    ensures Intersect(MovedBox(box, targets, false), n).Some?
  {
    FlushIff(box, targets, n);
    assert OverlapIs(SharedWidth(MovedBox(box, targets, false), n), Hundredths(n.left) - n.left);
  }

  lemma OverlapsBehind(box: Box, targets: Targets, n: Box)
    requires Solid(box) && Solid(n) && Meet(Down(MovedBox(box, targets, false)), Down(n))
    requires Pulled(Across(box), targets.x, 0.0, n.left + n.width) && Hundredths(n.left + n.width) < n.left + n.width
    ensures Intersect(MovedBox(box, targets, false), n).Some?
  {
    FlushIff(box, targets, n);
    assert OverlapIs(SharedWidth(MovedBox(box, targets, false), n), n.left + n.width - Hundredths(n.left + n.width));
  }

  lemma BeforeOverlaps(targets: Targets)
    requires Pulled(Across(BEFORE), targets.x, BEFORE.width, PANEL.left)
    ensures Intersect(MovedBox(BEFORE, targets, false), PANEL).Some?
  {
    BesidePanel(BEFORE, targets);
    EdgesRounded();
    AllSolid();
    OverlapsBefore(BEFORE, targets, PANEL);
  }

  lemma BehindOverlaps(targets: Targets)
    requires Pulled(Across(BEHIND), targets.x, 0.0, PANEL.left + PANEL.width)
    ensures Intersect(MovedBox(BEHIND, targets, false), PANEL).Some?
  {
    BesidePanel(BEHIND, targets);
    EdgesRounded();
    AllSolid();
    OverlapsBehind(BEHIND, targets, PANEL);
  }

  lemma AllSolid()
    ensures Solid(BEFORE) && Solid(BEHIND) && Solid(PANEL)
  {
  }

  /**
   * On that frame a panel dragged to the left edge of another comes to overlap it, and so does one dragged to
   * its right edge: the first edge is rounded up, the second down.
   */
  lemma SnappedPanelsCanOverlap(dragged: Box)
    requires dragged == BEFORE || dragged == BEHIND
    ensures Intersect(MovedBox(dragged, Offered(SAFE, FRAME, [PANEL]), false), PANEL).Some?
  {
    PulledToPanel(dragged);
    if dragged == BEFORE {
      BeforeOverlaps(Offered(SAFE, FRAME, [PANEL]));
    } else {
      BehindOverlaps(Offered(SAFE, FRAME, [PANEL]));
    }
  }

  /** A panel of 89 by 89 output pixels, its right edge dragged by 24 design pixels. */
  const WIDENED := Box(100.0 / SCALE, 100.0 / SCALE, 89.0 / SCALE + 24.0, 89.0 / SCALE)

  lemma OtherLineFar(end: real, values: seq<real>, u: real)
    requires 448.9 < end < 449.0 && forall v :: v in values ==> LineAcross(v)
    requires u in Unique(values) && u != Hundredths(PANEL.left)
    ensures Abs(end - u) > 5.99
  {
    var v :| v in values && Hundredths(v) == u;
    HundredthsNear(v);
    assert v != PANEL.left;
  }

  lemma OnlyLeftEdgeNear(end: real, values: seq<real>)
    requires 448.9 < end < 449.0 && PANEL.left in values && forall v :: v in values ==> LineAcross(v)
    ensures NearestLine(end, Unique(values), Hundredths(PANEL.left))
  {
    var t, lines := Hundredths(PANEL.left), Unique(values);
    StillNear(end, PANEL.left);
    forall u | u in lines && u != t ensures Abs(end - t) < Abs(end - u) {
      OtherLineFar(end, values, u);
    }
  }

  lemma WidenedPulled()
    ensures NearestLine(Across(WIDENED).End(), Offered(SAFE, FRAME, [PANEL]).x, Hundredths(PANEL.left))
  {
    var xs := FrameX(SAFE, FRAME) + NeighbourX([PANEL]);
    NeighbourXOffered([PANEL], 0);
    forall v | v in xs ensures LineAcross(v) {
      LinesAcross(v);
    }
    OnlyLeftEdgeNear(Across(WIDENED).End(), xs);
  }

  lemma WidenedOverlaps(targets: Targets, resized: Box, guides: Targets)
    requires NearestLine(Across(WIDENED).End(), targets.x, Hundredths(PANEL.left))
    requires Resized(Across(WIDENED), false, true, targets.x, false, Across(resized), guides.x)
    requires Resized(Down(WIDENED), false, false, targets.y, false, Down(resized), guides.y)
    ensures Intersect(resized, PANEL).Some?
  {
    EdgesRounded();
    ResizeFlushAcross(WIDENED, false, true, targets.x, resized, guides.x, PANEL);
    assert OverlapIs(SharedWidth(resized, PANEL), Hundredths(PANEL.left) - PANEL.left);
  }

  /** What a resize of that panel by its right edge comes to. */
  ghost predicate IsWidened(targets: Targets, resized: Box, guides: Targets) {
    var held := {Right};
    && Resized(Across(WIDENED), Left in held, Right in held, targets.x, false, Across(resized), guides.x)
    && Resized(Down(WIDENED), Top in held, Bottom in held, targets.y, false, Down(resized), guides.y)
  }

  /** On that frame it overlaps the panel too. */
  lemma ResizedPanelCanOverlap()
    ensures forall resized, guides ::
      IsWidened(Offered(SAFE, FRAME, [PANEL]), resized, guides) ==> Intersect(resized, PANEL).Some?
  {
    var targets := Offered(SAFE, FRAME, [PANEL]);
    WidenedPulled();
    forall resized, guides | IsWidened(targets, resized, guides) ensures Intersect(resized, PANEL).Some? {
      WidenedOverlaps(targets, resized, guides);
    }
  }
}
