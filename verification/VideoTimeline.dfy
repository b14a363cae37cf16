/**
 * `buildScheduleVideoTimelineSegments` of apps/web/lib/schedule-video-timeline.ts: how a block's items are
 * laid out on its bar. Times are whole seconds; percents are exact.
 */
module VideoTimeline {
  import opened Wrappers

  datatype BarItem = BarItem(
    assetId: string, title: string, startSecond: Option<int>, endSecond: Option<int>,
    durationMinutes: int, estimatedDuration: bool)

  datatype Segment = Segment(
    assetId: string, title: string, widthPercent: real, gapBeforePercent: real,
    startOffsetSeconds: int, estimatedDurationSeconds: int, estimatedDuration: bool)

  /** The part of an item inside the block. */
  datatype Visible = Visible(item: BarItem, start: int, end: int)

  /** The block as an interval of seconds of its day. */
  datatype Block = Block(start: int, seconds: int) {
    ghost predicate Valid() { seconds > 0 }
    function End(): int { start + seconds }
  }

  function BlockOf(startMinuteOfDay: int, lengthMinutes: Option<int>, durationMinutes: int): (b: Block)
    ensures b.Valid()
  {
    Block(startMinuteOfDay * 60, Max(1, if lengthMinutes.Some? then lengthMinutes.value else durationMinutes) * 60)
  }

  function VisibleOf(item: BarItem, b: Block): Visible {
    var start := if item.startSecond.Some? then item.startSecond.value else b.start;
    var end := if item.endSecond.Some? then item.endSecond.value else start + item.durationMinutes * 60;
    Visible(item, Max(b.start, start), Min(b.End(), end))
  }

  function VisiblesOf(items: seq<BarItem>, b: Block): (vs: seq<Visible>)
    ensures forall i :: 0 <= i < |vs| ==> b.start <= vs[i].start < vs[i].end <= b.End()
  {
    if items == [] then []
    else
      var v := VisibleOf(items[|items| - 1], b);
      VisiblesOf(items[..|items| - 1], b) + (if v.end <= v.start then [] else [v])
  }

  /** Up to where the bar is drawn once `vs` are on it. */
  function DrawnUntil(vs: seq<Visible>, b: Block): int {
    if vs == [] then b.start else Max(DrawnUntil(vs[..|vs| - 1], b), vs[|vs| - 1].end)
  }

  function Percent(seconds: int, b: Block): real
    requires b.Valid()
  {
    (seconds as real / b.seconds as real) * 100.0
  }

  function SegmentOf(v: Visible, drawnUntil: int, b: Block): Segment
    requires b.Valid()
  {
    Segment(v.item.assetId, v.item.title,
            RealMax(0.0, RealMin(100.0, Percent(v.end - v.start, b))),
            RealMax(0.0, Percent(v.start - drawnUntil, b)),
            v.start - b.start, v.end - v.start, v.item.estimatedDuration)
  }

  function Segments(vs: seq<Visible>, b: Block): (segments: seq<Segment>)
    requires b.Valid()
    ensures |segments| == |vs|
  {
    seq(|vs|, i requires 0 <= i < |vs| => SegmentOf(vs[i], DrawnUntil(vs[..i], b), b))
  }

  lemma SegmentsAppend(vs: seq<Visible>, v: Visible, b: Block)
    requires b.Valid()
    ensures Segments(vs + [v], b) == Segments(vs, b) + [SegmentOf(v, DrawnUntil(vs, b), b)]
  {
    forall i | 0 <= i < |vs| ensures (vs + [v])[..i] == vs[..i] {
    }
    assert (vs + [v])[..|vs|] == vs;
  }

  lemma VisiblesStep(items: seq<BarItem>, i: nat, b: Block)
    requires i < |items|
    ensures var vs, v := VisiblesOf(items[..i], b), VisibleOf(items[i], b);
      if v.end <= v.start then VisiblesOf(items[..i + 1], b) == vs
      else VisiblesOf(items[..i + 1], b) == vs + [v] && DrawnUntil(vs + [v], b) == Max(DrawnUntil(vs, b), v.end)
  {
    assert items[..i + 1][..i] == items[..i];
    var vs, v := VisiblesOf(items[..i], b), VisibleOf(items[i], b);
    assert (vs + [v])[..|vs|] == vs;
  }

  // ----- the bar, in the block's own fields -----

  /** The item's time on air: from its start, or the block's, to its end, or for its planned minutes. */
  function AirsFrom(item: BarItem, begins: int): int {
    if item.startSecond.None? then begins else item.startSecond.value
  }

  function AirsUntil(item: BarItem, begins: int): int {
    if item.endSecond.None? then AirsFrom(item, begins) + 60 * item.durationMinutes else item.endSecond.value
  }

  /** How far the bar reaches behind these segments, in seconds of the block. */
  function Reach(segments: seq<Segment>): int {
    if segments == [] then 0
    else
      var last := segments[|segments| - 1];
      Max(Reach(segments[..|segments| - 1]), last.startOffsetSeconds + last.estimatedDurationSeconds)
  }

  /** The segment draws the part of the item between `begins` and `begins + seconds`, behind what is drawn already. */
  ghost predicate Draws(s: Segment, item: BarItem, begins: int, seconds: int, reached: int) {
    var from, until := Max(begins, AirsFrom(item, begins)), Min(begins + seconds, AirsUntil(item, begins));
    && s.assetId == item.assetId && s.title == item.title && s.estimatedDuration == item.estimatedDuration
    && s.startOffsetSeconds == from - begins && s.estimatedDurationSeconds == until - from > 0
    && s.widthPercent * seconds as real == 100.0 * (until - from) as real
    && s.gapBeforePercent * seconds as real == 100.0 * Max(0, from - begins - reached) as real
  }

  predicate Shown(item: BarItem, begins: int, seconds: int) {
    Max(begins, AirsFrom(item, begins)) < Min(begins + seconds, AirsUntil(item, begins))
  }

  /** One segment for each item that airs within the block, in order: `places` says which. */
  ghost predicate IsBar(segments: seq<Segment>, items: seq<BarItem>, begins: int, seconds: int, places: seq<nat>) {
    && |places| == |segments|
    && (forall k :: 0 <= k < |places| ==>
          places[k] < |items| && Draws(segments[k], items[places[k]], begins, seconds, Reach(segments[..k])))
    && (forall k, l :: 0 <= k < l < |places| ==> places[k] < places[l])
    && (forall j :: 0 <= j < |items| ==> (Shown(items[j], begins, seconds) <==> j in places))
  }

  lemma VisibleIs(item: BarItem, b: Block)
    ensures var v := VisibleOf(item, b);
      && v.item == item && v.start == Max(b.start, AirsFrom(item, b.start))
      && v.end == Min(b.start + b.seconds, AirsUntil(item, b.start))
  {
  }

  /** The visible parts are those of the items at `places`. */
  ghost predicate VisibleAt(vs: seq<Visible>, items: seq<BarItem>, b: Block, places: seq<nat>) {
    && |places| == |vs|
    && (forall k :: 0 <= k < |places| ==> places[k] < |items| && vs[k] == VisibleOf(items[places[k]], b))
    && (forall k, l :: 0 <= k < l < |places| ==> places[k] < places[l])
    && (forall j :: 0 <= j < |items| ==> (Shown(items[j], b.start, b.seconds) <==> j in places))
  }

  lemma {:induction false} VisiblePlaces(items: seq<BarItem>, b: Block) returns (places: seq<nat>)
    ensures VisibleAt(VisiblesOf(items, b), items, b, places)
  {
    if items == [] {
      places := [];
    } else {
      var n := |items| - 1;
      var before := VisiblePlaces(items[..n], b);
      VisibleIs(items[n], b);
      NextVisible(VisiblesOf(items[..n], b), items, b, before);
      places := if Shown(items[n], b.start, b.seconds) then before + [n] else before;
    }
  }

  lemma NextVisible(vs: seq<Visible>, items: seq<BarItem>, b: Block, before: seq<nat>)
    requires items != [] && VisibleAt(vs, items[..|items| - 1], b, before)
    ensures var n := |items| - 1;
      if Shown(items[n], b.start, b.seconds) then VisibleAt(vs + [VisibleOf(items[n], b)], items, b, before + [n])
      else VisibleAt(vs, items, b, before)
  {
    var n := |items| - 1;
    assert forall k :: 0 <= k < |before| ==> items[..n][before[k]] == items[before[k]];
    assert forall j :: 0 <= j < n ==> items[..n][j] == items[j];
    assert forall j :: j in before + [n] <==> j in before || j == n;
    assert forall k :: 0 <= k < |before| ==> before[k] < n;
  }

  lemma {:induction false} DrawnIsReach(vs: seq<Visible>, b: Block)
    requires b.Valid()
    ensures DrawnUntil(vs, b) - b.start == Reach(Segments(vs, b))
  {
    if vs != [] {
      var before, v := vs[..|vs| - 1], vs[|vs| - 1];
      DrawnIsReach(before, b);
      SegmentsAppend(before, v, b);
      assert vs == before + [v];
      var s := SegmentOf(v, DrawnUntil(before, b), b);
      assert (Segments(before, b) + [s])[..|before|] == Segments(before, b);
    }
  }

  lemma PercentTimes(x: int, b: Block)
    requires b.Valid()
    ensures Percent(x, b) * b.seconds as real == 100.0 * x as real
  {
  }

  lemma SegmentSizes(v: Visible, drawn: int, b: Block)
    requires b.Valid() && b.start <= v.start < v.end <= b.End()
    ensures var s := SegmentOf(v, drawn, b);
      && s.widthPercent * b.seconds as real == 100.0 * (v.end - v.start) as real
      && s.gapBeforePercent * b.seconds as real == 100.0 * Max(0, v.start - drawn) as real
  {
    SegmentPercents(v, drawn, b);
    PercentTimes(v.end - v.start, b);
    PercentTimes(Max(0, v.start - drawn), b);
  }

  lemma SegmentDraws(item: BarItem, b: Block, drawn: int)
    requires b.Valid() && Shown(item, b.start, b.seconds)
    ensures Draws(SegmentOf(VisibleOf(item, b), drawn, b), item, b.start, b.seconds, drawn - b.start)
  {
    VisibleIs(item, b);
    SegmentSizes(VisibleOf(item, b), drawn, b);
  }

  lemma BarOfItems(items: seq<BarItem>, b: Block) returns (places: seq<nat>)
    requires b.Valid()
    ensures IsBar(Segments(VisiblesOf(items, b), b), items, b.start, b.seconds, places)
  {
    places := VisiblePlaces(items, b);
    var vs := VisiblesOf(items, b);
    var segments := Segments(vs, b);
    forall k | 0 <= k < |places|
      ensures Draws(segments[k], items[places[k]], b.start, b.seconds, Reach(segments[..k]))
    {
      assert places[k] in places;
      SegmentsPrefix(vs, b, k);
      DrawnIsReach(vs[..k], b);
      SegmentDraws(items[places[k]], b, DrawnUntil(vs[..k], b));
    }
  }

  /** The minutes a block is drawn for: its real length, or its planned one, and never none. */
  function MinutesOf(lengthMinutes: Option<int>, durationMinutes: int): (m: int)
    ensures m >= 1
  {
    var m := if lengthMinutes.None? then durationMinutes else lengthMinutes.value;
    if m < 1 then 1 else m
  }

  method BuildSegments(startMinuteOfDay: int, lengthMinutes: Option<int>, durationMinutes: int, items: seq<BarItem>)
    returns (segments: seq<Segment>)
    ensures var b := BlockOf(startMinuteOfDay, lengthMinutes, durationMinutes);
      segments == Segments(VisiblesOf(items, b), b)
    ensures exists places ::
      IsBar(segments, items, 60 * startMinuteOfDay, 60 * MinutesOf(lengthMinutes, durationMinutes), places)
  {
    var b := BlockOf(startMinuteOfDay, lengthMinutes, durationMinutes);
    segments := DrawItems(items, b);
    ghost var places := BarOfItems(items, b);
    assert b.start == 60 * startMinuteOfDay && b.seconds == 60 * MinutesOf(lengthMinutes, durationMinutes);
  }

  /** The loop over the items, with the end drawn so far. */
  method DrawItems(items: seq<BarItem>, b: Block) returns (segments: seq<Segment>)
    requires b.Valid()
    ensures segments == Segments(VisiblesOf(items, b), b)
  {
    var drawnUntil := b.start;
    segments := [];
    ghost var vs: seq<Visible> := [];
    for i := 0 to |items|
      invariant vs == VisiblesOf(items[..i], b)
      invariant segments == Segments(vs, b)
      invariant drawnUntil == DrawnUntil(vs, b)
    {
      var v := VisibleOf(items[i], b);
      VisiblesStep(items, i, b);
      if v.end > v.start {
        SegmentsAppend(vs, v, b);
        segments := segments + [SegmentOf(v, drawnUntil, b)];
        drawnUntil := Max(drawnUntil, v.end);
        vs := vs + [v];
      }
    }
    assert items[..|items|] == items;
  }

  // ----- where a segment is drawn -----

  /** All gaps and widths of the bar. */
  function Length(segments: seq<Segment>): real {
    if segments == [] then 0.0
    else
      var last := segments[|segments| - 1];
      Length(segments[..|segments| - 1]) + last.gapBeforePercent + last.widthPercent
  }

  /** Where segment `i` starts on the bar: everything before it, and its own gap. */
  function DrawnAt(segments: seq<Segment>, i: nat): real
    requires i < |segments|
  {
    Length(segments[..i]) + segments[i].gapBeforePercent
  }

  /** The seconds drawn twice. */
  function Overlap(vs: seq<Visible>, b: Block): (seconds: int)
  {
    if vs == [] then 0
    else
      var before, v := vs[..|vs| - 1], vs[|vs| - 1];
      Overlap(before, b) + Max(0, Min(DrawnUntil(before, b), v.end) - v.start)
  }

  ghost predicate InOrder(vs: seq<Visible>) {
    forall i, j :: 0 <= i < j < |vs| ==> vs[i].end <= vs[j].start
  }

  ghost predicate WithinBlock(vs: seq<Visible>, b: Block) {
    forall i :: 0 <= i < |vs| ==> b.start <= vs[i].start < vs[i].end <= b.End()
  }

  lemma PercentSum(x: int, y: int, b: Block)
    requires b.Valid()
    ensures Percent(x, b) + Percent(y, b) == Percent(x + y, b)
  {
  }

  lemma ScaleOrder(x: real, y: real, l: real)
    requires l > 0.0
    ensures x <= y <==> x / l <= y / l
    ensures 0.0 / l == 0.0 && l / l == 1.0
  {
    assert x == (x / l) * l && y == (y / l) * l;
    assert y - x == (y / l - x / l) * l;
  }

  lemma PercentOrder(x: int, y: int, b: Block)
    requires b.Valid()
    ensures x <= y <==> Percent(x, b) <= Percent(y, b)
    ensures Percent(0, b) == 0.0 && Percent(b.seconds, b) == 100.0
  {
    ScaleOrder(x as real, y as real, b.seconds as real);
  }

  lemma PercentSame(x: int, y: int, b: Block)
    requires b.Valid()
    ensures Percent(x, b) == Percent(y, b) <==> x == y
  {
    PercentOrder(x, y, b);
    PercentOrder(y, x, b);
  }

  lemma {:induction false} DrawnUntilInBlock(vs: seq<Visible>, b: Block)
    requires WithinBlock(vs, b)
    ensures b.start <= DrawnUntil(vs, b) && (b.Valid() ==> DrawnUntil(vs, b) <= b.End())
    ensures forall i :: 0 <= i < |vs| ==> vs[i].end <= DrawnUntil(vs, b)
    ensures DrawnUntil(vs, b) == b.start || exists i :: 0 <= i < |vs| && vs[i].end == DrawnUntil(vs, b)
  {
    if vs != [] {
      DrawnUntilInBlock(vs[..|vs| - 1], b);
    }
  }

  lemma {:induction false} OverlapNonNegative(vs: seq<Visible>, b: Block, n: nat)
    requires n <= |vs|
    ensures 0 <= Overlap(vs[..n], b) <= Overlap(vs, b)
    decreases |vs|
  {
    if n < |vs| {
      OverlapNonNegative(vs[..|vs| - 1], b, n);
      assert vs[..|vs| - 1][..n] == vs[..n];
    } else if vs != [] {
      assert vs[..n] == vs;
      OverlapNonNegative(vs[..|vs| - 1], b, |vs| - 1);
    }
  }

  /** The bar's gaps and widths in seconds. */
  function BarSeconds(vs: seq<Visible>, b: Block): int {
    if vs == [] then 0
    else
      var before, v := vs[..|vs| - 1], vs[|vs| - 1];
      BarSeconds(before, b) + Max(0, v.start - DrawnUntil(before, b)) + (v.end - v.start)
  }

  /** The bar is as long as what it covers plus what it draws twice. */
  lemma {:induction false} BarIsCovered(vs: seq<Visible>, b: Block)
    requires WithinBlock(vs, b)
    ensures BarSeconds(vs, b) == DrawnUntil(vs, b) - b.start + Overlap(vs, b)
  {
    if vs != [] {
      BarIsCovered(vs[..|vs| - 1], b);
    }
  }

  /** A segment inside the block needs neither clamp of its width. */
  lemma SegmentPercents(v: Visible, drawnUntil: int, b: Block)
    requires b.Valid() && b.start <= v.start < v.end <= b.End()
    ensures SegmentOf(v, drawnUntil, b).widthPercent == Percent(v.end - v.start, b)
    ensures SegmentOf(v, drawnUntil, b).gapBeforePercent == Percent(Max(0, v.start - drawnUntil), b)
  {
    PercentOrder(0, v.end - v.start, b);
    PercentOrder(v.end - v.start, b.seconds, b);
    PercentOrder(0, v.start - drawnUntil, b);
  }

  lemma PercentSum3(x: int, y: int, z: int, b: Block)
    requires b.Valid()
    ensures Percent(x, b) + Percent(y, b) + Percent(z, b) == Percent(x + y + z, b)
  {
    PercentSum(x, y, b);
    PercentSum(x + y, z, b);
  }

  lemma BarSecondsNext(before: seq<Visible>, v: Visible, b: Block)
    ensures BarSeconds(before + [v], b) == BarSeconds(before, b) + Max(0, v.start - DrawnUntil(before, b))
      + (v.end - v.start)
  {
    assert (before + [v])[..|before|] == before;
  }

  lemma LengthNext(before: seq<Visible>, v: Visible, b: Block)
    requires b.Valid() && b.start <= v.start < v.end <= b.End()
    requires Length(Segments(before, b)) == Percent(BarSeconds(before, b), b)
    ensures Length(Segments(before + [v], b)) == Percent(BarSeconds(before + [v], b), b)
  {
    var drawn := DrawnUntil(before, b);
    SegmentsAppend(before, v, b);
    LengthAppend(Segments(before, b), SegmentOf(v, drawn, b));
    SegmentPercents(v, drawn, b);
    BarSecondsNext(before, v, b);
    PercentSum3(BarSeconds(before, b), Max(0, v.start - drawn), v.end - v.start, b);
  }

  lemma {:induction false} LengthIsBarSeconds(vs: seq<Visible>, b: Block)
    requires b.Valid() && WithinBlock(vs, b)
    ensures Length(Segments(vs, b)) == Percent(BarSeconds(vs, b), b)
  {
    if vs == [] {
      PercentOrder(0, 0, b);
    } else {
      var before, v := vs[..|vs| - 1], vs[|vs| - 1];
      LengthIsBarSeconds(before, b);
      LengthNext(before, v, b);
      assert vs == before + [v];
    }
  }

  lemma LengthAppend(segments: seq<Segment>, s: Segment)
    ensures Length(segments + [s]) == Length(segments) + s.gapBeforePercent + s.widthPercent
  {
    assert (segments + [s])[..|segments|] == segments;
  }

  lemma SegmentsPrefix(vs: seq<Visible>, b: Block, i: nat)
    requires b.Valid() && i <= |vs|
    ensures Segments(vs, b)[..i] == Segments(vs[..i], b)
  {
    forall k | 0 <= k < i ensures vs[..i][..k] == vs[..k] {
    }
  }

  /** Where segment `i` is drawn, in seconds from the block's start. */
  function DrawnAtSecond(vs: seq<Visible>, b: Block, i: nat): int
    requires i < |vs|
  {
    Max(vs[i].start, DrawnUntil(vs[..i], b)) - b.start + Overlap(vs[..i], b)
  }

  lemma DrawnAtBar(vs: seq<Visible>, b: Block, i: nat)
    requires b.Valid() && WithinBlock(vs, b) && i < |vs|
    ensures DrawnAt(Segments(vs, b), i)
         == Percent(BarSeconds(vs[..i], b), b) + Percent(Max(0, vs[i].start - DrawnUntil(vs[..i], b)), b)
  {
    LengthIsBarSeconds(vs[..i], b);
    SegmentsPrefix(vs, b, i);
    SegmentPercents(vs[i], DrawnUntil(vs[..i], b), b);
  }

  /** Segment `i` is drawn at the later of its own start and the end of the bar before it, plus what was drawn twice. */
  lemma DrawnAtIs(vs: seq<Visible>, b: Block, i: nat)
    requires b.Valid() && WithinBlock(vs, b) && i < |vs|
    ensures DrawnAt(Segments(vs, b), i) == Percent(DrawnAtSecond(vs, b, i), b)
  {
    var gap := Max(0, vs[i].start - DrawnUntil(vs[..i], b));
    BarIsCovered(vs[..i], b);
    DrawnAtBar(vs, b, i);
    PercentSum(BarSeconds(vs[..i], b), gap, b);
    assert BarSeconds(vs[..i], b) + gap == DrawnAtSecond(vs, b, i);
  }

  lemma {:induction false} InOrderNoOverlap(vs: seq<Visible>, b: Block)
    requires WithinBlock(vs, b) && InOrder(vs)
    ensures Overlap(vs, b) == 0
    ensures forall i :: 0 <= i < |vs| ==> DrawnUntil(vs[..i], b) <= vs[i].start
  {
    forall i | 0 <= i < |vs| ensures DrawnUntil(vs[..i], b) <= vs[i].start {
      DrawnUntilInBlock(vs[..i], b);
    }
    if vs != [] {
      InOrderNoOverlap(vs[..|vs| - 1], b);
    }
  }

  /** Segment `i` is drawn at its real time. */
  ghost predicate AtRealTime(vs: seq<Visible>, b: Block, i: nat)
    requires b.Valid() && i < |vs|
  {
    DrawnAt(Segments(vs, b), i) == Percent(Segments(vs, b)[i].startOffsetSeconds, b)
  }

  lemma AtRealTimeSeconds(vs: seq<Visible>, b: Block, i: nat)
    requires b.Valid() && WithinBlock(vs, b) && i < |vs|
    ensures AtRealTime(vs, b, i) <==> DrawnAtSecond(vs, b, i) == vs[i].start - b.start
  {
    DrawnAtIs(vs, b, i);
    PercentSame(DrawnAtSecond(vs, b, i), vs[i].start - b.start, b);
  }

  lemma OverlapMovesLater(vs: seq<Visible>, b: Block, i: nat, j: nat)
    requires WithinBlock(vs, b) && i < j < |vs| && vs[i].end > vs[j].start
    ensures DrawnAtSecond(vs, b, j) > vs[j].start - b.start
  {
    DrawnUntilInBlock(vs[..j], b);
    assert vs[..j][i] == vs[i];
    OverlapNonNegative(vs[..j], b, 0);
  }

  lemma LaterMisses(vs: seq<Visible>, b: Block, i: nat, j: nat)
    requires b.Valid() && WithinBlock(vs, b) && i < j < |vs| && vs[i].end > vs[j].start
    ensures !AtRealTime(vs, b, j)
  {
    OverlapMovesLater(vs, b, i, j);
    AtRealTimeSeconds(vs, b, j);
  }

  /** Every video sits at its real time on the bar exactly when no visible video overlaps a later one. */
  lemma AtRealTimeIff(vs: seq<Visible>, b: Block)
    requires b.Valid() && WithinBlock(vs, b)
    ensures (forall i :: 0 <= i < |vs| ==> AtRealTime(vs, b, i)) <==> InOrder(vs)
  {
    if InOrder(vs) {
      InOrderNoOverlap(vs, b);
      forall i | 0 <= i < |vs| ensures AtRealTime(vs, b, i) {
        AtRealTimeSeconds(vs, b, i);
        InOrderNoOverlap(vs[..i], b);
      }
    } else {
      var i, j :| 0 <= i < j < |vs| && vs[i].end > vs[j].start;
      LaterMisses(vs, b, i, j);
    }
  }

  lemma OneMoreDrawn(items: seq<BarItem>, b: Block)
    requires items != [] && VisibleOf(items[|items| - 1], b).end > VisibleOf(items[|items| - 1], b).start
    ensures VisiblesOf(items, b) == VisiblesOf(items[..|items| - 1], b) + [VisibleOf(items[|items| - 1], b)]
  {
  }

  lemma BothDrawn(first: BarItem, second: BarItem, b: Block)
    requires VisibleOf(first, b).end > VisibleOf(first, b).start
    requires VisibleOf(second, b).end > VisibleOf(second, b).start
    ensures VisiblesOf([first, second], b) == [VisibleOf(first, b), VisibleOf(second, b)]
  {
    OneMoreDrawn([first, second], b);
    assert [first, second][..1] == [first];
    OneMoreDrawn([first], b);
    assert [first][..0] == [];
  }

  /**
   * An input that fails: two items without start and end. Both begin with the block, but the second is drawn
   * behind the first.
   */
  lemma ItemsWithoutStartMiss(first: BarItem, second: BarItem, b: Block)
    requires b.Valid() && first.durationMinutes > 0 && second.durationMinutes > 0
    requires first.startSecond.None? && first.endSecond.None? && second.startSecond.None? && second.endSecond.None?
    ensures var vs := VisiblesOf([first, second], b); |vs| == 2 && !AtRealTime(vs, b, 1)
  {
    BothDrawn(first, second, b);
    LaterMisses(VisiblesOf([first, second], b), b, 0, 1);
  }

  /**
   * The bar fits its box exactly when what it covers and what it draws twice fit the block; in order, it always
   * does.
   */
  lemma BarFitsIff(vs: seq<Visible>, b: Block)
    requires b.Valid() && WithinBlock(vs, b)
    ensures Length(Segments(vs, b)) <= 100.0 <==> DrawnUntil(vs, b) + Overlap(vs, b) <= b.End()
    ensures InOrder(vs) ==> Length(Segments(vs, b)) <= 100.0
  {
    BarIsCovered(vs, b);
    LengthIsBarSeconds(vs, b);
    PercentOrder(BarSeconds(vs, b), b.seconds, b);
    DrawnUntilInBlock(vs, b);
    if InOrder(vs) {
      InOrderNoOverlap(vs, b);
    }
  }

  /** In order, what is drawn of a block's items is in order too. */
  lemma {:induction false} VisibleInOrder(items: seq<BarItem>, b: Block)
    requires forall i :: 0 <= i < |items| ==> items[i].startSecond.Some? && items[i].endSecond.Some?
    requires forall i, j :: 0 <= i < j < |items| ==> items[i].endSecond.value <= items[j].startSecond.value
    ensures InOrder(VisiblesOf(items, b)) && WithinBlock(VisiblesOf(items, b), b)
    ensures forall v :: v in VisiblesOf(items, b) ==>
      exists i :: 0 <= i < |items| && v == VisibleOf(items[i], b)
  {
    if items != [] {
      var n := |items| - 1;
      VisibleInOrder(items[..n], b);
      var vs, last := VisiblesOf(items[..n], b), VisibleOf(items[n], b);
      forall v | v in vs ensures v.end <= last.start && exists i :: 0 <= i < |items| && v == VisibleOf(items[i], b) {
        var i :| 0 <= i < |items[..n]| && v == VisibleOf(items[..n][i], b);
        assert items[i].endSecond.value <= items[n].startSecond.value;
      }
      forall i | 0 <= i < |vs| ensures vs[i].end <= last.start {
        assert vs[i] in vs;
      }
    }
  }

  /** For a block whose items follow one another, every video stands at its real time and the bar fits. */
  lemma OrderedBlockIsTrueToTime(items: seq<BarItem>, b: Block, i: nat)
    requires b.Valid()
    requires forall i :: 0 <= i < |items| ==> items[i].startSecond.Some? && items[i].endSecond.Some?
    requires forall i, j :: 0 <= i < j < |items| ==> items[i].endSecond.value <= items[j].startSecond.value
    requires i < |VisiblesOf(items, b)|
    ensures AtRealTime(VisiblesOf(items, b), b, i) && Length(Segments(VisiblesOf(items, b), b)) <= 100.0
  {
    VisibleInOrder(items, b);
    AtRealTimeIff(VisiblesOf(items, b), b);
    BarFitsIff(VisiblesOf(items, b), b);
  }
}
