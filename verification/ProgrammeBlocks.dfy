/**
 * The blocks of the projected week with their air windows and items as instants (milliseconds):
 * `collectBlocks` of apps/web/lib/public-programme.ts.
 */
module ProgrammeBlocks {
  import opened Wrappers
  import opened StableSort

  datatype Window = Window(start: int, end: int)

  /** `collectBlocks` gives every block at least one air window. */
  type Windows = ws: seq<Window> | |ws| > 0 witness [Window(0, 0)]

  datatype Item = Item(title: string, start: int, end: int, insert: bool)

  datatype BlockKey = BlockKey(blockId: string, date: string)

  /** `id` stands for the identity of the source's block object: the position it was collected at. */
  datatype Block = Block(
    id: nat, key: BlockKey, poolId: string, title: string, categoryName: string,
    dated: bool, cutAtEnd: bool, windows: Windows, items: seq<Item>, playable: bool)

  // The week projection, as `buildMaterializedProgrammingWeek` hands it over.
  datatype MinuteSpan = MinuteSpan(start: int, end: int)

  /** `None` for a second that is not a number. */
  datatype ProjectedItem = ProjectedItem(title: string, startSecond: Option<int>, endSecond: Option<int>, kind: string)

  datatype ProjectedBlock = ProjectedBlock(
    blockId: string, date: string, poolId: Option<string>, title: string, categoryName: string,
    dated: bool, cutAtEnd: bool, aired: bool, airWindows: seq<MinuteSpan>,
    startMinuteOfDay: int, durationMinutes: int, items: seq<ProjectedItem>)

  datatype ProjectedDay = ProjectedDay(date: string, blocks: seq<ProjectedBlock>)

  /** The zone's answer for a wall-clock second of a date, as the start and as the end of a window. */
  datatype Zone = Zone(startInstant: (string, int) -> int, endInstant: (string, int) -> int)

  // ----- windows -----

  function MaxEnd(ws: Windows): (m: int)
    ensures forall w :: w in ws ==> w.end <= m
    ensures exists w :: w in ws && w.end == m
  {
    if |ws| == 1 then
      assert ws[0] in ws;
      ws[0].end
    else
      var m := Max(MaxEnd(ws[..|ws| - 1]), ws[|ws| - 1].end);
      assert forall w :: w in ws <==> w in ws[..|ws| - 1] || w == ws[|ws| - 1];
      m
  }

  function MinStart(ws: Windows): (m: int)
    ensures forall w :: w in ws ==> m <= w.start
    ensures exists w :: w in ws && w.start == m
  {
    if |ws| == 1 then
      assert ws[0] in ws;
      ws[0].start
    else
      var m := Min(MinStart(ws[..|ws| - 1]), ws[|ws| - 1].start);
      assert forall w :: w in ws <==> w in ws[..|ws| - 1] || w == ws[|ws| - 1];
      m
  }

  function FirstStart(b: Block): int { b.windows[0].start }

  // ----- one block -----

  function AirSpans(b: ProjectedBlock): (spans: seq<MinuteSpan>)
    ensures |spans| > 0
  {
    if |b.airWindows| > 0 then b.airWindows
    else [MinuteSpan(b.startMinuteOfDay, b.startMinuteOfDay + b.durationMinutes)]
  }

  function WindowsOf(spans: seq<MinuteSpan>, date: string, zone: Zone): (ws: seq<Window>)
    ensures |ws| == |spans|
  {
    seq(|spans|, i requires 0 <= i < |spans| =>
      Window(zone.startInstant(date, spans[i].start * 60), zone.endInstant(date, spans[i].end * 60)))
  }

  predicate Timed(item: ProjectedItem) { item.startSecond.Some? && item.endSecond.Some? }

  /** Timed items at elapsed milliseconds from `origin`; one that would start at or after `lastEnd` does not air. */
  function PlacedItems(items: seq<ProjectedItem>, origin: int, lastEnd: int): seq<Item> {
    if items == [] then []
    else
      var item := items[0];
      var rest := PlacedItems(items[1..], origin, lastEnd);
      if Timed(item) && origin + item.startSecond.value * 1000 < lastEnd then
        [Item(item.title, origin + item.startSecond.value * 1000, origin + item.endSecond.value * 1000,
          item.kind == "insert")] + rest
      else rest
  }

  /** Items are placed from the block's first air window on; the windows' own times are wall-clock times. */
  function PlacedIn(items: seq<ProjectedItem>, spans: seq<MinuteSpan>, windows: Windows): seq<Item>
    requires |spans| > 0
  {
    PlacedItems(items, windows[0].start - spans[0].start * 60 * 1000, MaxEnd(windows))
  }

  function BlockOf(day: ProjectedDay, b: ProjectedBlock, id: nat, zone: Zone): Block {
    var date := if b.date != "" then b.date else day.date;
    var spans := AirSpans(b);
    var windows: Windows := WindowsOf(spans, date, zone);
    var items := PlacedIn(b.items, spans, windows);
    Block(id, BlockKey(b.blockId, date), if b.poolId.Some? then b.poolId.value else "",
          if b.title != "" then b.title else b.categoryName, b.categoryName,
          b.dated, b.cutAtEnd, windows, items, items != [])
  }

  // ----- the whole week -----

  function AiringOfDay(day: ProjectedDay, blocks: seq<ProjectedBlock>): seq<(ProjectedDay, ProjectedBlock)> {
    if blocks == [] then []
    else AiringOfDay(day, blocks[..|blocks| - 1]) +
         (if blocks[|blocks| - 1].aired then [] else [(day, blocks[|blocks| - 1])])
  }

  /** The blocks still to air, in projection order. */
  function Airing(days: seq<ProjectedDay>): seq<(ProjectedDay, ProjectedBlock)> {
    if days == [] then []
    else Airing(days[..|days| - 1]) + AiringOfDay(days[|days| - 1], days[|days| - 1].blocks)
  }

  function Entries(airing: seq<(ProjectedDay, ProjectedBlock)>, zone: Zone): seq<Block> {
    seq(|airing|, i requires 0 <= i < |airing| => BlockOf(airing[i].0, airing[i].1, i, zone))
  }

  function Collected(days: seq<ProjectedDay>, zone: Zone): seq<Block> {
    Sort(Entries(Airing(days), zone), FirstStart)
  }

  lemma EntriesAppend(airing: seq<(ProjectedDay, ProjectedBlock)>, day: ProjectedDay, b: ProjectedBlock, zone: Zone)
    ensures Entries(airing + [(day, b)], zone) == Entries(airing, zone) + [BlockOf(day, b, |airing|, zone)]
  {
  }

  lemma AiringOfDayStep(day: ProjectedDay, blocks: seq<ProjectedBlock>, b: nat)
    requires b < |blocks|
    ensures AiringOfDay(day, blocks[..b + 1])
         == AiringOfDay(day, blocks[..b]) + (if blocks[b].aired then [] else [(day, blocks[b])])
  {
    assert blocks[..b + 1][..b] == blocks[..b];
  }

  lemma AiringStep(days: seq<ProjectedDay>, d: nat)
    requires d < |days|
    ensures Airing(days[..d + 1]) == Airing(days[..d]) + AiringOfDay(days[d], days[d].blocks)
  {
    assert days[..d + 1][..d] == days[..d];
  }

  method CollectBlocks(days: seq<ProjectedDay>, zone: Zone) returns (blocks: seq<Block>)
    ensures blocks == Collected(days, zone)
  {
    blocks := [];
    for d := 0 to |days|
      invariant blocks == Entries(Airing(days[..d]), zone)
    {
      blocks := CollectDay(days[d], zone, blocks, Airing(days[..d]));
      AiringStep(days, d);
    }
    assert days[..|days|] == days;
    blocks := Sort(blocks, FirstStart);
  }

  /** The inner loop: one day's blocks are pushed behind those of the days before. */
  method CollectDay(day: ProjectedDay, zone: Zone, before: seq<Block>,
      ghost airing: seq<(ProjectedDay, ProjectedBlock)>)
    returns (blocks: seq<Block>)
    requires before == Entries(airing, zone)
    ensures blocks == Entries(airing + AiringOfDay(day, day.blocks), zone)
  {
    blocks := before;
    ghost var seen := airing;
    assert airing + AiringOfDay(day, day.blocks[..0]) == airing;
    for b := 0 to |day.blocks|
      invariant seen == airing + AiringOfDay(day, day.blocks[..b])
      invariant blocks == Entries(seen, zone)
    {
      AiringOfDayStep(day, day.blocks, b);
      var block := day.blocks[b];
      if !block.aired {
        EntriesAppend(seen, day, block, zone);
        blocks := blocks + [BlockOf(day, block, |blocks|, zone)];
        seen := seen + [(day, block)];
      }
    }
    assert day.blocks[..|day.blocks|] == day.blocks;
  }

  // ----- what collecting guarantees -----

  /** In playing order: no item ends before it starts, and each ends before the next one starts. */
  ghost predicate InOrder(items: seq<Item>) {
    && (forall i :: 0 <= i < |items| ==> items[i].start <= items[i].end)
    && (forall i, j :: 0 <= i < j < |items| ==> items[i].end <= items[j].start)
  }

  /** The same of the projection's timed items, in seconds. */
  ghost predicate ProjectedInOrder(items: seq<ProjectedItem>) {
    && (forall i :: 0 <= i < |items| && Timed(items[i]) ==> items[i].startSecond.value <= items[i].endSecond.value)
    && (forall i, j :: 0 <= i < j < |items| && Timed(items[i]) && Timed(items[j]) ==>
          items[i].endSecond.value <= items[j].startSecond.value)
  }

  /** The item filter: nothing starts at or after the end of the block's last air window. */
  ghost predicate StartsBeforeItsEnd(b: Block) {
    forall i :: 0 <= i < |b.items| ==> b.items[i].start < MaxEnd(b.windows)
  }

  lemma {:induction false} PlacedAreTimed(items: seq<ProjectedItem>, origin: int, lastEnd: int)
    ensures forall i :: 0 <= i < |PlacedItems(items, origin, lastEnd)| ==>
      var p := PlacedItems(items, origin, lastEnd)[i];
      && p.start < lastEnd
      && exists j :: 0 <= j < |items| && Timed(items[j]) && p.start == origin + items[j].startSecond.value * 1000
                     && p.end == origin + items[j].endSecond.value * 1000
  {
    if items != [] {
      PlacedAreTimed(items[1..], origin, lastEnd);
      var placed, rest := PlacedItems(items, origin, lastEnd), PlacedItems(items[1..], origin, lastEnd);
      forall i | 0 <= i < |placed| ensures
        && placed[i].start < lastEnd
        && exists j ::
             && 0 <= j < |items| && Timed(items[j])
             && placed[i].start == origin + items[j].startSecond.value * 1000
             && placed[i].end == origin + items[j].endSecond.value * 1000
      {
        var off := |placed| - |rest|;
        if i < off {
          assert Timed(items[0]);
        } else {
          var j :| 0 <= j < |items[1..]| && Timed(items[1..][j])
            && rest[i - off].start == origin + items[1..][j].startSecond.value * 1000
            && rest[i - off].end == origin + items[1..][j].endSecond.value * 1000;
          assert items[j + 1] == items[1..][j];
        }
      }
    }
  }

  /** An item as it is placed. */
  function PlacedAt(item: ProjectedItem, origin: int): Item
    requires Timed(item)
  {
    Item(item.title, origin + item.startSecond.value * 1000, origin + item.endSecond.value * 1000,
      item.kind == "insert")
  }

  lemma {:induction false} PlacedMembers(items: seq<ProjectedItem>, origin: int, lastEnd: int, item: Item)
    ensures item in PlacedItems(items, origin, lastEnd) <==>
      exists j :: 0 <= j < |items| && Timed(items[j]) && item == PlacedAt(items[j], origin) && item.start < lastEnd
  {
    if items != [] {
      var tail := items[1..];
      PlacedMembers(tail, origin, lastEnd, item);
      var here := Timed(items[0]) && item == PlacedAt(items[0], origin) && item.start < lastEnd;
      assert item in PlacedItems(items, origin, lastEnd) <==> here || item in PlacedItems(tail, origin, lastEnd);
      if item in PlacedItems(tail, origin, lastEnd) {
        var j :| 0 <= j < |tail| && Timed(tail[j]) && item == PlacedAt(tail[j], origin) && item.start < lastEnd;
        assert items[j + 1] == tail[j];
      }
      if j :| 0 < j < |items| && Timed(items[j]) && item == PlacedAt(items[j], origin) && item.start < lastEnd {
        assert tail[j - 1] == items[j];
      }
    }
  }

  /**
   * A block's items are exactly the projection's timed items at their elapsed time behind the block's first
   * air window, without those that would start when its last window has ended.
   */
  lemma BlockItems(day: ProjectedDay, b: ProjectedBlock, id: nat, zone: Zone, item: Item)
    ensures var block := BlockOf(day, b, id, zone);
      item in block.items <==>
        exists j :: 0 <= j < |b.items| && Timed(b.items[j])
                    && item == PlacedAt(b.items[j], block.windows[0].start - AirSpans(b)[0].start * 60 * 1000)
                    && item.start < MaxEnd(block.windows)
  {
    var windows := BlockOf(day, b, id, zone).windows;
    PlacedMembers(b.items, windows[0].start - AirSpans(b)[0].start * 60 * 1000, MaxEnd(windows), item);
  }

  lemma {:induction false} PlacedInOrder(items: seq<ProjectedItem>, origin: int, lastEnd: int)
    requires ProjectedInOrder(items)
    ensures InOrder(PlacedItems(items, origin, lastEnd))
  {
    if items != [] {
      assert ProjectedInOrder(items[1..]);
      PlacedInOrder(items[1..], origin, lastEnd);
      PlacedAreTimed(items[1..], origin, lastEnd);
    }
  }

  lemma {:induction false} PlacedStart(items: seq<ProjectedItem>, origin: int, lastEnd: int)
    ensures forall i :: 0 <= i < |PlacedItems(items, origin, lastEnd)| ==>
      PlacedItems(items, origin, lastEnd)[i].start < lastEnd
  {
    if items != [] {
      PlacedStart(items[1..], origin, lastEnd);
    }
  }

  lemma BlockOfStartsBeforeItsEnd(day: ProjectedDay, b: ProjectedBlock, id: nat, zone: Zone)
    ensures StartsBeforeItsEnd(BlockOf(day, b, id, zone))
  {
    var windows := BlockOf(day, b, id, zone).windows;
    PlacedStart(b.items, windows[0].start - AirSpans(b)[0].start * 60 * 1000, MaxEnd(windows));
  }

  lemma BlockOfInOrder(day: ProjectedDay, b: ProjectedBlock, id: nat, zone: Zone)
    requires ProjectedInOrder(b.items)
    ensures InOrder(BlockOf(day, b, id, zone).items)
  {
    var windows := BlockOf(day, b, id, zone).windows;
    PlacedInOrder(b.items, windows[0].start - AirSpans(b)[0].start * 60 * 1000, MaxEnd(windows));
  }

  /** A collected block comes from one block of the projection that has not aired. */
  lemma CollectedSource(days: seq<ProjectedDay>, zone: Zone, b: Block) returns (i: nat)
    requires b in Collected(days, zone)
    ensures i < |Airing(days)| && b == BlockOf(Airing(days)[i].0, Airing(days)[i].1, i, zone)
  {
    var entries := Entries(Airing(days), zone);
    SortMembers(entries, FirstStart);
    i :| 0 <= i < |entries| && entries[i] == b;
  }

  /** Whatever the projection and the zone say, a collected item starts before its block's last window ends. */
  lemma CollectedStartBeforeEnd(days: seq<ProjectedDay>, zone: Zone, b: Block)
    requires b in Collected(days, zone)
    ensures StartsBeforeItsEnd(b)
  {
    var i := CollectedSource(days, zone, b);
    BlockOfStartsBeforeItsEnd(Airing(days)[i].0, Airing(days)[i].1, i, zone);
  }

  /** Items in order in the projection's elapsed seconds are in order as instants. */
  lemma CollectedInOrder(days: seq<ProjectedDay>, zone: Zone, b: Block)
    requires forall p :: p in Airing(days) ==> ProjectedInOrder(p.1.items)
    requires b in Collected(days, zone)
    ensures InOrder(b.items)
  {
    var i := CollectedSource(days, zone, b);
    assert Airing(days)[i] in Airing(days);
    BlockOfInOrder(Airing(days)[i].0, Airing(days)[i].1, i, zone);
  }

  /** Identities are positions in the projection, so two collected blocks with one identity are the same block. */
  lemma CollectedIdentity(days: seq<ProjectedDay>, zone: Zone, a: Block, b: Block)
    requires a in Collected(days, zone) && b in Collected(days, zone) && a.id == b.id
    ensures a == b
  {
    var i := CollectedSource(days, zone, a);
    var j := CollectedSource(days, zone, b);
  }

  // ----- what a collected block is, in the projection's terms -----

  /** The window airs the minutes of the span on that date. */
  ghost predicate IsWindow(w: Window, start: int, end: int, date: string, zone: Zone) {
    w.start == zone.startInstant(date, 60 * start) && w.end == zone.endInstant(date, 60 * end)
  }

  /** One window for each air window of the block, in order; without any, one for its planned time. */
  ghost predicate AirsIn(ws: seq<Window>, b: ProjectedBlock, date: string, zone: Zone) {
    if b.airWindows != [] then
      && |ws| == |b.airWindows|
      && forall i :: 0 <= i < |ws| ==> IsWindow(ws[i], b.airWindows[i].start, b.airWindows[i].end, date, zone)
    else
      |ws| == 1 && IsWindow(ws[0], b.startMinuteOfDay, b.startMinuteOfDay + b.durationMinutes, date, zone)
  }

  /** The minute of the day at which the block's first window starts. */
  function FirstMinute(b: ProjectedBlock): int {
    if b.airWindows != [] then b.airWindows[0].start else b.startMinuteOfDay
  }

  /** The item airs as long behind `at` as its seconds lie behind `minute`. */
  ghost predicate AirsAt(item: Item, p: ProjectedItem, at: int, minute: int) {
    && p.startSecond.Some? && p.endSecond.Some?
    && item.title == p.title && (item.insert <==> p.kind == "insert")
    && item.start == at + 1000 * (p.startSecond.value - 60 * minute)
    && item.end == at + 1000 * (p.endSecond.value - 60 * minute)
  }

  /**
   * The items that air, in the projection's order, each once: `places` says where each stands there. An item
   * without seconds is left out, and so is one that would start when every window has ended.
   */
  ghost predicate AirsItems(
    items: seq<Item>, source: seq<ProjectedItem>, ws: seq<Window>, minute: int, places: seq<nat>)
    requires |ws| > 0
  {
    && |places| == |items|
    && (forall k :: 0 <= k < |places| ==>
          places[k] < |source| && AirsAt(items[k], source[places[k]], ws[0].start, minute))
    && (forall k, l :: 0 <= k < l < |places| ==> places[k] < places[l])
    && (forall k :: 0 <= k < |items| ==> exists w :: w in ws && items[k].start < w.end)
    && (forall j :: 0 <= j < |source| && source[j].startSecond.Some? && source[j].endSecond.Some? && j !in places ==>
          forall w :: w in ws ==> ws[0].start + 1000 * (source[j].startSecond.value - 60 * minute) >= w.end)
  }

  /** The block of the programme that block `b` of the projection's day `day` becomes. */
  ghost predicate Becomes(day: ProjectedDay, b: ProjectedBlock, block: Block, zone: Zone) {
    var date := if b.date == "" then day.date else b.date;
    && !b.aired
    && block.key == BlockKey(b.blockId, date)
    && (block.title == if b.title == "" then b.categoryName else b.title) && block.categoryName == b.categoryName
    && (b.poolId.None? ==> block.poolId == "") && (b.poolId.Some? ==> block.poolId == b.poolId.value)
    && (block.dated <==> b.dated) && (block.cutAtEnd <==> b.cutAtEnd)
    && AirsIn(block.windows, b, date, zone)
    && (exists places :: AirsItems(block.items, b.items, block.windows, FirstMinute(b), places))
    && (block.playable <==> block.items != [])
  }

  /** Each placed item is that of its place, and airs. */
  ghost predicate EachAt(items: seq<Item>, source: seq<ProjectedItem>, origin: int, lastEnd: int, places: seq<nat>) {
    && |places| == |items|
    && forall k :: 0 <= k < |places| ==>
         && places[k] < |source| && Timed(source[places[k]])
         && items[k] == PlacedAt(source[places[k]], origin) && items[k].start < lastEnd
  }

  predicate Rising(places: seq<nat>) { forall k, l :: 0 <= k < l < |places| ==> places[k] < places[l] }

  /** What has no place would start too late. */
  ghost predicate NoneMissing(source: seq<ProjectedItem>, origin: int, lastEnd: int, places: seq<nat>) {
    forall j :: 0 <= j < |source| && Timed(source[j]) && j !in places ==>
      origin + source[j].startSecond.value * 1000 >= lastEnd
  }

  /** Where the placed items stand in the projection. */
  ghost predicate Placed(items: seq<Item>, source: seq<ProjectedItem>, origin: int, lastEnd: int, places: seq<nat>) {
    EachAt(items, source, origin, lastEnd, places) && Rising(places) && NoneMissing(source, origin, lastEnd, places)
  }

  function Behind(places: seq<nat>): (r: seq<nat>)
    ensures |r| == |places| && forall k :: 0 <= k < |r| ==> r[k] == places[k] + 1
  {
    seq(|places|, k requires 0 <= k < |places| => places[k] + 1)
  }

  lemma BehindMember(places: seq<nat>, j: nat)
    requires j > 0 && j - 1 in places
    ensures j in Behind(places)
  {
    var k :| 0 <= k < |places| && places[k] == j - 1;
    assert Behind(places)[k] == j;
  }

  lemma EachBehind(items: seq<Item>, source: seq<ProjectedItem>, origin: int, lastEnd: int, rest: seq<nat>)
    requires source != [] && EachAt(items, source[1..], origin, lastEnd, rest)
    ensures EachAt(items, source, origin, lastEnd, Behind(rest))
  {
    assert forall k :: 0 <= k < |rest| ==> source[Behind(rest)[k]] == source[1..][rest[k]];
  }

  lemma EachWithFirst(items: seq<Item>, source: seq<ProjectedItem>, origin: int, lastEnd: int, places: seq<nat>)
    requires source != [] && EachAt(items, source, origin, lastEnd, places)
    requires Timed(source[0]) && origin + source[0].startSecond.value * 1000 < lastEnd
    ensures EachAt([PlacedAt(source[0], origin)] + items, source, origin, lastEnd, [0] + places)
  {
  }

  lemma RisingBehind(rest: seq<nat>)
    requires Rising(rest)
    ensures Rising(Behind(rest)) && Rising([0] + Behind(rest))
  {
  }

  /** The places of the tail, and the first one if it airs, miss nothing. */
  lemma NoneMissingBehind(source: seq<ProjectedItem>, origin: int, lastEnd: int, rest: seq<nat>, places: seq<nat>)
    requires source != [] && NoneMissing(source[1..], origin, lastEnd, rest)
    requires forall x :: x in Behind(rest) ==> x in places
    requires 0 in places || !Timed(source[0]) || origin + source[0].startSecond.value * 1000 >= lastEnd
    ensures NoneMissing(source, origin, lastEnd, places)
  {
    forall j | 0 <= j < |source| && Timed(source[j]) && j !in places
      ensures origin + source[j].startSecond.value * 1000 >= lastEnd
    {
      if j > 0 {
        assert source[1..][j - 1] == source[j];
        if j - 1 in rest {
          BehindMember(rest, j);
        }
      }
    }
  }

  lemma FirstInFront(rest: seq<nat>)
    ensures 0 in [0] + rest && forall x :: x in rest ==> x in [0] + rest
  {
  }

  lemma {:induction false} PlacesOf(source: seq<ProjectedItem>, origin: int, lastEnd: int) returns (places: seq<nat>)
    ensures Placed(PlacedItems(source, origin, lastEnd), source, origin, lastEnd, places)
  {
    if source == [] {
      places := [];
    } else {
      var rest := PlacesOf(source[1..], origin, lastEnd);
      var items := PlacedItems(source[1..], origin, lastEnd);
      EachBehind(items, source, origin, lastEnd, rest);
      RisingBehind(rest);
      if Timed(source[0]) && origin + source[0].startSecond.value * 1000 < lastEnd {
        EachWithFirst(items, source, origin, lastEnd, Behind(rest));
        places := [0] + Behind(rest);
        FirstInFront(Behind(rest));
      } else {
        places := Behind(rest);
      }
      NoneMissingBehind(source, origin, lastEnd, rest, places);
    }
  }

  lemma PlacedAirs(items: seq<Item>, source: seq<ProjectedItem>, ws: Windows, minute: int, places: seq<nat>)
    requires Placed(items, source, ws[0].start - minute * 60 * 1000, MaxEnd(ws), places)
    ensures AirsItems(items, source, ws, minute, places)
  {
    var w :| w in ws && w.end == MaxEnd(ws);
    forall k | 0 <= k < |items| ensures exists v :: v in ws && items[k].start < v.end {
      assert w in ws && items[k].start < w.end;
    }
  }

  lemma BlockOfAirsIn(day: ProjectedDay, b: ProjectedBlock, id: nat, zone: Zone)
    ensures AirsIn(BlockOf(day, b, id, zone).windows, b, if b.date == "" then day.date else b.date, zone)
  {
  }

  lemma BlockOfBecomes(day: ProjectedDay, b: ProjectedBlock, id: nat, zone: Zone)
    requires !b.aired
    ensures Becomes(day, b, BlockOf(day, b, id, zone), zone)
  {
    var block := BlockOf(day, b, id, zone);
    BlockOfAirsIn(day, b, id, zone);
    var origin := block.windows[0].start - FirstMinute(b) * 60 * 1000;
    var places := PlacesOf(b.items, origin, MaxEnd(block.windows));
    PlacedAirs(block.items, b.items, block.windows, FirstMinute(b), places);
  }

  lemma {:induction false} AiringOfDaySource(day: ProjectedDay, blocks: seq<ProjectedBlock>, i: nat) returns (k: nat)
    requires i < |AiringOfDay(day, blocks)|
    ensures k < |blocks| && !blocks[k].aired && AiringOfDay(day, blocks)[i] == (day, blocks[k])
  {
    var n := |blocks| - 1;
    if i < |AiringOfDay(day, blocks[..n])| {
      k := AiringOfDaySource(day, blocks[..n], i);
    } else {
      k := n;
    }
  }

  lemma {:induction false} AiringSource(days: seq<ProjectedDay>, i: nat) returns (d: nat, k: nat)
    requires i < |Airing(days)|
    ensures d < |days| && k < |days[d].blocks| && !days[d].blocks[k].aired
    ensures Airing(days)[i] == (days[d], days[d].blocks[k])
  {
    var n := |days| - 1;
    var before := |Airing(days[..n])|;
    if i < before {
      d, k := AiringSource(days[..n], i);
    } else {
      d := n;
      k := AiringOfDaySource(days[n], days[n].blocks, i - before);
    }
  }

  lemma {:induction false} AiringOfDayHolds(day: ProjectedDay, blocks: seq<ProjectedBlock>, k: nat)
    requires k < |blocks| && !blocks[k].aired
    ensures (day, blocks[k]) in AiringOfDay(day, blocks)
  {
    var n := |blocks| - 1;
    if k < n {
      AiringOfDayHolds(day, blocks[..n], k);
    }
  }

  lemma {:induction false} AiringHolds(days: seq<ProjectedDay>, d: nat, k: nat)
    requires d < |days| && k < |days[d].blocks| && !days[d].blocks[k].aired
    ensures (days[d], days[d].blocks[k]) in Airing(days)
  {
    var n := |days| - 1;
    if d < n {
      AiringHolds(days[..n], d, k);
    } else {
      AiringOfDayHolds(days[n], days[n].blocks, k);
    }
  }

  /** Every collected block is what some block of the projection that has not aired becomes. */
  lemma CollectedBecomes(days: seq<ProjectedDay>, zone: Zone, b: Block) returns (d: nat, k: nat)
    requires b in Collected(days, zone)
    ensures d < |days| && k < |days[d].blocks| && Becomes(days[d], days[d].blocks[k], b, zone)
  {
    var i := CollectedSource(days, zone, b);
    d, k := AiringSource(days, i);
    BlockOfBecomes(days[d], days[d].blocks[k], i, zone);
  }

  /** And every block of the projection that has not aired becomes a collected one. */
  lemma AiringIsCollected(days: seq<ProjectedDay>, zone: Zone, d: nat, k: nat) returns (b: Block)
    requires d < |days| && k < |days[d].blocks| && !days[d].blocks[k].aired
    ensures b in Collected(days, zone) && Becomes(days[d], days[d].blocks[k], b, zone)
  {
    AiringHolds(days, d, k);
    var entries := Entries(Airing(days), zone);
    var i :| 0 <= i < |Airing(days)| && Airing(days)[i] == (days[d], days[d].blocks[k]);
    b := entries[i];
    SortMembers(entries, FirstStart);
    BlockOfBecomes(days[d], days[d].blocks[k], i, zone);
  }

  function UnairedOf(blocks: seq<ProjectedBlock>): nat {
    if blocks == [] then 0 else UnairedOf(blocks[..|blocks| - 1]) + (if blocks[|blocks| - 1].aired then 0 else 1)
  }

  /** How many blocks of the projection have not aired. */
  function Unaired(days: seq<ProjectedDay>): nat {
    if days == [] then 0 else Unaired(days[..|days| - 1]) + UnairedOf(days[|days| - 1].blocks)
  }

  lemma {:induction false} AiringOfDayCount(day: ProjectedDay, blocks: seq<ProjectedBlock>)
    ensures |AiringOfDay(day, blocks)| == UnairedOf(blocks)
  {
    if blocks != [] {
      AiringOfDayCount(day, blocks[..|blocks| - 1]);
    }
  }

  lemma {:induction false} AiringCount(days: seq<ProjectedDay>)
    ensures |Airing(days)| == Unaired(days)
  {
    if days != [] {
      AiringCount(days[..|days| - 1]);
      AiringOfDayCount(days[|days| - 1], days[|days| - 1].blocks);
    }
  }

  /** One for one: as many blocks are collected as have not aired, and they stand by the start of their first window. */
  lemma CollectedCount(days: seq<ProjectedDay>, zone: Zone)
    ensures |Collected(days, zone)| == Unaired(days)
    ensures var bs := Collected(days, zone);
      forall i, j :: 0 <= i < j < |bs| ==> bs[i].windows[0].start <= bs[j].windows[0].start
  {
    var entries := Entries(Airing(days), zone);
    SortContents(entries, FirstStart);
    SortSorted(entries, FirstStart);
    assert |multiset(Collected(days, zone))| == |multiset(entries)|;
    AiringCount(days);
    var bs := Collected(days, zone);
    forall i, j | 0 <= i < j < |bs| ensures bs[i].windows[0].start <= bs[j].windows[0].start {
      assert FirstStart(bs[i]) <= FirstStart(bs[j]);
    }
  }

  /** The zone's clock runs evenly through the date, from the instant the date begins. */
  ghost predicate RunsEvenly(zone: Zone, date: string, begins: int) {
    forall second :: zone.startInstant(date, second) == begins + 1000 * second
  }

  /** On a date without a clock change every item airs at its own second of the date. */
  lemma ItemsAtTheirSeconds(days: seq<ProjectedDay>, zone: Zone, b: Block, begins: int, item: Item)
    returns (d: nat, k: nat, j: nat)
    requires b in Collected(days, zone) && RunsEvenly(zone, b.key.date, begins) && item in b.items
    ensures d < |days| && k < |days[d].blocks| && j < |days[d].blocks[k].items|
    ensures Becomes(days[d], days[d].blocks[k], b, zone)
    ensures var p := days[d].blocks[k].items[j];
      && p.startSecond.Some? && p.endSecond.Some? && item.title == p.title
      && item.start == begins + 1000 * p.startSecond.value && item.end == begins + 1000 * p.endSecond.value
  {
    d, k := CollectedBecomes(days, zone, b);
    var source := days[d].blocks[k];
    var places :| AirsItems(b.items, source.items, b.windows, FirstMinute(source), places);
    var i :| 0 <= i < |b.items| && b.items[i] == item;
    j := places[i];
    assert AirsAt(item, source.items[j], b.windows[0].start, FirstMinute(source));
    assert b.windows[0].start == zone.startInstant(b.key.date, 60 * FirstMinute(source));
  }
}
