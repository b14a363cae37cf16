/**
 * Up next: the timeline of the next hours and its groups, as `buildPublicProgramme` in
 * apps/web/lib/public-programme.ts builds them from the moved blocks.
 */
module ProgrammeTimeline {
  import opened Wrappers
  import opened StableSort
  import opened Runs
  import opened ProgrammeBlocks

  const GROUP_ITEMS: nat := 25

  /** `item` is `None` for an air window of a block with nothing to play. */
  datatype Entry = Entry(block: Block, item: Option<Item>, start: int, end: int)

  datatype ListedItem = ListedItem(title: string, startsAt: int, endsAt: int)

  datatype GroupKey = GroupKey(block: BlockKey, start: int)

  datatype Group = Group(
    key: GroupKey, title: string, categoryName: string, dated: bool,
    startsAt: int, endsAt: int, items: seq<ListedItem>, itemCount: nat)

  // ----- the timeline -----

  predicate Listed(item: Item, from: int, horizon: int) { !item.insert && from <= item.start < horizon }

  function ItemEntries(b: Block, items: seq<Item>, from: int, horizon: int): seq<Entry> {
    if items == [] then []
    else (if Listed(items[0], from, horizon) then [Entry(b, Some(items[0]), items[0].start, items[0].end)] else [])
         + ItemEntries(b, items[1..], from, horizon)
  }

  function WindowEntries(b: Block, ws: seq<Window>, now: int, horizon: int): seq<Entry> {
    if ws == [] then []
    else (if now < ws[0].start < horizon then [Entry(b, None, ws[0].start, ws[0].end)] else [])
         + WindowEntries(b, ws[1..], now, horizon)
  }

  function BlockEntries(b: Block, now: int, from: int, horizon: int): seq<Entry> {
    if b.playable then ItemEntries(b, b.items, from, horizon) else WindowEntries(b, b.windows, now, horizon)
  }

  function AllEntries(blocks: seq<Block>, now: int, from: int, horizon: int): seq<Entry> {
    if blocks == [] then []
    else BlockEntries(blocks[0], now, from, horizon) + AllEntries(blocks[1..], now, from, horizon)
  }

  function StartOf(e: Entry): int { e.start }

  function Timeline(blocks: seq<Block>, now: int, from: int, horizon: int): seq<Entry> {
    Sort(AllEntries(blocks, now, from, horizon), StartOf)
  }

  // ----- the groups -----

  /** The same programme, airing on without a break. */
  predicate Continues(before: Block, after: Block) {
    && before.title == after.title
    && before.poolId == after.poolId
    && MaxEnd(before.windows) >= MinStart(after.windows)
  }

  predicate RunsOn(before: Block, after: Block) { before.id == after.id || Continues(before, after) }

  /** Two neighbours of the timeline are of one group. */
  predicate Joins(e: Entry, f: Entry) { e.item.Some? && f.item.Some? && RunsOn(e.block, f.block) }

  function ListedItems(run: seq<Entry>): (items: seq<ListedItem>)
    ensures |items| <= |run|
  {
    if run == [] then []
    else
      var e := run[|run| - 1];
      ListedItems(run[..|run| - 1]) + (if e.item.Some? then [ListedItem(e.item.value.title, e.start, e.end)] else [])
  }

  function FirstFew(items: seq<ListedItem>): seq<ListedItem> {
    items[..if |items| <= GROUP_ITEMS then |items| else GROUP_ITEMS]
  }

  /**
   * One run as the card shows it: its first entry's block and times, its items counted, and the first of them
   * listed.
   */
  function Summary(run: seq<Entry>): Group
    requires run != []
  {
    var head := run[0];
    Group(GroupKey(head.block.key, head.start), head.block.title, head.block.categoryName, head.block.dated,
          head.start, head.end, FirstFew(ListedItems(run)), |ListedItems(run)|)
  }

  function Summaries(runs: seq<seq<Entry>>): (groups: seq<Group>)
    requires forall i :: 0 <= i < |runs| ==> runs[i] != []
    ensures |groups| == |runs|
  {
    seq(|runs|, i requires 0 <= i < |runs| => Summary(runs[i]))
  }

  function Groups(timeline: seq<Entry>): seq<Group> {
    Summaries(Split(timeline, Joins))
  }

  /** A run that has an item ends with one: a window entry never joins. */
  lemma CountTellsLastItem(run: seq<Entry>)
    requires run != [] && Chained(run, Joins)
    ensures |ListedItems(run)| > 0 <==> run[|run| - 1].item.Some?
  {
    var n := |run| - 1;
    if n > 0 {
      assert Joins(run[n - 1], run[n]);
    } else {
      assert ListedItems(run[..0]) == [];
    }
  }

  function Extended(group: Group, e: Entry): Group
    requires e.item.Some?
  {
    var items :=
      if |group.items| < GROUP_ITEMS then group.items + [ListedItem(e.item.value.title, e.start, e.end)]
      else group.items;
    group.(itemCount := group.itemCount + 1, items := items)
  }

  lemma ExtendSummary(run: seq<Entry>, e: Entry)
    requires run != [] && e.item.Some?
    ensures Summary(run + [e]) == Extended(Summary(run), e)
  {
    assert (run + [e])[..|run|] == run;
  }

  lemma SummaryOfOne(e: Entry)
    ensures Summary([e]) == Group(
      GroupKey(e.block.key, e.start), e.block.title, e.block.categoryName, e.block.dated, e.start, e.end,
      if e.item.Some? then [ListedItem(e.item.value.title, e.start, e.end)] else [],
      if e.item.Some? then 1 else 0)
  {
    assert [e][..0] == [];
  }

  /** The last group counts an item exactly when the timeline so far ends with one. */
  lemma LastGroup(timeline: seq<Entry>)
    requires timeline != []
    ensures Groups(timeline) != []
    ensures Groups(timeline)[|Groups(timeline)| - 1].itemCount > 0 <==> timeline[|timeline| - 1].item.Some?
  {
    SplitIsMaximal(timeline, Joins);
    var runs := Split(timeline, Joins);
    LastRun(runs, timeline, Joins);
    CountTellsLastItem(runs[|runs| - 1]);
  }

  lemma SummariesAppend(runs: seq<seq<Entry>>, run: seq<Entry>)
    requires run != [] && forall i :: 0 <= i < |runs| ==> runs[i] != []
    ensures Summaries(runs + [run]) == Summaries(runs) + [Summary(run)]
  {
  }

  /** An entry that joins extends the last group. */
  lemma GroupsJoin(before: seq<Entry>, e: Entry)
    requires before != [] && Joins(before[|before| - 1], e)
    ensures Groups(before) != []
    ensures Groups(before + [e]) == Groups(before)[..|Groups(before)| - 1]
      + [Extended(Groups(before)[|Groups(before)| - 1], e)]
  {
    var runs := Split(before, Joins);
    var init, last := runs[..|runs| - 1], runs[|runs| - 1];
    assert (before + [e])[..|before|] == before;
    assert Split(before + [e], Joins) == init + [last + [e]];
    assert runs == init + [last];
    SummariesAppend(init, last);
    SummariesAppend(init, last + [e]);
    ExtendSummary(last, e);
  }

  /** Any other entry opens a group. */
  lemma GroupsOpen(before: seq<Entry>, e: Entry)
    requires before == [] || !Joins(before[|before| - 1], e)
    ensures Groups(before + [e]) == Groups(before) + [Summary([e])]
  {
    assert (before + [e])[..|before|] == before;
    SummariesAppend(Split(before, Joins), [e]);
  }

  /** The loop's test: the entry goes on in the last group. */
  predicate GoesOn(groups: seq<Group>, lastBlock: Option<Block>, e: Entry) {
    e.item.Some? && groups != [] && lastBlock.Some? && RunsOn(lastBlock.value, e.block)
      && groups[|groups| - 1].itemCount > 0
  }

  /** The entry extends the last group, or opens one. */
  function WithEntry(groups: seq<Group>, lastBlock: Option<Block>, e: Entry): seq<Group> {
    if GoesOn(groups, lastBlock, e) then groups[..|groups| - 1] + [Extended(groups[|groups| - 1], e)]
    else groups + [Summary([e])]
  }

  /** The block of the entry before. */
  function LastBlockOf(before: seq<Entry>): Option<Block> {
    if before == [] then None else Some(before[|before| - 1].block)
  }

  /** That test, on the last group and the last block, is the test on neighbours of the timeline. */
  lemma GroupsStep(before: seq<Entry>, e: Entry, groups: seq<Group>, lastBlock: Option<Block>)
    requires groups == Groups(before)
    requires lastBlock == LastBlockOf(before)
    ensures Groups(before + [e]) == WithEntry(groups, lastBlock, e) && LastBlockOf(before + [e]) == Some(e.block)
  {
    if before == [] {
      GroupsOpen(before, e);
    } else {
      LastGroup(before);
      if Joins(before[|before| - 1], e) {
        GroupsJoin(before, e);
      } else {
        GroupsOpen(before, e);
      }
    }
  }

  /** The loop's body: the entry extends the last group, which lists it while there is room, or opens a group. */
  method PushEntry(groups: seq<Group>, lastBlock: Option<Block>, entry: Entry) returns (pushed: seq<Group>)
    ensures pushed == WithEntry(groups, lastBlock, entry)
  {
    var runsOn := lastBlock.Some? && RunsOn(lastBlock.value, entry.block);
    if entry.item.Some? && groups != [] && runsOn && groups[|groups| - 1].itemCount > 0 {
      var group := groups[|groups| - 1];
      group := group.(itemCount := group.itemCount + 1);
      if |group.items| < GROUP_ITEMS {
        group := group.(items := group.items + [ListedItem(entry.item.value.title, entry.start, entry.end)]);
      }
      return groups[..|groups| - 1] + [group];
    }
    SummaryOfOne(entry);
    pushed := groups + [Group(
      GroupKey(entry.block.key, entry.start), entry.block.title, entry.block.categoryName, entry.block.dated,
      entry.start, entry.end,
      if entry.item.Some? then [ListedItem(entry.item.value.title, entry.start, entry.end)] else [],
      if entry.item.Some? then 1 else 0)];
  }

  /** What the loop carries: the groups of the entries so far, and the block of the last of them. */
  predicate Carried(groups: seq<Group>, lastBlock: Option<Block>, before: seq<Entry>) {
    groups == Groups(before) && lastBlock == LastBlockOf(before)
  }

  lemma CarriedStep(timeline: seq<Entry>, i: nat, groups: seq<Group>, lastBlock: Option<Block>)
    requires i < |timeline| && Carried(groups, lastBlock, timeline[..i])
    ensures Carried(WithEntry(groups, lastBlock, timeline[i]), Some(timeline[i].block), timeline[..i + 1])
  {
    GroupsStep(timeline[..i], timeline[i], groups, lastBlock);
    assert timeline[..i + 1] == timeline[..i] + [timeline[i]];
  }

  method GroupTimeline(timeline: seq<Entry>) returns (groups: seq<Group>)
    ensures groups == Groups(timeline)
  {
    groups := [];
    var lastBlock: Option<Block> := None;
    for i := 0 to |timeline|
      invariant Carried(groups, lastBlock, timeline[..i])
    {
      CarriedStep(timeline, i, groups, lastBlock);
      groups := PushEntry(groups, lastBlock, timeline[i]);
      lastBlock := Some(timeline[i].block);
    }
    assert timeline[..|timeline|] == timeline;
  }
}
