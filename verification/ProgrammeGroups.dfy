/** What the groups of Up next say about the timeline and about the blocks of the week. */
module ProgrammeGroups {
  import opened Wrappers
  import opened StableSort
  import opened Runs
  import opened ProgrammeBlocks
  import opened ProgrammeTimeline

  /** Card `i` is the summary of the timeline's `i`-th maximal run, and of nothing else. */
  lemma GroupsAreMaximalRuns(timeline: seq<Entry>, parts: seq<seq<Entry>>)
    requires forall i :: 0 <= i < |parts| ==> parts[i] != []
    ensures IsMaximalRuns(parts, timeline, Joins) ==> Groups(timeline) == Summaries(parts)
    ensures IsMaximalRuns(Split(timeline, Joins), timeline, Joins)
  {
    SplitIsMaximal(timeline, Joins);
    if IsMaximalRuns(parts, timeline, Joins) {
      MaximalRunsUnique(parts, Split(timeline, Joins), timeline, Joins);
    }
  }

  /** A run of more than one entry holds items only, all of one title and one pool. */
  lemma {:induction false} OneProgrammePerGroup(run: seq<Entry>, i: nat)
    requires i < |run| && Chained(run, Joins)
    requires forall e, f :: e in run && f in run && e.block.id == f.block.id ==> e.block == f.block
    ensures run[i].block.title == Summary(run).title && run[i].block.poolId == run[0].block.poolId
    ensures |run| > 1 ==> run[i].item.Some?
  {
    if i > 0 {
      OneProgrammePerGroup(run, i - 1);
      assert Joins(run[i - 1], run[i]);
      assert run[i - 1] in run && run[i] in run;
    } else if |run| > 1 {
      assert Joins(run[0], run[1]);
    }
  }

  /** Every item of a run is counted, and the first twenty-five are listed, in order and with their own times. */
  lemma AllItemsCounted(run: seq<Entry>)
    requires run != [] && forall i :: 0 <= i < |run| ==> run[i].item.Some?
    ensures Summary(run).itemCount == |run|
    ensures |Summary(run).items| == Min(Summary(run).itemCount, 25)
    ensures Summary(run).items == ListedItems(run)[..|Summary(run).items|]
    ensures |ListedItems(run)| == |run|
    ensures forall i :: 0 <= i < |run| ==>
      ListedItems(run)[i] == ListedItem(run[i].item.value.title, run[i].start, run[i].end)
  {
    AllItemsListed(run);
  }

  lemma {:induction false} AllItemsListed(run: seq<Entry>)
    requires forall i :: 0 <= i < |run| ==> run[i].item.Some?
    ensures |ListedItems(run)| == |run|
    ensures forall i :: 0 <= i < |run| ==>
      ListedItems(run)[i] == ListedItem(run[i].item.value.title, run[i].start, run[i].end)
  {
    if run != [] {
      AllItemsListed(run[..|run| - 1]);
    }
  }

  lemma SeveralAreItems(run: seq<Entry>, i: nat)
    requires i < |run| && |run| > 1 && Chained(run, Joins)
    ensures run[i].item.Some?
  {
    if i == 0 {
      assert Joins(run[0], run[1]);
    } else {
      assert Joins(run[i - 1], run[i]);
    }
  }

  /** A window of a block with nothing to play stands alone, counts nothing and lists nothing. */
  lemma WindowStandsAlone(run: seq<Entry>, i: nat)
    requires i < |run| && Chained(run, Joins) && run[i].item.None?
    ensures |run| == 1 && Summary(run).itemCount == 0 && Summary(run).items == []
  {
    if |run| > 1 {
      SeveralAreItems(run, i);
    }
    assert ListedItems(run[..0]) == [];
  }

  /** A card opens with its first entry: the key, the block's words and the times are those of that entry. */
  lemma CardHead(timeline: seq<Entry>, g: nat)
    requires g < |Groups(timeline)|
    ensures g < |Split(timeline, Joins)| && Split(timeline, Joins)[g] != []
    ensures var card, e := Groups(timeline)[g], Split(timeline, Joins)[g][0];
      && card.key == GroupKey(e.block.key, e.start)
      && card.title == e.block.title && card.categoryName == e.block.categoryName && card.dated == e.block.dated
      && card.startsAt == e.start && card.endsAt == e.end
  {
    SplitIsMaximal(timeline, Joins);
    assert IsRun(Split(timeline, Joins)[g], Joins);
  }

  /**
   * Two entries that follow one another on a card are items of one block, or of two with one title and one pool
   * between which there is no break.
   */
  lemma RunsOnWithoutBreak(timeline: seq<Entry>, g: nat, i: nat)
    requires g < |Split(timeline, Joins)| && 0 < i < |Split(timeline, Joins)[g]|
    ensures var e, f := Split(timeline, Joins)[g][i - 1], Split(timeline, Joins)[g][i];
      && e.item.Some? && f.item.Some?
      && (|| e.block.id == f.block.id
          || (e.block.title == f.block.title && e.block.poolId == f.block.poolId
              && exists v, w :: v in e.block.windows && w in f.block.windows && v.end >= w.start))
  {
    SplitIsMaximal(timeline, Joins);
    var run := Split(timeline, Joins)[g];
    assert IsRun(run, Joins);
    var e, f := run[i - 1], run[i];
    assert Joins(e, f);
    if e.block.id != f.block.id {
      var v :| v in e.block.windows && v.end == MaxEnd(e.block.windows);
      var w :| w in f.block.windows && w.start == MinStart(f.block.windows);
      assert v.end >= w.start;
    }
  }

  /** Two neighbouring cards with items could not have been one. */
  lemma NeighbouringGroupsDiffer(timeline: seq<Entry>, parts: seq<seq<Entry>>, i: nat)
    requires IsMaximalRuns(parts, timeline, Joins) && 0 < i < |parts|
    requires ListedItems(parts[i - 1]) != [] && parts[i][0].item.Some?
    ensures var last := parts[i - 1][|parts[i - 1]| - 1].block;
      var first := parts[i][0].block;
      && last.id != first.id
      && (last.title != first.title || last.poolId != first.poolId || MaxEnd(last.windows) < MinStart(first.windows))
  {
    assert IsRun(parts[i - 1], Joins) && Apart(parts, i, Joins);
    CountTellsLastItem(parts[i - 1]);
  }

  /** The last position of part `g` lies before the first of any later part. */
  lemma PartsInSequence(parts: seq<seq<Entry>>, g: nat, i: nat, h: nat)
    requires g < h < |parts| && i < |parts[g]| && parts[h] != []
    ensures Offset(parts, g) + i < Offset(parts, h) < |Flatten(parts)|
    ensures Flatten(parts)[Offset(parts, g) + i] == parts[g][i] && Flatten(parts)[Offset(parts, h)] == parts[h][0]
  {
    PartAt(parts, g, i);
    PartAt(parts, h, 0);
    OffsetMonotone(parts, g, h);
  }

  /**
   * The cards are in airing order: nothing on one card starts after a later card does, and each card opens with
   * its earliest.
   */
  lemma CardsInAiringOrder(timeline: seq<Entry>, g: nat, i: nat, h: nat)
    requires SortedBy(timeline, StartOf) && g <= h < |Groups(timeline)| && i < |Split(timeline, Joins)[g]|
    ensures g < h ==> Split(timeline, Joins)[g][i].start <= Groups(timeline)[h].startsAt
    ensures Groups(timeline)[g].startsAt <= Split(timeline, Joins)[g][i].start
  {
    var runs := Split(timeline, Joins);
    SplitIsMaximal(timeline, Joins);
    if g < h {
      PartsInSequence(runs, g, i, h);
      assert StartOf(runs[g][i]) <= StartOf(runs[h][0]);
    }
    PartAt(runs, g, 0);
    PartAt(runs, g, i);
    assert i > 0 ==> StartOf(runs[g][0]) <= StartOf(runs[g][i]);
  }

  // ----- the counts -----

  function ItemsIn(entries: seq<Entry>): nat {
    if entries == [] then 0 else (if entries[0].item.Some? then 1 else 0) + ItemsIn(entries[1..])
  }

  function TotalCount(groups: seq<Group>): nat {
    if groups == [] then 0 else groups[0].itemCount + TotalCount(groups[1..])
  }

  function ListedOf(items: seq<Item>, from: int, horizon: int): nat {
    if items == [] then 0
    else (if !items[0].insert && from <= items[0].start < horizon then 1 else 0) + ListedOf(items[1..], from, horizon)
  }

  /** The programme videos of the blocks with something to play, that start in the next hours. */
  function VideosOf(blocks: seq<Block>, from: int, horizon: int): nat {
    if blocks == [] then 0
    else
      var own := if blocks[0].playable then ListedOf(blocks[0].items, from, horizon) else 0;
      own + VideosOf(blocks[1..], from, horizon)
  }

  lemma {:induction false} ItemsInConcat(a: seq<Entry>, b: seq<Entry>)
    ensures ItemsIn(a + b) == ItemsIn(a) + ItemsIn(b)
  {
    if a == [] {
      assert a + b == b;
    } else {
      ItemsInConcat(a[1..], b);
      assert (a + b)[1..] == a[1..] + b;
    }
  }

  lemma {:induction false} ItemsInRun(run: seq<Entry>)
    ensures |ListedItems(run)| == ItemsIn(run)
  {
    if run != [] {
      var n := |run| - 1;
      ItemsInRun(run[..n]);
      ItemsInConcat(run[..n], [run[n]]);
      assert run == run[..n] + [run[n]];
      assert [run[n]][1..] == [];
    }
  }

  lemma {:induction false} ItemsInParts(parts: seq<seq<Entry>>)
    requires forall i :: 0 <= i < |parts| ==> parts[i] != []
    ensures TotalCount(Summaries(parts)) == ItemsIn(Flatten(parts))
  {
    if parts != [] {
      ItemsInParts(parts[1..]);
      ItemsInRun(parts[0]);
      ItemsInConcat(parts[0], Flatten(parts[1..]));
      assert Summaries(parts)[1..] == Summaries(parts[1..]);
    }
  }

  lemma {:induction false} ItemsInInsert(e: Entry, s: seq<Entry>)
    ensures ItemsIn(Insert(e, s, StartOf)) == (if e.item.Some? then 1 else 0) + ItemsIn(s)
  {
    var out := Insert(e, s, StartOf);
    if s == [] || e.start <= s[0].start {
      assert out[1..] == s;
    } else {
      ItemsInInsert(e, s[1..]);
      assert out[0] == s[0] && out[1..] == Insert(e, s[1..], StartOf);
    }
  }

  lemma {:induction false} ItemsInSort(s: seq<Entry>)
    ensures ItemsIn(Sort(s, StartOf)) == ItemsIn(s)
  {
    if s != [] {
      ItemsInSort(s[1..]);
      ItemsInInsert(s[0], Sort(s[1..], StartOf));
    }
  }

  lemma {:induction false} ItemsOfBlock(b: Block, items: seq<Item>, from: int, horizon: int)
    ensures ItemsIn(ItemEntries(b, items, from, horizon)) == ListedOf(items, from, horizon)
  {
    if items != [] {
      ItemsOfBlock(b, items[1..], from, horizon);
      var head := if Listed(items[0], from, horizon) then [Entry(b, Some(items[0]), items[0].start, items[0].end)]
        else [];
      ItemsInConcat(head, ItemEntries(b, items[1..], from, horizon));
    }
  }

  lemma {:induction false} NoItemsOfWindows(b: Block, ws: seq<Window>, now: int, horizon: int)
    ensures ItemsIn(WindowEntries(b, ws, now, horizon)) == 0
  {
    if ws != [] {
      NoItemsOfWindows(b, ws[1..], now, horizon);
      var head := if now < ws[0].start < horizon then [Entry(b, None, ws[0].start, ws[0].end)] else [];
      ItemsInConcat(head, WindowEntries(b, ws[1..], now, horizon));
    }
  }

  lemma {:induction false} ItemsOfBlocks(blocks: seq<Block>, now: int, from: int, horizon: int)
    ensures ItemsIn(AllEntries(blocks, now, from, horizon)) == VideosOf(blocks, from, horizon)
  {
    if blocks != [] {
      var b := blocks[0];
      ItemsOfBlocks(blocks[1..], now, from, horizon);
      if b.playable { ItemsOfBlock(b, b.items, from, horizon); } else { NoItemsOfWindows(b, b.windows, now, horizon); }
      ItemsInConcat(BlockEntries(b, now, from, horizon), AllEntries(blocks[1..], now, from, horizon));
    }
  }

  /**
   * The cards' counts add up to the programme videos of the next hours: none is lost between cards, none counted
   * twice.
   */
  lemma CountsAddUp(blocks: seq<Block>, now: int, from: int, horizon: int)
    ensures TotalCount(Groups(Timeline(blocks, now, from, horizon))) == VideosOf(blocks, from, horizon)
  {
    var timeline := Timeline(blocks, now, from, horizon);
    SplitIsMaximal(timeline, Joins);
    ItemsInParts(Split(timeline, Joins));
    ItemsInSort(AllEntries(blocks, now, from, horizon));
    ItemsOfBlocks(blocks, now, from, horizon);
  }

  // ----- what is on the timeline -----

  ghost predicate OnTimeline(e: Entry, b: Block, now: int, from: int, horizon: int) {
    && e.block == b
    && if b.playable then e.item.Some? && e.item.value in b.items
                          && !e.item.value.insert && from <= e.start < horizon
                          && e.start == e.item.value.start && e.end == e.item.value.end
       else e.item.None? && Window(e.start, e.end) in b.windows && now < e.start < horizon
  }

  lemma {:induction false} ItemEntriesMembers(b: Block, items: seq<Item>, from: int, horizon: int, e: Entry)
    ensures e in ItemEntries(b, items, from, horizon) <==>
      e.block == b && e.item.Some? && e.item.value in items && Listed(e.item.value, from, horizon)
        && e.start == e.item.value.start && e.end == e.item.value.end
  {
    if items != [] {
      ItemEntriesMembers(b, items[1..], from, horizon, e);
      assert items == [items[0]] + items[1..];
    }
  }

  lemma {:induction false} WindowEntriesMembers(b: Block, ws: seq<Window>, now: int, horizon: int, e: Entry)
    ensures e in WindowEntries(b, ws, now, horizon) <==>
      e.block == b && e.item.None? && Window(e.start, e.end) in ws && now < e.start < horizon
  {
    if ws != [] {
      WindowEntriesMembers(b, ws[1..], now, horizon, e);
      assert ws == [ws[0]] + ws[1..];
      assert Window(e.start, e.end) == ws[0] <==> e.start == ws[0].start && e.end == ws[0].end;
    }
  }

  lemma {:induction false} AllEntriesMembers(blocks: seq<Block>, now: int, from: int, horizon: int, e: Entry)
    ensures e in AllEntries(blocks, now, from, horizon)
      <==> e.block in blocks && OnTimeline(e, e.block, now, from, horizon)
  {
    if blocks != [] {
      AllEntriesMembers(blocks[1..], now, from, horizon, e);
      assert blocks == [blocks[0]] + blocks[1..];
      ItemEntriesMembers(blocks[0], blocks[0].items, from, horizon, e);
      WindowEntriesMembers(blocks[0], blocks[0].windows, now, horizon, e);
    }
  }

  /**
   * The timeline ascends, and holds exactly the listed items of the blocks with something to play and the
   * coming air windows of those without.
   */
  lemma TimelineMembers(blocks: seq<Block>, now: int, from: int, horizon: int)
    ensures SortedBy(Timeline(blocks, now, from, horizon), StartOf)
    ensures forall e ::
      e in Timeline(blocks, now, from, horizon) <==> e.block in blocks && OnTimeline(e, e.block, now, from, horizon)
  {
    SortSorted(AllEntries(blocks, now, from, horizon), StartOf);
    SortMembers(AllEntries(blocks, now, from, horizon), StartOf);
    forall e
      ensures e in AllEntries(blocks, now, from, horizon)
        <==> e.block in blocks && OnTimeline(e, e.block, now, from, horizon)
    {
      AllEntriesMembers(blocks, now, from, horizon, e);
    }
  }
}
