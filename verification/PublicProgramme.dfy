/** `buildPublicProgramme` of apps/web/lib/public-programme.ts: what is on now, the next hours, and the week. */
module PublicProgramme {
  import opened Wrappers
  import opened StableSort
  import opened Runs
  import opened ProgrammeBlocks
  import opened OnAirShift
  import opened ProgrammeTimeline
  import opened ProgrammeGroups
  import opened ProgrammeWeek

  const NEXT_HOURS: int := 24

  /** A time as the snapshot holds it: empty, not a date, or an instant. */
  datatype Stamp = Empty | NotADate | At(ms: int)

  /** The item the playout has on air; `plannedEndsAt` is `Empty` when it is left out. */
  datatype Current = Current(title: string, categoryName: string, startsAt: Stamp, endsAt: Stamp, plannedEndsAt: Stamp)

  datatype Now =
    | NoCard
    | ItemCard(title: string, categoryName: string, startsAt: Stamp, endsAt: Stamp)
    | BlockCard(title: string, categoryName: string, start: int, end: int)

  datatype Programme = Programme(now: Now, next: seq<Group>, week: seq<WeekEntry>)

  function Parsed(t: Stamp): Option<int> { if t.At? then Some(t.ms) else None }

  /** The end the programme plans with. */
  function CurrentEnd(current: Option<Current>): Option<int> {
    if current.None? then None
    else Parsed(if current.value.endsAt != Empty then current.value.endsAt else current.value.plannedEndsAt)
  }

  /** The remainder with the sign of the dividend, as the language of the source takes it. */
  function Remainder(a: int, b: int): int
    requires b > 0
  {
    if a >= 0 then a % b else -((-a) % b)
  }

  /** The start of the current minute. */
  function FromOf(now: int): int { now - Remainder(now, 60_000) }

  function HorizonOf(now: int, nextHours: Option<int>): int {
    now + (if nextHours.Some? then nextHours.value else NEXT_HOURS) * 3_600_000
  }

  function NowCard(blocks: seq<Block>, now: int, current: Option<Current>): Now {
    if && current.Some?
       && current.value.startsAt.At? && current.value.startsAt.ms <= now
       && (current.value.endsAt == Empty || (CurrentEnd(current).Some? && CurrentEnd(current).value > now))
    then ItemCard(current.value.title, current.value.categoryName, current.value.startsAt, current.value.endsAt)
    else match OnAir(blocks, now)
      case Some(i) =>
        var w := FirstAiring(blocks[i].windows, now).value;
        BlockCard(blocks[i].title, blocks[i].categoryName, w.start, w.end)
      case None => NoCard
  }

  /** The blocks of the week once the item on air has moved those behind it. */
  function Moved(days: seq<ProjectedDay>, zone: Zone, now: int, current: Option<Current>): seq<Block> {
    AfterShift(Collected(days, zone), now, FromOf(now), CurrentEnd(current))
  }

  function NextOf(
    days: seq<ProjectedDay>, zone: Zone, now: int, current: Option<Current>, nextHours: Option<int>): seq<Entry>
  {
    Timeline(Moved(days, zone, now, current), now, FromOf(now), HorizonOf(now, nextHours))
  }

  method BuildPublicProgramme(days: seq<ProjectedDay>, zone: Zone, now: int, current: Option<Current>,
      nextHours: Option<int>)
    returns (programme: Programme)
    ensures programme.now == NowCard(Collected(days, zone), now, current)
    ensures programme.next == Groups(NextOf(days, zone, now, current, nextHours))
    ensures programme.week == Week(Collected(days, zone), now)
  {
    var from := FromOf(now);
    var horizon := HorizonOf(now, nextHours);
    var blocks := CollectBlocks(days, zone);
    ghost var collected := blocks;
    var onAir := OnAir(blocks, now);
    var currentEnd := CurrentEnd(current);
    var card := NowCard(blocks, now, current);
    if onAir.Some? && currentEnd.Some? && currentEnd.value > now {
      var block := blocks[onAir.value];
      var window := FirstAiring(block.windows, now).value;
      var shift := ShiftOf(block.items, from, window, currentEnd.value);
      var moved := MoveItems(block.items, from, window, shift, MayOverrun(block, window));
      blocks := blocks[onAir.value := block.(items := moved)];
    }
    var timeline := Timeline(blocks, now, from, horizon);
    var groups := GroupTimeline(timeline);
    forall i | 0 <= i < |blocks| ensures blocks[i] == collected[i].(items := blocks[i].items) {
      AfterShiftTouchesOneBlock(collected, now, from, currentEnd, i);
    }
    WeekIgnoresItems(collected, blocks, now);
    programme := Programme(card, groups, Week(blocks, now));
  }

  // ----- the programme as a whole -----

  /** The projection plays each block's timed items one after another. */
  ghost predicate ProjectionInOrder(days: seq<ProjectedDay>) {
    forall p :: p in Airing(days) ==> ProjectedInOrder(p.1.items)
  }

  /** Whatever is on air, every block that Up next is built from still plays its items one after another. */
  lemma MovedInOrder(days: seq<ProjectedDay>, zone: Zone, now: int, current: Option<Current>, i: nat)
    requires ProjectionInOrder(days) && i < |Collected(days, zone)|
    ensures InOrder(Moved(days, zone, now, current)[i].items)
  {
    var blocks := Collected(days, zone);
    forall b | b in blocks ensures InOrder(b.items) && StartsBeforeItsEnd(b) {
      CollectedInOrder(days, zone, b);
      CollectedStartBeforeEnd(days, zone, b);
    }
    AfterShiftKeepsOrder(blocks, now, FromOf(now), CurrentEnd(current), i);
  }

  /**
   * Up next agrees with the item on air: a listed item of the block on air starts when that item has ended,
   * or after the air window on now. It never starts under the item on air.
   */
  lemma NextStartsBehindTheItemOnAir(days: seq<ProjectedDay>, zone: Zone, now: int, current: Option<Current>,
                                     nextHours: Option<int>, e: Entry, i: nat)
    requires ProjectionInOrder(days)
    requires OnAir(Collected(days, zone), now) == Some(i)
    requires CurrentEnd(current).Some? && CurrentEnd(current).value > now
    requires e in NextOf(days, zone, now, current, nextHours) && e.item.Some?
    requires e.block == Moved(days, zone, now, current)[i]
    ensures e.start >= CurrentEnd(current).value || e.start >= FirstAiring(e.block.windows, now).value.end
  {
    var blocks := Collected(days, zone);
    var moved := Moved(days, zone, now, current);
    forall b | b in blocks ensures InOrder(b.items) && StartsBeforeItsEnd(b) {
      CollectedInOrder(days, zone, b);
      CollectedStartBeforeEnd(days, zone, b);
    }
    TimelineMembers(moved, now, FromOf(now), HorizonOf(now, nextHours));
    assert OnTimeline(e, e.block, now, FromOf(now), HorizonOf(now, nextHours));
    AfterShiftTouchesOneBlock(blocks, now, FromOf(now), CurrentEnd(current), i);
    var k :| 0 <= k < |e.block.items| && e.block.items[k] == e.item.value;
    AfterShiftBehindCurrent(blocks, now, FromOf(now), CurrentEnd(current).value, i, k);
  }

  /** Two items of one block on the timeline never overlap: the earlier one ends before the later one starts. */
  lemma ItemsOfOneBlockNeverOverlap(days: seq<ProjectedDay>, zone: Zone, now: int, current: Option<Current>,
                                    nextHours: Option<int>, e: Entry, f: Entry)
    requires ProjectionInOrder(days)
    requires e in NextOf(days, zone, now, current, nextHours) && e.item.Some?
    requires f in NextOf(days, zone, now, current, nextHours) && f.item.Some?
    requires e.block == f.block && e.item != f.item
    ensures e.end <= f.start || f.end <= e.start
  {
    var moved := Moved(days, zone, now, current);
    TimelineMembers(moved, now, FromOf(now), HorizonOf(now, nextHours));
    assert OnTimeline(e, e.block, now, FromOf(now), HorizonOf(now, nextHours));
    assert OnTimeline(f, f.block, now, FromOf(now), HorizonOf(now, nextHours));
    var i :| 0 <= i < |moved| && moved[i] == e.block;
    MovedInOrder(days, zone, now, current, i);
    var k :| 0 <= k < |e.block.items| && e.block.items[k] == e.item.value;
    var l :| 0 <= l < |f.block.items| && f.block.items[l] == f.item.value;
    assert k != l;
  }

  /**
   * Each card is one programme: all its entries come from blocks with the card's title and one pool. It counts
   * them all and lists the first twenty-five, or it is a single window and counts and lists nothing.
   */
  lemma CardsAreOneProgramme(
    days: seq<ProjectedDay>, zone: Zone, now: int, current: Option<Current>, nextHours: Option<int>, g: nat, i: nat)
    requires g < |Split(NextOf(days, zone, now, current, nextHours), Joins)|
    requires i < |Split(NextOf(days, zone, now, current, nextHours), Joins)[g]|
    ensures var timeline := NextOf(days, zone, now, current, nextHours);
      var run := Split(timeline, Joins)[g];
      && g < |Groups(timeline)| && Groups(timeline)[g] == Summary(run)
      && run[i].block.title == Groups(timeline)[g].title && run[i].block.poolId == run[0].block.poolId
      && (if run[0].item.Some?
          then Groups(timeline)[g].itemCount == |run| && Groups(timeline)[g].items == ListedItems(run)[..Min(|run|, 25)]
          else |run| == 1 && Groups(timeline)[g].itemCount == 0 && Groups(timeline)[g].items == [])
  {
    var timeline := NextOf(days, zone, now, current, nextHours);
    var runs := Split(timeline, Joins);
    SplitIsMaximal(timeline, Joins);
    var run := runs[g];
    assert IsRun(run, Joins);
    forall e: Entry, f: Entry | e in run && f in run && e.block.id == f.block.id ensures e.block == f.block {
      RunInFlatten(runs, g, e);
      RunInFlatten(runs, g, f);
      OneBlockPerIdentity(days, zone, now, current, nextHours, e, f);
    }
    OneProgrammePerGroup(run, i);
    if run[0].item.Some? {
      forall j | 0 <= j < |run| ensures run[j].item.Some? {
        OneProgrammePerGroup(run, j);
      }
      AllItemsCounted(run);
    } else {
      WindowStandsAlone(run, 0);
    }
  }

  lemma {:induction false} RunInFlatten(parts: seq<seq<Entry>>, p: nat, e: Entry)
    requires p < |parts| && e in parts[p]
    ensures e in Flatten(parts)
  {
    if p > 0 {
      RunInFlatten(parts[1..], p - 1, e);
    }
  }

  lemma OneBlockPerIdentity(
    days: seq<ProjectedDay>, zone: Zone, now: int, current: Option<Current>, nextHours: Option<int>,
    e: Entry, f: Entry)
    requires e in NextOf(days, zone, now, current, nextHours) && f in NextOf(days, zone, now, current, nextHours)
    requires e.block.id == f.block.id
    ensures e.block == f.block
  {
    var blocks, moved := Collected(days, zone), Moved(days, zone, now, current);
    TimelineMembers(moved, now, FromOf(now), HorizonOf(now, nextHours));
    var i :| 0 <= i < |moved| && moved[i] == e.block;
    var j :| 0 <= j < |moved| && moved[j] == f.block;
    AfterShiftTouchesOneBlock(blocks, now, FromOf(now), CurrentEnd(current), i);
    AfterShiftTouchesOneBlock(blocks, now, FromOf(now), CurrentEnd(current), j);
    SamePosition(days, zone, i, j);
  }

  /** Identities are distinct along the sorted list too. */
  lemma SamePosition(days: seq<ProjectedDay>, zone: Zone, i: nat, j: nat)
    requires i < |Collected(days, zone)| && j < |Collected(days, zone)|
    requires Collected(days, zone)[i].id == Collected(days, zone)[j].id
    ensures i == j
  {
    var blocks, entries := Collected(days, zone), Entries(Airing(days), zone);
    SortContents(entries, FirstStart);
    CollectedIdentity(days, zone, blocks[i], blocks[j]);
    OnceInEntries(days, zone, blocks[i]);
    if i != j {
      TwiceInMultiset(blocks, i, j);
      assert false;
    }
  }

  lemma TwiceInMultiset<T>(s: seq<T>, i: nat, j: nat)
    requires i < |s| && j < |s| && i != j && s[i] == s[j]
    ensures multiset(s)[s[i]] >= 2
  {
    var lo, hi := if i < j then i else j, if i < j then j else i;
    assert s == s[..lo] + [s[lo]] + s[lo + 1..hi] + [s[hi]] + s[hi + 1..];
  }

  lemma OnceInEntries(days: seq<ProjectedDay>, zone: Zone, b: Block)
    requires b in Collected(days, zone)
    ensures multiset(Entries(Airing(days), zone))[b] == 1
  {
    var entries := Entries(Airing(days), zone);
    var i := CollectedSource(days, zone, b);
    assert entries[i] == b;
    forall k | 0 <= k < |entries| && k != i ensures entries[k] != b {
      assert entries[k].id == k && b.id == i;
    }
    OnceInMultiset(entries, i);
  }

  lemma OnceInMultiset<T>(s: seq<T>, i: nat)
    requires i < |s| && forall k :: 0 <= k < |s| && k != i ==> s[k] != s[i]
    ensures multiset(s)[s[i]] == 1
  {
    var a, b := s[..i], s[i + 1..];
    assert s[i] !in a && s[i] !in b;
    assert s == a + [s[i]] + b;
    assert multiset(s) == multiset(a) + multiset{s[i]} + multiset(b);
  }

  /** The cards' counts add up to the programme videos the moved week starts in the next hours. */
  lemma NextCountsEveryVideo(days: seq<ProjectedDay>, zone: Zone, now: int, current: Option<Current>,
      nextHours: Option<int>)
    ensures TotalCount(Groups(NextOf(days, zone, now, current, nextHours)))
         == VideosOf(Moved(days, zone, now, current), FromOf(now), HorizonOf(now, nextHours))
  {
    CountsAddUp(Moved(days, zone, now, current), now, FromOf(now), HorizonOf(now, nextHours));
  }

  /** The Now card: an item whose known end is still ahead never contradicts the plan; a block card is on air now. */
  lemma NowIsOnAir(blocks: seq<Block>, now: int, current: Option<Current>)
    ensures var card := NowCard(blocks, now, current);
      && (card.ItemCard? ==> card.startsAt.At? && card.startsAt.ms <= now && (card.endsAt.At? ==> now < card.endsAt.ms)
                             && card.endsAt != NotADate)
      && (card.BlockCard? ==>
            && card.start <= now < card.end
            && exists b :: b in blocks && Window(card.start, card.end) in b.windows && b.title == card.title)
      && (card.NoCard? ==> forall b, w :: b in blocks && w in b.windows ==> !Airs(w, now))
  {
    var card := NowCard(blocks, now, current);
    if card.BlockCard? {
      var i := OnAir(blocks, now).value;
      assert blocks[i] in blocks;
    } else if card.NoCard? {
      forall b, w | b in blocks && w in b.windows ensures !Airs(w, now) {
        var j :| 0 <= j < |blocks| && blocks[j] == b;
      }
    }
  }

  // ----- which card is shown -----

  /** The item on air is shown: it has started, and its end is not known yet or still ahead. */
  predicate ShowsItem(now: int, current: Option<Current>) {
    && current.Some?
    && current.value.startsAt.At? && current.value.startsAt.ms <= now
    && (current.value.endsAt == Empty || (current.value.endsAt.At? && now < current.value.endsAt.ms))
  }

  /** Some block has an air window on now. */
  ghost predicate SomethingAirs(blocks: seq<Block>, now: int) {
    exists b, w :: b in blocks && w in b.windows && w.start <= now < w.end
  }

  /** The card is the item on air, with its own words and times, exactly when that is to be shown. */
  lemma ItemCardIff(blocks: seq<Block>, now: int, current: Option<Current>)
    ensures var card := NowCard(blocks, now, current);
      && (card.ItemCard? <==> ShowsItem(now, current))
      && (card.ItemCard? ==>
            && card.title == current.value.title && card.categoryName == current.value.categoryName
            && card.startsAt == current.value.startsAt && card.endsAt == current.value.endsAt)
      && (card.BlockCard? <==> !ShowsItem(now, current) && SomethingAirs(blocks, now))
      && (card.NoCard? <==> !ShowsItem(now, current) && !SomethingAirs(blocks, now))
  {
    NowIsOnAir(blocks, now, current);
    var card := NowCard(blocks, now, current);
    if card.BlockCard? {
      var b :| b in blocks && Window(card.start, card.end) in b.windows;
      assert SomethingAirs(blocks, now);
    }
  }

  /** A block card is that of the first block with a window on now, and of its first such window. */
  lemma BlockCardIs(blocks: seq<Block>, now: int, current: Option<Current>) returns (i: nat, j: nat)
    requires NowCard(blocks, now, current).BlockCard?
    ensures i < |blocks| && j < |blocks[i].windows|
    ensures var w := blocks[i].windows[j];
      && w.start <= now < w.end
      && NowCard(blocks, now, current) == BlockCard(blocks[i].title, blocks[i].categoryName, w.start, w.end)
    ensures forall v :: 0 <= v < j ==> !(blocks[i].windows[v].start <= now < blocks[i].windows[v].end)
    ensures forall h, w :: 0 <= h < i && w in blocks[h].windows ==> !(w.start <= now < w.end)
  {
    i := OnAir(blocks, now).value;
    j := FirstAiringAt(blocks[i].windows, now);
    forall h, w | 0 <= h < i && w in blocks[h].windows ensures !(w.start <= now < w.end) {
      assert FirstAiring(blocks[h].windows, now).None?;
      assert !Airs(w, now);
    }
  }

  /**
   * The instants the programme is built around: the whole minute, towards zero; the end of the next hours, a day
   * without a wish; and the planned end of the item on air, which is its own end unless that is empty.
   */
  lemma TimesOf(now: int, nextHours: Option<int>, current: Option<Current>, e: int)
    ensures FromOf(now) % 60_000 == 0
    ensures if now >= 0 then now - 60_000 < FromOf(now) <= now else now <= FromOf(now) < now + 60_000
    ensures HorizonOf(now, None) == now + 86_400_000
    ensures nextHours.Some? ==> HorizonOf(now, nextHours) - now == nextHours.value * 3_600_000
    ensures CurrentEnd(current) == Some(e) <==>
      && current.Some?
      && (current.value.endsAt == At(e) || (current.value.endsAt == Empty && current.value.plannedEndsAt == At(e)))
  {
    if now < 0 {
      MinuteTowardsZero(-now);
    } else {
      MinuteTowardsZero(now);
    }
  }

  lemma MinuteTowardsZero(n: nat)
    ensures (n - n % 60_000) % 60_000 == 0 && (-(n - n % 60_000)) % 60_000 == 0
  {
    var k := n / 60_000;
    assert n - n % 60_000 == 60_000 * k;
    assert (60_000 * k) % 60_000 == 0;
    assert -(60_000 * k) == 60_000 * -k;
    assert (60_000 * -k) % 60_000 == 0;
  }

  // ----- the built programme, in the projection's terms -----

  /** The week shows every block that has not aired by each of its air windows that ends after now. */
  lemma WeekShowsProjection(days: seq<ProjectedDay>, zone: Zone, now: int, d: nat, k: nat) returns (b: Block)
    requires d < |days| && k < |days[d].blocks| && !days[d].blocks[k].aired
    ensures Becomes(days[d], days[d].blocks[k], b, zone)
    ensures forall w :: w in b.windows && w.end > now ==>
      exists x :: x in Week(Collected(days, zone), now) && Tells(x, b, w)
  {
    b := AiringIsCollected(days, zone, d, k);
    forall w | w in b.windows && w.end > now
      ensures exists x :: x in Week(Collected(days, zone), now) && Tells(x, b, w)
    {
      var x := WeekEntryOf(b, w);
      assert Tells(x, b, w);
      WeekShowsEachWindowOnce(Collected(days, zone), now, x);
      ShownSomewhere(Collected(days, zone), now, x, b, w);
      assert x in multiset(Week(Collected(days, zone), now));
    }
  }

  /** And nothing else: each of its entries tells such a window of what such a block becomes. */
  lemma WeekComesFromProjection(days: seq<ProjectedDay>, zone: Zone, now: int, x: WeekEntry)
    returns (d: nat, k: nat, b: Block, w: Window)
    requires x in Week(Collected(days, zone), now)
    ensures d < |days| && k < |days[d].blocks| && Becomes(days[d], days[d].blocks[k], b, zone)
    ensures w in b.windows && w.end > now && Tells(x, b, w)
  {
    WeekShowsEachWindowOnce(Collected(days, zone), now, x);
    assert x in multiset(Week(Collected(days, zone), now));
    b, w := ShownFrom(Collected(days, zone), now, x);
    d, k := CollectedBecomes(days, zone, b);
  }
}
