/**
 * The coming week, air window by air window (`buildPublicProgramme` in apps/web/lib/public-programme.ts),
 * and its split into the days of the channel page (`buildPublicChannelView` in apps/web/lib/public-channel-view.ts).
 */
module ProgrammeWeek {
  import opened StableSort
  import opened Runs
  import opened ProgrammeBlocks
  import opened ProgrammeTimeline

  datatype WeekEntry = WeekEntry(
    key: GroupKey, title: string, categoryName: string, dated: bool, startsAt: int, endsAt: int)

  function WeekEntryOf(b: Block, w: Window): WeekEntry {
    WeekEntry(GroupKey(b.key, w.start), b.title, b.categoryName, b.dated, w.start, w.end)
  }

  function AiringsOf(b: Block, ws: seq<Window>, now: int): seq<WeekEntry> {
    if ws == [] then []
    else (if ws[0].end > now then [WeekEntryOf(b, ws[0])] else []) + AiringsOf(b, ws[1..], now)
  }

  function AllAirings(blocks: seq<Block>, now: int): seq<WeekEntry> {
    if blocks == [] then [] else AiringsOf(blocks[0], blocks[0].windows, now) + AllAirings(blocks[1..], now)
  }

  function StartsAt(e: WeekEntry): int { e.startsAt }

  function Week(blocks: seq<Block>, now: int): seq<WeekEntry> {
    Sort(AllAirings(blocks, now), StartsAt)
  }

  // ----- every air window once -----

  /** The entry tells this window of this block. */
  ghost predicate Tells(x: WeekEntry, b: Block, w: Window) {
    && x.key == GroupKey(b.key, w.start)
    && x.title == b.title && x.categoryName == b.categoryName && x.dated == b.dated
    && x.startsAt == w.start && x.endsAt == w.end
  }

  /** How many of the windows are told by `x` and end after `now`. */
  ghost function WindowsShownAs(b: Block, ws: seq<Window>, now: int, x: WeekEntry): nat {
    if ws == [] then 0
    else (if ws[0].end > now && Tells(x, b, ws[0]) then 1 else 0) + WindowsShownAs(b, ws[1..], now, x)
  }

  ghost function ShownAs(blocks: seq<Block>, now: int, x: WeekEntry): nat {
    if blocks == [] then 0 else WindowsShownAs(blocks[0], blocks[0].windows, now, x) + ShownAs(blocks[1..], now, x)
  }

  lemma {:induction false} AiringsOfOnce(b: Block, ws: seq<Window>, now: int, x: WeekEntry)
    ensures multiset(AiringsOf(b, ws, now))[x] == WindowsShownAs(b, ws, now, x)
  {
    if ws != [] {
      AiringsOfOnce(b, ws[1..], now, x);
      assert Tells(x, b, ws[0]) <==> x == WeekEntryOf(b, ws[0]);
    }
  }

  lemma {:induction false} AllAiringsOnce(blocks: seq<Block>, now: int, x: WeekEntry)
    ensures multiset(AllAirings(blocks, now))[x] == ShownAs(blocks, now, x)
  {
    if blocks != [] {
      AiringsOfOnce(blocks[0], blocks[0].windows, now, x);
      AllAiringsOnce(blocks[1..], now, x);
    }
  }

  /** The week ascends and shows each air window that ends after `now` exactly once, and nothing else. */
  lemma WeekShowsEachWindowOnce(blocks: seq<Block>, now: int, x: WeekEntry)
    ensures SortedBy(Week(blocks, now), StartsAt)
    ensures multiset(Week(blocks, now))[x] == ShownAs(blocks, now, x)
    ensures x in Week(blocks, now) ==> x.endsAt > now
  {
    SortSorted(AllAirings(blocks, now), StartsAt);
    SortContents(AllAirings(blocks, now), StartsAt);
    AllAiringsOnce(blocks, now, x);
    if x in Week(blocks, now) {
      assert x in multiset(Week(blocks, now));
      ShownEndsLater(blocks, now, x);
    }
  }

  lemma {:induction false} WindowShownEndsLater(b: Block, ws: seq<Window>, now: int, x: WeekEntry)
    requires WindowsShownAs(b, ws, now, x) > 0
    ensures x.endsAt > now
  {
    if !(ws[0].end > now && Tells(x, b, ws[0])) {
      WindowShownEndsLater(b, ws[1..], now, x);
    }
  }

  lemma {:induction false} ShownEndsLater(blocks: seq<Block>, now: int, x: WeekEntry)
    requires ShownAs(blocks, now, x) > 0
    ensures x.endsAt > now
  {
    if WindowsShownAs(blocks[0], blocks[0].windows, now, x) > 0 {
      WindowShownEndsLater(blocks[0], blocks[0].windows, now, x);
    } else {
      ShownEndsLater(blocks[1..], now, x);
    }
  }

  lemma {:induction false} WindowShown(b: Block, ws: seq<Window>, now: int, x: WeekEntry, w: Window)
    requires w in ws && w.end > now && Tells(x, b, w)
    ensures WindowsShownAs(b, ws, now, x) > 0
  {
    if ws[0] != w {
      assert ws == [ws[0]] + ws[1..];
      WindowShown(b, ws[1..], now, x, w);
    }
  }

  lemma {:induction false} ShownSomewhere(blocks: seq<Block>, now: int, x: WeekEntry, b: Block, w: Window)
    requires b in blocks && w in b.windows && w.end > now && Tells(x, b, w)
    ensures ShownAs(blocks, now, x) > 0
  {
    if blocks[0] == b {
      WindowShown(b, b.windows, now, x, w);
    } else {
      assert blocks == [blocks[0]] + blocks[1..];
      ShownSomewhere(blocks[1..], now, x, b, w);
    }
  }

  lemma {:induction false} WindowShownFrom(b: Block, ws: seq<Window>, now: int, x: WeekEntry) returns (w: Window)
    requires WindowsShownAs(b, ws, now, x) > 0
    ensures w in ws && w.end > now && Tells(x, b, w)
  {
    if ws[0].end > now && Tells(x, b, ws[0]) {
      w := ws[0];
    } else {
      w := WindowShownFrom(b, ws[1..], now, x);
    }
  }

  lemma {:induction false} ShownFrom(blocks: seq<Block>, now: int, x: WeekEntry) returns (b: Block, w: Window)
    requires ShownAs(blocks, now, x) > 0
    ensures b in blocks && w in b.windows && w.end > now && Tells(x, b, w)
  {
    if WindowsShownAs(blocks[0], blocks[0].windows, now, x) > 0 {
      b := blocks[0];
      w := WindowShownFrom(b, b.windows, now, x);
    } else {
      b, w := ShownFrom(blocks[1..], now, x);
    }
  }

  /** Moving items does not change the week: it is made of air windows alone. */
  lemma {:induction false} WeekIgnoresItems(blocks: seq<Block>, moved: seq<Block>, now: int)
    requires |moved| == |blocks|
    requires forall i :: 0 <= i < |blocks| ==> moved[i] == blocks[i].(items := moved[i].items)
    ensures AllAirings(moved, now) == AllAirings(blocks, now)
  {
    if blocks != [] {
      assert moved[1..] != moved && |moved[1..]| == |blocks[1..]|;
      WeekIgnoresItems(blocks[1..], moved[1..], now);
      SameAirings(blocks[0], moved[0], blocks[0].windows, now);
    }
  }

  lemma {:induction false} SameAirings(b: Block, c: Block, ws: seq<Window>, now: int)
    requires c == b.(items := c.items)
    ensures AiringsOf(c, ws, now) == AiringsOf(b, ws, now)
  {
    if ws != [] {
      SameAirings(b, c, ws[1..], now);
    }
  }

  // ----- the days -----

  /** `key` is the local date of the day's entries, as a day number. */
  datatype Day = Day(key: int, entries: seq<WeekEntry>)

  function SameDate(dateOf: WeekEntry -> int): (WeekEntry, WeekEntry) -> bool {
    (a: WeekEntry, b: WeekEntry) => dateOf(a) == dateOf(b)
  }

  function DayOf(run: seq<WeekEntry>, dateOf: WeekEntry -> int): Day
    requires run != []
  {
    Day(dateOf(run[0]), run)
  }

  function DaysOf(runs: seq<seq<WeekEntry>>, dateOf: WeekEntry -> int): (days: seq<Day>)
    requires forall i :: 0 <= i < |runs| ==> runs[i] != []
    ensures |days| == |runs|
  {
    seq(|runs|, i requires 0 <= i < |runs| => DayOf(runs[i], dateOf))
  }

  function Days(week: seq<WeekEntry>, dateOf: WeekEntry -> int): seq<Day> {
    DaysOf(Split(week, SameDate(dateOf)), dateOf)
  }

  /** In a run of one date the last entry has the date of the first. */
  lemma {:induction false} OneDatePerRun(run: seq<WeekEntry>, dateOf: WeekEntry -> int, i: nat)
    requires i < |run| && Chained(run, SameDate(dateOf))
    ensures dateOf(run[i]) == dateOf(run[0])
  {
    if i > 0 {
      OneDatePerRun(run, dateOf, i - 1);
      assert SameDate(dateOf)(run[i - 1], run[i]);
    }
  }

  lemma DaysOfAppend(runs: seq<seq<WeekEntry>>, run: seq<WeekEntry>, dateOf: WeekEntry -> int)
    requires run != [] && forall i :: 0 <= i < |runs| ==> runs[i] != []
    ensures DaysOf(runs + [run], dateOf) == DaysOf(runs, dateOf) + [DayOf(run, dateOf)]
  {
  }

  /** The loop's test on the last day's key is the test on the entry before. */
  lemma DaysStep(before: seq<WeekEntry>, e: WeekEntry, dateOf: WeekEntry -> int)
    ensures var days := Days(before, dateOf);
      if days != [] && days[|days| - 1].key == dateOf(e)
      then Days(before + [e], dateOf) == days[..|days| - 1]
        + [Day(days[|days| - 1].key, days[|days| - 1].entries + [e])]
      else Days(before + [e], dateOf) == days + [Day(dateOf(e), [e])]
  {
    var joins := SameDate(dateOf);
    var runs := Split(before, joins);
    assert (before + [e])[..|before|] == before;
    if before == [] {
      assert runs == [] && Split(before + [e], joins) == [[e]];
    } else {
      SplitIsMaximal(before, joins);
      LastRun(runs, before, joins);
      var init, last := runs[..|runs| - 1], runs[|runs| - 1];
      OneDatePerRun(last, dateOf, |last| - 1);
      assert runs == init + [last];
      DaysOfAppend(init, last, dateOf);
      if joins(before[|before| - 1], e) {
        assert Split(before + [e], joins) == init + [last + [e]];
        DaysOfAppend(init, last + [e], dateOf);
      } else {
        DaysOfAppend(runs, [e], dateOf);
      }
    }
  }

  lemma DaysStepAt(week: seq<WeekEntry>, i: nat, dateOf: WeekEntry -> int, days: seq<Day>)
    requires i < |week| && days == Days(week[..i], dateOf)
    ensures
      if days != [] && days[|days| - 1].key == dateOf(week[i])
      then Days(week[..i + 1], dateOf) == days[..|days| - 1]
        + [Day(days[|days| - 1].key, days[|days| - 1].entries + [week[i]])]
      else Days(week[..i + 1], dateOf) == days + [Day(dateOf(week[i]), [week[i]])]
  {
    DaysStep(week[..i], week[i], dateOf);
    assert week[..i + 1] == week[..i] + [week[i]];
  }

  method SplitIntoDays(week: seq<WeekEntry>, dateOf: WeekEntry -> int) returns (days: seq<Day>)
    ensures days == Days(week, dateOf)
  {
    days := [];
    for i := 0 to |week|
      invariant days == Days(week[..i], dateOf)
    {
      var entry := week[i];
      DaysStepAt(week, i, dateOf, days);
      var date := dateOf(entry);
      ghost var before := days;
      if days == [] || days[|days| - 1].key != date {
        days := days + [Day(date, [])];
      }
      var day := days[|days| - 1];
      days := days[..|days| - 1] + [day.(entries := day.entries + [entry])];
      if before == [] || before[|before| - 1].key != date {
        assert day.entries + [entry] == [entry];
        assert days == before + [Day(date, [entry])];
      }
    }
    assert week[..|week|] == week;
  }

  function EntriesOf(days: seq<Day>): seq<seq<WeekEntry>> {
    seq(|days|, i requires 0 <= i < |days| => days[i].entries)
  }

  /**
   * Read day by day, the page gives the week back in order; every entry stands under its own date, no day
   * is empty, and no two neighbouring days carry one date.
   */
  lemma DaysGiveTheWeekBack(week: seq<WeekEntry>, dateOf: WeekEntry -> int)
    ensures var days := Days(week, dateOf);
      && Flatten(EntriesOf(days)) == week
      && (forall d, i :: 0 <= d < |days| && 0 <= i < |days[d].entries| ==> dateOf(days[d].entries[i]) == days[d].key)
      && (forall d :: 0 <= d < |days| ==> days[d].entries != [])
      && (forall d :: 0 < d < |days| ==> days[d - 1].key != days[d].key)
  {
    var joins := SameDate(dateOf);
    var runs := Split(week, joins);
    SplitIsMaximal(week, joins);
    var days := Days(week, dateOf);
    assert EntriesOf(days) == runs;
    forall d, i | 0 <= d < |days| && 0 <= i < |days[d].entries| ensures dateOf(days[d].entries[i]) == days[d].key {
      assert IsRun(runs[d], joins);
      OneDatePerRun(runs[d], dateOf, i);
    }
    forall d | 0 < d < |days| ensures days[d - 1].key != days[d].key {
      var last := runs[d - 1];
      assert IsRun(last, joins) && Apart(runs, d, joins);
      OneDatePerRun(last, dateOf, |last| - 1);
    }
  }

  // ----- when no date heads two days -----

  /** A date that has passed does not come back. */
  ghost predicate DatesStayTogether(week: seq<WeekEntry>, dateOf: WeekEntry -> int) {
    forall i, j, k :: 0 <= i < j < k < |week| && dateOf(week[i]) == dateOf(week[k]) ==>
      dateOf(week[j]) == dateOf(week[i])
  }

  ghost predicate DistinctKeys(days: seq<Day>) {
    forall c, d :: 0 <= c < d < |days| ==> days[c].key != days[d].key
  }

  lemma SplitTogether(week: seq<WeekEntry>, dateOf: WeekEntry -> int, c: nat, d: nat)
    requires c < d < |Days(week, dateOf)| && Days(week, dateOf)[c].key == Days(week, dateOf)[d].key
    ensures !DatesStayTogether(week, dateOf)
  {
    var runs := Split(week, SameDate(dateOf));
    var days := Days(week, dateOf);
    DaysGiveTheWeekBack(week, dateOf);
    SplitIsMaximal(week, SameDate(dateOf));
    assert days[c].key != days[c + 1].key;
    PartAt(runs, c, 0);
    PartAt(runs, c + 1, 0);
    PartAt(runs, d, 0);
    OffsetMonotone(runs, c, c + 1);
    OffsetMonotone(runs, c + 1, d);
    var i, j, k := Offset(runs, c), Offset(runs, c + 1), Offset(runs, d);
    assert dateOf(week[i]) == days[c].key && dateOf(week[j]) == days[c + 1].key && dateOf(week[k]) == days[d].key;
    assert i < j < k;
  }

  lemma DateOfPosition(week: seq<WeekEntry>, dateOf: WeekEntry -> int, i: nat) returns (d: nat)
    requires i < |week|
    ensures var runs := Split(week, SameDate(dateOf));
      && d < |Days(week, dateOf)| == |runs| && Days(week, dateOf)[d].key == dateOf(week[i])
      && Offset(runs, d) <= i < Offset(runs, d) + |runs[d]|
  {
    var runs := Split(week, SameDate(dateOf));
    SplitIsMaximal(week, SameDate(dateOf));
    OffsetFlatten(runs, |runs|);
    assert runs[..|runs|] == runs;
    d := Locate(runs, i, |runs|);
    PartAt(runs, d, i - Offset(runs, d));
    assert IsRun(runs[d], SameDate(dateOf));
    OneDatePerRun(runs[d], dateOf, i - Offset(runs, d));
  }

  /** No date heads two days exactly when the week's dates stay together. */
  lemma NoDateTwiceIff(week: seq<WeekEntry>, dateOf: WeekEntry -> int)
    ensures DistinctKeys(Days(week, dateOf)) <==> DatesStayTogether(week, dateOf)
  {
    var runs := Split(week, SameDate(dateOf));
    var days := Days(week, dateOf);
    forall c, d | 0 <= c < d < |days| && days[c].key == days[d].key ensures !DatesStayTogether(week, dateOf) {
      SplitTogether(week, dateOf, c, d);
    }
    forall i, j, k | 0 <= i < j < k < |week| && dateOf(week[i]) == dateOf(week[k]) && dateOf(week[j]) != dateOf(week[i])
      ensures !DistinctKeys(days)
    {
      var p := DateOfPosition(week, dateOf, i);
      var q := DateOfPosition(week, dateOf, j);
      var r := DateOfPosition(week, dateOf, k);
      if q < p { OffsetMonotone(runs, q, p); }
      if r < q { OffsetMonotone(runs, r, q); }
      assert p < q < r;
      assert days[p].key == days[r].key;
    }
  }

  /** In particular when the local dates never go backwards along the week. */
  lemma NoDateTwiceForward(week: seq<WeekEntry>, dateOf: WeekEntry -> int)
    requires forall i, j :: 0 <= i < j < |week| ==> dateOf(week[i]) <= dateOf(week[j])
    ensures DistinctKeys(Days(week, dateOf))
  {
    NoDateTwiceIff(week, dateOf);
  }
}
