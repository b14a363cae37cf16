# Stream247: a verified model of its programme, calendar, overlay and playout logic

A Dafny 4.11 model of the parts of Stream247 that carry their own algorithms or protocols, with proofs of
what they promise. `dafny verify dfyconfig.toml` checks all of it.

| area | files |
|---|---|
| Public programme: blocks of the projected week, the shift by the item on air, the timeline, its cards, the week and its days | `ProgrammeBlocks`, `OnAirShift`, `ProgrammeTimeline`, `ProgrammeGroups`, `ProgrammeWeek`, `PublicProgramme` |
| The video bar of one block | `VideoTimeline` |
| Calendar feed: TEXT escaping, folding, the feed, and a reader of it | `CalendarText`, `CalendarFold`, `CalendarFeed`, `CalendarReader` |
| Overlay placement: snapping, resizing, overlap, committing, arrow keys | `PlacementSnap`, `PlacementOverlaps`, `PlacementCommit` |
| As-run log: records, the write queue over its store, the watch on the child process | `AsRunRecords`, `AsRunLog`, `AsRunWatch` |
| The preview's request protocol | `RenderPreview` |
| The first-programme step and its retries | `FirstProgramme` |
| Active chatters, alert and chat-game limiters | `ChatterRoster`, `Limiters` |
| Shared: the stable sort, maximal runs, options | `StableSort`, `Runs`, `Wrappers` |

## How it is modelled

- Instants are whole milliseconds, the bar's times whole seconds; lengths and percents are real numbers, and
  rounding to the nearest (halves up) is `Floor(x + 0.5)`.
- The wall-clock functions of the time zone, the local date of an instant, the normal form of a chat login,
  the localised words of the calendar, the safe area and the scale, and every answer of a server, a database
  or a clock are parameters: the results hold for all of them.
- Library sorting is the stable ascending order, defined once and pinned down by
  `StableSort.SortIsTheStableOrder`.
- A loop of the source is a loop here, proved equal to a recursive function; the properties are proved of that
  function. Objects with methods are classes whose methods are proved against one step function, and the
  results about whole histories are inductions over that step function.
- A block of the programme is a value with an identity (`id`), where the source compares object references.
- Retrying and failing are explicit: a builder that throws, a write that fails and a request that gets no
  response are values a caller can pass.

## Where the code and its own words differ

The model follows the code. Each of these has its exact condition in the table below.

- `nudge` says eight arrow keys equal one Shift key. They differ by up to four thousandths of a percent,
  unless the rounded steps agree or both end at the same edge (`PlacementCommit.EightKeysAgainstShift`,
  `PlacementCommit.EightKeysCanFallShort`).
- `commitPlacement` says position plus size stays at 100 or below. It is 100.001 exactly when the size lies
  half-way between two thousandths and the box is at the edge (`PlacementCommit.LeavesFrameIff`); a drag can do
  it (`PlacementCommit.DragLeavesFrameIff`, `PlacementCommit.CommitCanLeaveFrame`).
- Snapping a moved or a resized panel to a neighbour is said to leave the two flush. The lines offered are rounded to hundredths, so
  they overlap, by what was rounded off and at most 0.005 design pixels, exactly when the edge was rounded
  towards the box: up for a neighbour's left or top edge, down for its right or bottom edge
  (`PlacementSnap.FlushIff`, `PlacementSnap.ResizeFlushIff`,
  `PlacementSnap.SnappedPanelsCanOverlap`, `PlacementSnap.ResizedPanelCanOverlap`).
- The first-programme step says a pool from an earlier press is used again. The server writes the pool before
  it answers, so a response that is lost, fails or cannot be read behind the write leaves a pool the form never
  learns of, and a lost template answer (none at all, or a refusal whose body is the value null) makes the form
  forget the one it was told of. A wish pressed again reuses a pool exactly when one was at hand before, or the
  first press got both its pool's id and a template answer that is not lost (`FirstProgramme.ReusedIff`, `FirstProgramme.PoolsAtMostOnePerWish`,
  `FirstProgramme.LostPoolAnswerCostsAPool`, `FirstProgramme.FailedPoolAnswerCostsAPool`,
  `FirstProgramme.LostTemplateCostsAPool`).
- `countActive` is said to count the chatters of the window. A count under a narrower window, or by a clock
  ahead, forgets logins that a later one would count; it is exact precisely when that happened to nobody in the
  window (`ChatterRoster.CountIsExactIff`, `ChatterRoster.WidenedWindowUndercounts`).
- The as-run table is said never to show a negative run nor two runs at once. When the clock steps back it can:
  a run is negative exactly when its exit is written to the open row at an instant before its start, and two
  overlap exactly when a start is written under a row that runs past it. Closing open rows, which has a clamp for
  it, does neither (`AsRunLog.NegativeIff`, `AsRunLog.NeverNegativeIff`, `AsRunLog.ClockBackGivesNegativeRun`,
  `AsRunLog.OverlapIff`, `AsRunLog.NeverOverlapIff`, `AsRunLog.ClockBackGivesOverlap`).
- A failed spawn's row is completed once unless two errors arrive and the first was read off a clock at zero,
  which the watch takes for "not ended yet" (`AsRunWatch.CompletedOnceIff`).
- The video bar puts every video at its real time exactly when no visible video overlaps a later one
  (`VideoTimeline.AtRealTimeIff`); two without a start second do (`VideoTimeline.ItemsWithoutStartMiss`).

## Model

| member | source | states |
|---|---|---|
| `StableSort.SortIsTheStableOrder` | apps/web/lib/public-programme.ts:146 | A sequence is the sort's result exactly when it is ascending, as long, and keeps the input order within each key. |
| `StableSort.SortContents` | apps/web/lib/public-programme.ts:146 | Sorting loses and duplicates nothing. |
| `Runs.SplitCharacterised` | apps/web/lib/public-programme.ts:220-245 | Grouping neighbours yields exactly the maximal runs: non-empty, chained, concatenating to the sequence, no two mergeable; there is only one such cut. |
| `ProgrammeBlocks.CollectBlocks` | apps/web/lib/public-programme.ts:99-147 | The nested loops collect the blocks still to air, in projection order, then sort them by their first window; the rows below say what those blocks are. |
| `ProgrammeBlocks.MaxEnd` | apps/web/lib/public-programme.ts:121 | The latest end of a block's windows: an upper bound that some window reaches. |
| `ProgrammeBlocks.CollectedSource` | apps/web/lib/public-programme.ts:101-144 | Every collected block is built from one block of the projection that has not aired. |
| `ProgrammeBlocks.CollectedBecomes` | apps/web/lib/public-programme.ts:99-147 | Every collected block is what a block of the projection that has not aired becomes: one window for each of its air windows, in order, or one for its planned time, each from the zone's start instant of its start to the end instant of its end on its own date or the day's; its words, pool and flags; and its items. |
| `ProgrammeBlocks.AiringIsCollected` | apps/web/lib/public-programme.ts:99-147 | Every block of the projection that has not aired becomes a collected one. |
| `ProgrammeBlocks.CollectedCount` | apps/web/lib/public-programme.ts:101-147 | There are as many collected blocks as blocks that have not aired, by the start of their first window. |
| `ProgrammeBlocks.ItemsAtTheirSeconds` | apps/web/lib/public-programme.ts:116-127 | Where the zone's clock runs evenly through the date, every collected item airs from its start second to its end second of that date. |
| `ProgrammeBlocks.BlockItems` | apps/web/lib/public-programme.ts:116-132 | A block's items are exactly the timed items at their elapsed time behind its first window that start before its last window ends. |
| `ProgrammeBlocks.CollectedStartBeforeEnd` | apps/web/lib/public-programme.ts:130-132 | For any projection and any zone, a collected item starts before its block's last window ends. |
| `ProgrammeBlocks.CollectedInOrder` | apps/web/lib/public-programme.ts:116-132 | Items that follow one another in elapsed seconds follow one another as instants, after both filters. |
| `OnAirShift.MovedBlockKeepsOrder` | apps/web/lib/public-programme.ts:173-192 | After the item on air moves its block, the items are still in order and disjoint; outside the window nothing changes, inside it a prefix is moved and a suffix dropped; moved items start behind the item on air and inside the window. |
| `OnAirShift.MovedItemsKeepSpacing` | apps/web/lib/public-programme.ts:184-191 | Moved items keep their start-to-start spacing; they keep their length where the block may overrun and end with the window elsewhere. |
| `OnAirShift.OrderNeedsTheItemFilter` | apps/web/lib/public-programme.ts:130-132 | Without the filter on items that start after the block, an overrunning item would overlap a later one. |
| `OnAirShift.AfterShiftTouchesOneBlock` | apps/web/lib/public-programme.ts:180 | Only the block on air changes, and of it only the items. |
| `OnAirShift.NothingMoves` | apps/web/lib/public-programme.ts:170 | Without a known end ahead, or without a block on air, nothing changes. |
| `OnAirShift.OnAirBlockMoves` | apps/web/lib/public-programme.ts:170-193 | In the first window on now of the block on air, the items move by as much as the first of them has to wait for the item on air; those that would start at or after the window's end are gone, the others keep title and length, cut where another block takes the air; all other items stay. |
| `OnAirShift.AfterShiftKeepsOrder` | apps/web/lib/public-programme.ts:170-193 | Every block of the week still plays its items in order, whatever is on air. |
| `OnAirShift.AfterShiftBehindCurrent` | apps/web/lib/public-programme.ts:173-192 | An item of the block on air starts before the current minute, behind the item on air, or after the window on now. |
| `ProgrammeTimeline.GroupTimeline` | apps/web/lib/public-programme.ts:212-245 | The loop with its carried block and group computes the summaries of the timeline's maximal runs. |
| `ProgrammeGroups.GroupsAreMaximalRuns` | apps/web/lib/public-programme.ts:216-245 | Any cut of the timeline into maximal runs gives these cards. |
| `ProgrammeGroups.OneProgrammePerGroup` | apps/web/lib/public-programme.ts:216-219 | All entries of a card's run have its title and one pool, and a run of several holds items only. |
| `ProgrammeGroups.AllItemsCounted` | apps/web/lib/public-programme.ts:225-232 | A card counts all its items and lists the first twenty-five of them, in order, with their own times. |
| `ProgrammeGroups.CardHead` | apps/web/lib/public-programme.ts:234-244 | A card's key, words and times are those of its first entry and its block. |
| `ProgrammeGroups.NeighbouringGroupsDiffer` | apps/web/lib/public-programme.ts:216-225 | Neighbouring cards with items differ in title or pool, or there is a break between them. |
| `ProgrammeGroups.RunsOnWithoutBreak` | apps/web/lib/public-programme.ts:216-225 | Two entries that follow one another on a card are items of one block, or of two with one title and one pool and no break between them. |
| `ProgrammeGroups.WindowStandsAlone` | apps/web/lib/public-programme.ts:207-210 | A window of a block with nothing to play is a card of its own, counting and listing nothing. |
| `ProgrammeGroups.CardsInAiringOrder` | apps/web/lib/public-programme.ts:211-245 | Cards are in airing order, and each opens with its earliest entry. |
| `ProgrammeGroups.CountsAddUp` | apps/web/lib/public-programme.ts:197-245 | The cards' counts add up to the non-insert items of the playable blocks that start in the horizon. |
| `ProgrammeGroups.TimelineMembers` | apps/web/lib/public-programme.ts:197-211 | The timeline ascends and holds exactly the listed items of playable blocks and the coming windows of the others. |
| `ProgrammeWeek.WeekShowsEachWindowOnce` | apps/web/lib/public-programme.ts:247-258 | The week ascends and shows each air window that ends after now exactly once, with its block's key, words and times, and nothing else. |
| `ProgrammeWeek.WeekIgnoresItems` | apps/web/lib/public-programme.ts:247-258 | Moving items does not change the week. |
| `ProgrammeWeek.SplitIntoDays` | apps/web/lib/public-channel-view.ts:249-267 | The loop splits the week into its runs of one local date. |
| `ProgrammeWeek.DaysGiveTheWeekBack` | apps/web/lib/public-channel-view.ts:249-267 | Day by day the page gives the week back in order; every entry stands under its date, no day is empty, neighbouring days differ. |
| `ProgrammeWeek.NoDateTwiceIff` | apps/web/lib/public-channel-view.ts:253-257 | No date heads two days exactly when no date comes back after another. |
| `ProgrammeWeek.NoDateTwiceForward` | apps/web/lib/public-channel-view.ts:253-257 | In particular when local dates never go backwards. |
| `PublicProgramme.BuildPublicProgramme` | apps/web/lib/public-programme.ts:159-272 | The now card, the cards of the next hours and the week, all from the collected blocks and the item on air. |
| `PublicProgramme.MovedInOrder` | apps/web/lib/public-programme.ts:169-193 | From the projection to the moved week, every block's items stay one after another. |
| `PublicProgramme.NextStartsBehindTheItemOnAir` | apps/web/lib/public-programme.ts:152-157 | A listed item of the block on air starts when the item on air has ended, or after the window on now. |
| `PublicProgramme.ItemsOfOneBlockNeverOverlap` | apps/web/lib/public-programme.ts:170-211 | Two items of one block on the timeline never overlap. |
| `PublicProgramme.CardsAreOneProgramme` | apps/web/lib/public-programme.ts:214-245 | Each card of the built programme is one title from one pool; it counts all its items and lists the first twenty-five, or is a single window and does neither. |
| `PublicProgramme.NextCountsEveryVideo` | apps/web/lib/public-programme.ts:197-245 | The built cards count every programme video of the next hours once. |
| `PublicProgramme.NowIsOnAir` | apps/web/lib/public-programme.ts:260-269 | An item card has started and, if its end is known, not ended; a block card is a window on now; no card means nothing is on. |
| `PublicProgramme.ItemCardIff` | apps/web/lib/public-programme.ts:260-271 | The item on air is shown, with its own words and times, exactly when it has started and its end is unknown or ahead; otherwise a block card exactly when some window is on now, and no card exactly when none is. |
| `PublicProgramme.BlockCardIs` | apps/web/lib/public-programme.ts:264-269 | A block card is that of the first block with a window on now, with its words and its first such window. |
| `PublicProgramme.TimesOf` | apps/web/lib/public-programme.ts:166-172 | The programme is built from the whole minute, to the wished hours or a day ahead, and around the item's own end or else its planned one. |
| `PublicProgramme.WeekShowsProjection` | apps/web/lib/public-programme.ts:247-258 | Every air window of every block that has not aired is in the week if it ends after now, with the block's words. |
| `PublicProgramme.WeekComesFromProjection` | apps/web/lib/public-programme.ts:247-258 | Every entry of the week is such a window. |
| `VideoTimeline.BuildSegments` | apps/web/lib/schedule-video-timeline.ts:20-50 | The loop with its carried end draws one segment for each item that airs within the block, in order: its words, the seconds of its part in the block, and its width and gap as their share of the block's length. |
| `VideoTimeline.AtRealTimeIff` | apps/web/lib/schedule-video-timeline.ts:26-49 | Gaps and widths before a segment plus its own gap equal its start offset, for all segments, exactly when no visible item overlaps a later one. |
| `VideoTimeline.ItemsWithoutStartMiss` | apps/web/lib/schedule-video-timeline.ts:27-28 | Two items without a start second are drawn one behind the other, the second not at its offset. |
| `VideoTimeline.BarFitsIff` | apps/web/lib/schedule-video-timeline.ts:36-43 | The bar is at most 100 percent exactly when what it covers and what it draws twice fit the block. |
| `VideoTimeline.OrderedBlockIsTrueToTime` | apps/web/lib/schedule-video-timeline.ts:20-50 | For items in order every video stands at its real time and the bar fits. |
| `CalendarText.EscapeTextIsOnePass` | apps/web/lib/public-programme-calendar.ts:10-12 | The four successive replacements equal one replacement per character of the text with normalised line breaks. |
| `CalendarText.TextRoundTrip` | apps/web/lib/public-programme-calendar.ts:10-12 | Unescaping (section 3.3.11 of RFC 5545) gives the text back with its line breaks as LF. |
| `CalendarText.PrintedAlikeIff` | apps/web/lib/public-programme-calendar.ts:10-12 | Two texts are printed alike exactly when they differ only in how they break lines. |
| `CalendarText.PrintedValueIsOne` | apps/web/lib/public-programme-calendar.ts:10-12 | A printed value holds no CR or LF and no separator outside an escape. |
| `CalendarFold.FoldLine` | apps/web/lib/public-programme-calendar.ts:15-33 | The loop over characters computes the greedy folding. |
| `CalendarFold.FoldedFits` | apps/web/lib/public-programme-calendar.ts:15-33 | The parts concatenate to the line, cut between characters, and every physical line with its leading space has at most 75 octets. |
| `CalendarFold.FoldedIsShortest` | apps/web/lib/public-programme-calendar.ts:20-30 | No folding on character boundaries within that bound has fewer lines. |
| `CalendarFold.GreedyIsFolded` | apps/web/lib/public-programme-calendar.ts:20-30 | It is the only folding none of whose lines could take one more character. |
| `CalendarFeed.FormatUtcIs` | apps/web/lib/public-programme-calendar.ts:35-38 | An instant is printed in the UTC form, without its milliseconds. |
| `CalendarFeed.SafeKey` | apps/web/lib/public-programme-calendar.ts:69 | A UID holds safe characters only, one for each UTF-16 unit of the key, and a safe key is printed as it is. |
| `CalendarFeed.SafeKeyAt` | apps/web/lib/public-programme-calendar.ts:69 | At its place in UTF-16 units a safe character of the key stands itself, any other as dashes. |
| `CalendarFeed.BuildProgrammeCalendar` | apps/web/lib/public-programme-calendar.ts:40-82 | The feed is the folded lines of head, events and tail, each closed by CRLF; what a reader finds in it is in the rows on the reader. |
| `CalendarFeed.LinesRoundTrip` | apps/web/lib/public-programme-calendar.ts:81 | Cutting at CRLF and unfolding gives back any printable lines. |
| `CalendarReader.CalendarLinesPrintable` | apps/web/lib/public-programme-calendar.ts:49-80 | No built line is empty, holds a CR or LF, or opens with a space or tab. |
| `CalendarReader.ReadEvent` | apps/web/lib/public-programme-calendar.ts:67-78 | The lines of an entry are read as that entry's event. |
| `CalendarReader.FeedReadsBack` | apps/web/lib/public-programme-calendar.ts:40-82 | A reader of the feed finds exactly the built lines, and one event per entry, in order, with its texts and its times. |
| `CalendarReader.FeedTellsEntries` | apps/web/lib/public-programme-calendar.ts:62-79 | A reader finds one event per entry that tells its key, title, category and times; it has a description exactly when the entry is dated and there is a word for it, or its category is not empty and not its title, and that is the word, the category, or both with a middle dot. |
| `CalendarReader.FeedTellsCalendar` | apps/web/lib/public-programme-calendar.ts:55-56 | A reader finds the calendar's name and zone. |
| `CalendarReader.FeedFits` | apps/web/lib/public-programme-calendar.ts:14-33 | No physical line of the whole feed is over 75 octets. |
| `PlacementSnap.SnapCoordinate` | apps/web/lib/overlay-placement-drag.ts:81-101 | The loop finds the last of the nearest targets within the threshold, or the grid. |
| `PlacementSnap.Nearest` | apps/web/lib/overlay-placement-drag.ts:86-94 | What it finds is a target within the threshold, and none is nearer. |
| `PlacementSnap.SnapMovedBox` | apps/web/lib/overlay-placement-drag.ts:110-153 | A move keeps the size and snaps each axis on its own. |
| `PlacementSnap.MovedAxis` | apps/web/lib/overlay-placement-drag.ts:115-141 | At most 6; with a target in reach one of the box's lines lies exactly on the guide and no pairing would have moved it less; otherwise the start lies on the nearest multiple of 8. |
| `PlacementSnap.FreeAxis` | apps/web/lib/overlay-placement-drag.ts:81-84 | With the modifier key nothing moves and no guide is reported. |
| `PlacementSnap.SnapResizedBox` | apps/web/lib/overlay-placement-drag.ts:163-217 | The held edge lies on its guide and the opposite edge stays exactly while the length is not below 8; with an aspect the shape holds exactly while the height it asks for is not below 8. |
| `PlacementSnap.IntersectIsShared` | apps/web/lib/overlay-placement-drag.ts:227-238 | A point lies in the shared rectangle exactly when it lies in both half-open boxes. |
| `PlacementSnap.IntersectIff` | apps/web/lib/overlay-placement-drag.ts:227-238 | There is a shared rectangle exactly when a point is shared, and the order of the boxes does not matter. |
| `PlacementSnap.PlacementSnapTargets` | apps/web/lib/overlay-placement-drag.ts:58-72 | On each axis the targets are exactly the start, middle and end of the frame, of the safe area and of every neighbour, in hundredths, each once. |
| `PlacementSnap.NeighbourOffered` | apps/web/lib/overlay-placement-drag.ts:46-72 | Every edge and middle of every neighbour is among the targets, in hundredths, and no target is offered twice. |
| `PlacementSnap.HundredthsIs` | apps/web/lib/overlay-placement-drag.ts:46-48 | A line is offered as the nearest whole hundredth, the higher of two. |
| `PlacementSnap.FlushIff` | apps/web/lib/overlay-placement-drag.ts:46-48 | On each axis: pulled onto a neighbour's near edge, the moved box overlaps it exactly when that edge was rounded towards it (up for a left or top edge, down for a right or bottom one), by just what was rounded, at most 0.005. |
| `PlacementSnap.ResizeFlushIff` | apps/web/lib/overlay-placement-drag.ts:163-217 | The same for a resize: a held edge on a neighbour's edge overlaps it exactly by what was rounded towards the box, on both axes, unless the least size pushed it on. |
| `PlacementSnap.NearestPairWins` | apps/web/lib/overlay-placement-drag.ts:110-153 | If one line of the box and one target are in reach and nearer than any other pair, that line comes to lie on that target and the target is the guide. |
| `PlacementSnap.SnappedPanelsCanOverlap` | apps/web/lib/overlay-placement-drag.ts:46-72 | On a frame of 854 by 480 a panel of 89 by 89 output pixels dragged to the left edge of another comes to overlap it, and so does one dragged to its right edge. |
| `PlacementSnap.ResizedPanelCanOverlap` | apps/web/lib/overlay-placement-drag.ts:163-217 | So does a panel whose right edge is dragged to that left edge. |
| `PlacementOverlaps.CollectBoxes` | apps/web/lib/overlay-publish-review.ts:166-182 | A box for each placed panel and then one for each layer that is switched on, in their order and under their names. |
| `PlacementOverlaps.FindOverlaps` | apps/web/lib/overlay-publish-review.ts:184-198 | The nested loops name exactly the pairs that share a point, with their rectangle, in loop order. |
| `PlacementOverlaps.ReviewNamesPairOnce` | apps/web/lib/overlay-publish-review.ts:184-198 | An unordered pair is named exactly when it shares a point, and only once. |
| `PlacementOverlaps.DescribeOverlaps` | apps/web/components/overlay-placement-canvas.tsx:135-148 | The message of a drag names, in target order and each once, the other targets that share a point with the box, with the shared rectangle. |
| `PlacementOverlaps.NamesTargetOnce` | apps/web/components/overlay-placement-canvas.tsx:135-148 | A target is named exactly when it is another one that shares a point with the box, and at one place only. |
| `PlacementCommit.PlacementDraft.CommitPlacement` | apps/web/components/overlay-settings-form.tsx:612-642 | A commit changes only the placement it names and raises the revision by one. |
| `PlacementCommit.CommitInRange` | apps/web/components/overlay-settings-form.tsx:619-633 | Width in 10..100, height in 8..100, positions at least 0, far edges at most 100, or 100.001 off the grid. |
| `PlacementCommit.CommitKeeps` | apps/web/components/overlay-settings-form.tsx:619-633 | Sizes are cut to their limits and positions to the room the size leaves, each to within half a thousandth. |
| `PlacementCommit.LeavesFrameIff` | apps/web/components/overlay-settings-form.tsx:619-633 | Position plus size exceeds 100 exactly when the size is half-way between thousandths and the clamp puts the box at the edge. |
| `PlacementCommit.DraggedIs` | packages/core/src/overlay-layout.ts:1250-1274 | The inverse hands a box on unchanged exactly when it lies in the frame and is not below the least size; it keeps the near corner and cuts the size to the frame. |
| `PlacementCommit.DragLeavesFrameIff` | packages/core/src/overlay-layout.ts:1250-1274 | What a drag commits leaves the frame exactly when the box, cut to the frame by the renderer's inverse, reaches the edge precisely and its size lies half-way between thousandths. |
| `PlacementCommit.CommitCanLeaveFrame` | apps/web/components/overlay-settings-form.tsx:619-633 | A box of width 10.0005 dragged to 89.9995, which the drag hands on as it is, is committed with its right edge at 100.001. |
| `PlacementCommit.NudgeIsWholeStep` | apps/web/components/overlay-placement-canvas.tsx:234-256 | From a stored position a key moves the box by the rounded step, up to the frame's edge. |
| `PlacementCommit.DeltaIsPixels` | apps/web/components/overlay-placement-canvas.tsx:248-253 | A key's percentage of the safe area is its step in design pixels at the frame's scale. |
| `PlacementCommit.NudgeKeepsSize` | apps/web/components/overlay-placement-canvas.tsx:250-255 | A key moves a stored box on each axis and never resizes it. |
| `PlacementCommit.NudgesAddUp` | apps/web/components/overlay-placement-canvas.tsx:222-233 | After any number of keys in one direction the box stands that many rounded steps away, or at the edge. |
| `PlacementCommit.EightKeysAgainstShift` | apps/web/components/overlay-placement-canvas.tsx:222-256 | Eight keys and one Shift key end at most 0.004 apart, the edge included, and agree exactly when the rounded steps agree or both reach the same edge. |
| `PlacementCommit.EightKeysCanFallShort` | apps/web/components/overlay-placement-canvas.tsx:222-233 | At 1920 by 1080 inside the safe area they end at 20.448 and 20.450. |
| `AsRunRecords.FailedIff` | apps/worker/src/as-run.ts:123-153 | A run reads as failed exactly when nobody asked it to stop, it met no boundary and it did not exit cleanly; as skipped exactly for a skip that came as a restart or a switch. |
| `AsRunRecords.UnplannedReason` | apps/worker/src/as-run.ts:138-141 | A run nobody asked to stop reads as natural end exactly at a boundary; else as stopped when it exited cleanly and as failed when not. |
| `AsRunRecords.RestartReason` | apps/worker/src/as-run.ts:142-148 | When a run reads as the operator's restart and when as a switch. |
| `AsRunRecords.PlannedReasons` | apps/worker/src/as-run.ts:123-131 | Each planned stop reads as its own reason, and nothing else does. |
| `AsRunRecords.StoppedIff` | apps/worker/src/as-run.ts:138-151 | A run reads as stopped exactly after a clean exit nobody asked for, or a stop for a reason without a meaning of its own. |
| `AsRunRecords.EndIs` | apps/worker/src/as-run.ts:203-223 | A built end has the exit's instant, its code or else its signal as text, the aired seconds to half a second, and fails exactly after an unasked unclean exit. |
| `AsRunRecords.SpawnFailedEndIs` | apps/worker/src/as-run.ts:225-236 | A failed spawn failed at its instant, aired nothing, and tells its error code or that it was the spawn. |
| `AsRunLog.AsRunStore.Perform` | apps/worker/src/as-run.ts:289-296 | A write takes effect as a whole or not at all. |
| `AsRunLog.AsRunLog.Boot` | apps/worker/src/as-run.ts:332-334 | Puts the closing of open rows on the chain. |
| `AsRunLog.AsRunLog.Start` | apps/worker/src/as-run.ts:335-345 | Puts the start on the chain and returns its id, or "" when it cannot be built. |
| `AsRunLog.AsRunLog.End` | apps/worker/src/as-run.ts:346-358 | Puts the end on the chain, or nothing without an id or when it cannot be built. |
| `AsRunLog.AsRunLog.TryNext` | apps/worker/src/as-run.ts:315-329 | The chain tries its next write and goes on, logging a failure. |
| `AsRunLog.TriedInCallOrder` | apps/worker/src/as-run.ts:308-329 | At any moment, what was tried followed by what waits is what the calls queued, in call order. |
| `AsRunLog.EndNeverBeforeStart` | apps/worker/src/as-run.ts:308-314 | A run's end is never tried before its start. |
| `AsRunLog.NeverTwoOnAir` | apps/worker/src/as-run.ts:289-296 | At most one row is open after any calls, tries and failures. |
| `AsRunLog.BootClosesEverything` | apps/worker/src/as-run.ts:294-295 | A boot that is written leaves no row open, and closes none before its start. |
| `AsRunLog.BootCloses` | packages/db/src/index.ts:10152-10181 | A written boot changes exactly the open rows: closed as gone, at the boot or at their later start, with the seconds between. |
| `AsRunLog.StartWrites` | packages/db/src/index.ts:10189-10223 | A written start leaves the new run as the only open row, closes the others at it, and keeps exactly those that started within ninety days. |
| `AsRunLog.EndWrites` | packages/db/src/index.ts:10230-10241 | A written end completes its row if that is open, and changes nothing else. |
| `AsRunLog.BootReachesTable` | apps/worker/src/as-run.ts:315-334 | Whatever waits before it and becomes of that, once the chain has written a boot no row is on air. |
| `AsRunLog.FirstClosingStays` | packages/db/src/index.ts:10225-10241 | A closed row keeps its first closing for as long as it is kept. |
| `AsRunLog.NegativeIff` | packages/db/src/index.ts:10152-10176 | On any clock, closing what is open never makes a negative run; a write makes one exactly when it completes an open row before its start. |
| `AsRunLog.NeverNegativeIff` | packages/db/src/index.ts:10152-10241 | Over any run, the table is without a negative run at every moment exactly when no such end is written. |
| `AsRunLog.NeverNegative` | packages/db/src/index.ts:10152-10241 | In terms of the calls: while every end is read at or after the start of its run, no run is negative, whatever boots, later starts and failures do. |
| `AsRunLog.ClockBackGivesNegativeRun` | packages/db/src/index.ts:10230-10241 | A start at 100 and its exit at 50, both written, leave a row that ends before it starts. |
| `AsRunLog.OverlapIff` | packages/db/src/index.ts:10152-10223 | On any clock, neither a boot nor an exit makes two rows overlap; a start does exactly when a row that is kept runs past it. |
| `AsRunLog.NeverOverlapIff` | packages/db/src/index.ts:10152-10223 | Over any run, no two rows overlap at any moment exactly when no start is written under a row that runs past it. |
| `AsRunLog.ClockBackGivesOverlap` | packages/db/src/index.ts:10189-10223 | A run from 100 to 200 and a start at 150, all written, overlap. |
| `AsRunLog.RunsNeverOverlap` | packages/db/src/index.ts:10182-10223 | On a clock that does not go back, no two rows are on air at one time, whatever fails. |
| `AsRunWatch.AsRunWatch.OnExit` | apps/worker/src/as-run.ts:262-275 | An exit sets the end instant and queues one completion, unless its context throws. |
| `AsRunWatch.AsRunWatch.OnError` | apps/worker/src/as-run.ts:276-285 | An error completes the row only of a child without a pid that has not ended. |
| `AsRunWatch.RunningChild` | apps/worker/src/as-run.ts:249-287 | For a child that runs: nothing before its exit, its exit's completion after, errors ignored throughout. |
| `AsRunWatch.FailedSpawn` | apps/worker/src/as-run.ts:276-285 | For a failed spawn: its first error's completion, which blocks later ones if its instant is not zero. |
| `AsRunWatch.CompletedOnceIff` | apps/worker/src/as-run.ts:240-287 | Exactly one completion is asked for, with the exact condition for both kinds of child. |
| `AsRunWatch.OneWriteIff` | apps/worker/src/as-run.ts:249-287 | Over all events of a child: without an id nothing is queued; with one, exactly one end of that row exactly when the child has exited with a context that did not throw, or its spawn failed and no second error followed a clock at zero. |
| `AsRunWatch.RowAgreesWithExit` | apps/worker/src/as-run.ts:203-236 | The row ends at the watch's instant, and its aired seconds agree to half a second. |
| `RenderPreview.OverlayRenderPreview.RunEffect` | apps/web/components/overlay-render-preview.tsx:44-56 | A new effect cleans up the last one, takes the next number and waits out the beat it is due. |
| `RenderPreview.OverlayRenderPreview.OnAnswer` | apps/web/components/overlay-render-preview.tsx:74-91 | An answer settles its request, and shows only if that is the newest. |
| `RenderPreview.OverlayRenderPreview.OnFailure` | apps/web/components/overlay-render-preview.tsx:81-91 | A failure shows only if its request is the newest and was not aborted. |
| `RenderPreview.ScreenIsNewest` | apps/web/components/overlay-render-preview.tsx:44-100 | While mounted, pending is false exactly when the newest request has settled, and the screen then shows what it brought. |
| `RenderPreview.AnswerShows` | apps/web/components/overlay-render-preview.tsx:44-100 | After any events, an effect whose timer fires and whose request is answered, with other requests' events in between, shows that picture under its number, without an error and no longer pending, until the next effect. |
| `RenderPreview.FailureShows` | apps/web/components/overlay-render-preview.tsx:44-100 | One that fails shows its message beside the picture from before, no longer pending. |
| `RenderPreview.LateTimerStartsNothing` | apps/web/components/overlay-render-preview.tsx:92-100 | A timer that fires for a superseded request, or after the preview has left, starts nothing. |
| `RenderPreview.OnlyNewestChanges` | apps/web/components/overlay-render-preview.tsx:75-90 | Only the newest request changes picture or error, and the picture's number never falls. |
| `RenderPreview.PictureNeverOlder` | apps/web/components/overlay-render-preview.tsx:37-38 | Over any run the picture never comes from an older request than before. |
| `RenderPreview.SupersededIsSilent` | apps/web/components/overlay-render-preview.tsx:75-84 | Neither answer nor failure of a superseded request shows. |
| `RenderPreview.PictureStays` | apps/web/components/overlay-render-preview.tsx:102-128 | No failure, abort or new request takes a shown picture away. |
| `RenderPreview.DropSkipsTheBeat` | apps/web/components/overlay-render-preview.tsx:44-56 | Over any run, the k-th request waits out the beat exactly when its effect ran with the revision of the effect before it. |
| `FirstProgramme.SameSourcesIff` | apps/web/lib/setup-first-programme.ts:31-32 | Sorting and comparing is equality of the selections as multisets. |
| `FirstProgramme.CreateFirstProgramme` | apps/web/lib/setup-first-programme.ts:34-85 | One press: its requests, its outcome and the pool remembered, for every answer; a body that is the value null counts as a lost answer where it is read. |
| `FirstProgramme.ProgrammeForm.Submit` | apps/web/components/setup-programme-form.tsx:60-76 | The form remembers what the press left, and nothing of a press that threw. |
| `FirstProgramme.AsksIff` | apps/web/lib/setup-first-programme.ts:51-60 | A press sends a pool request, first and for its own name and sources, exactly when it is not refused and no pool at hand fits. |
| `FirstProgramme.RequestsSent` | apps/web/lib/setup-first-programme.ts:51-72 | A press sends the template request, last and once, exactly when it is not refused and a fitting pool is at hand or made, and the pool request once exactly when it is not refused and none fits; a press that is done has sent its template. |
| `FirstProgramme.StatusIff` | apps/web/lib/setup-first-programme.ts:44-84 | Which of the six ways a press ends, each with its exact condition, and the pool the form then remembers. |
| `FirstProgramme.ReusedIff` | apps/web/lib/setup-first-programme.ts:51-84 | After one accepted press another asks for no new pool exactly when a pool at hand fits it; for the same wish, exactly when one was at hand before, or the first press got both its pool's id and a template answer that is not lost. |
| `FirstProgramme.PoolsAtMostOnePerWish` | apps/web/lib/setup-first-programme.ts:51-66 | Over any presses the pools on the server are at most one, one per change of name or sources, and one per pool written that the form did not come to remember. |
| `FirstProgramme.OneWishKeepsOne` | apps/web/lib/setup-first-programme.ts:51-66 | While the wish stays the same they are exactly those the form did not come to remember and the one it remembers, which is for that wish. |
| `FirstProgramme.PressedTwice` | apps/web/lib/setup-first-programme.ts:51-84 | One press made twice on a new form leaves two pools exactly when it wrote one and the form did not keep it. |
| `FirstProgramme.LostPoolAnswerCostsAPool` | apps/web/app/api/pools/route.ts:96-114 | A pool request whose response is lost behind the write costs a second pool for one wish. |
| `FirstProgramme.FailedPoolAnswerCostsAPool` | apps/web/app/api/pools/route.ts:96-114 | So does an error behind the write, as when the audit event cannot be appended. |
| `FirstProgramme.LostTemplateCostsAPool` | apps/web/lib/setup-first-programme.ts:68-83 | A lost template answer costs a second pool for one wish. |
| `FirstProgramme.DoneIff` | apps/web/lib/setup-first-programme.ts:51-84 | A press is done exactly when it is not refused, a fitting pool is at hand or made, and the template is accepted. |
| `FirstProgramme.RefusedSendsNothing` | apps/web/lib/setup-first-programme.ts:44-49 | A press sends nothing exactly when it is refused, and then changes nothing. |
| `FirstProgramme.TemplateNamesAnsweredPool` | apps/web/lib/setup-first-programme.ts:51-72 | Every template request names a pool whose id the server answered with, fits this press, and comes last. |
| `ChatterRoster.ActiveChatterRoster.RecordSeen` | apps/worker/src/active-chatters.ts:32-39 | The last time is kept under the normal form of the login; a blank one is ignored. |
| `ChatterRoster.ActiveChatterRoster.CountActive` | apps/worker/src/active-chatters.ts:42-51 | The deleting loop leaves exactly the logins within the window, and counts them. |
| `ChatterRoster.OneLoginOneChatter` | apps/worker/src/active-chatters.ts:31-39 | Two spellings of one login are one entry, with the later call's time. |
| `ChatterRoster.HistoryIs` | apps/worker/src/active-chatters.ts:31-39 | The full history holds the last recorded time of every login that is not blank, under any spelling. |
| `ChatterRoster.CountIsExact` | apps/worker/src/active-chatters.ts:41-51 | A count never exceeds that of the full history, and equals it while the cutoff never went back. |
| `ChatterRoster.HeldIff` | apps/worker/src/active-chatters.ts:29-51 | The roster holds exactly the logins recorded whose last line no later count had outside its window. |
| `ChatterRoster.CountIsExactIff` | apps/worker/src/active-chatters.ts:41-51 | It is exact precisely when no login of the window had a count since its last line whose cutoff lay behind that line. |
| `ChatterRoster.WidenedWindowUndercounts` | apps/worker/src/active-chatters.ts:17-51 | From ten minutes to one and back: a login counted out under the narrow window is missing under the wide one, one active and none counted. |
| `Limiters.AlertDeduper.ShouldSendNow` | apps/worker/src/alerts.ts:68-75 | Grants and remembers a send unless the interval since the last one still runs. |
| `Limiters.AlertDeduper.ForgetKey` | apps/worker/src/alerts.ts:77-79 | Forgets one key and no other. |
| `Limiters.KeysAreIndependent` | apps/worker/src/alerts.ts:63-80 | A key's answers depend on the calls for that key alone. |
| `Limiters.GrantedIff` | apps/worker/src/alerts.ts:63-80 | A send is granted exactly when no grant of its key since it was forgotten lies within the interval. |
| `Limiters.AlertsAreSpaced` | apps/worker/src/alerts.ts:63-75 | Without a forget, n alerts of a key span more than n - 1 intervals. |
| `Limiters.ChatGameCooldowns.Claim` | apps/worker/src/chat-game-cooldown.ts:22-28 | Claims a lane exactly when its cooldown is over, and leaves the other lane alone. |
| `Limiters.LanesAreIndependent` | apps/worker/src/chat-game-cooldown.ts:18-30 | Of both lanes: whether a lane is granted depends on the earlier lines of that lane alone. |
| `Limiters.ViewersCannotSilenceModerators` | apps/worker/src/chat-game-cooldown.ts:3-16 | Whether a moderator's start or stop is accepted is the same with every other line taken out. |
| `Limiters.ClaimedIff` | apps/worker/src/chat-game-cooldown.ts:18-30 | A lane is granted exactly when no accepted line of it lies within the cooldown, and its clock has run that long. |
| `Limiters.ClaimsAreSpaced` | apps/worker/src/chat-game-cooldown.ts:18-30 | n accepted lines of one lane span at least n - 1 cooldowns. |

## Left out

- Time zone arithmetic (`getScheduleInstant`, `getScheduleEndInstant`, `zonedClock`) is not part of this model: its answers are parameters.
- The week projection (`buildMaterializedProgrammingWeek`) is not part of this model: its days are an input, and that its items follow one another is assumed where a result needs it.
- ISO formatting, keys and localised wording: instants stay numbers, a key stays its parts, and words are inputs. No uniqueness of calendar UIDs is claimed, since their sanitising is not injective.
- Strings with unpaired surrogates: characters here are Unicode scalar values, so the replacement character that the encoder prints for a lone surrogate does not arise.
- Updating in place of the groups and days being built, and of a block's items: the loops replace the last group, the last day or the block in the sequence, so aliasing of those objects is not captured.
- Floating point: lengths and percents are exact reals, so errors in the last place are not captured.
- Idempotence of snapping: a value put on the grid can come within reach of a target, so it does not hold.
- The SQL of the as-run table: its contract is modelled (one transaction per write, no effect when it fails), not its statements; only the id and the start of a record are kept.
- `AsRunLog.FirstClosingStays`: asks that no later start carries the row's id, because ids are random and the table would take a pruned one again.
- `AsRunLog.RunsNeverOverlap`: asks for a clock that does not go back between calls, because the rows hold the callers' instants; `AsRunLog.NeverOverlapIff` has the exact condition on any clock.
- Target and input kinds, schedule context and restart intents of as-run records: tables settled by reading one branch.
- The client's and the server's validation of pools and templates, messages, toasts and the confirmation dialog of the setup form.
- React's rendering and the drawing of the preview's markup; a state set on an unmounted component is taken to have no effect.
- Polling of live snapshots, mail and Discord delivery, thumbnails and ffmpeg: input and output.
