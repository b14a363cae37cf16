/**
 * The item on air moves the items of its block that follow it in the current air window:
 * the first half of `buildPublicProgramme` in apps/web/lib/public-programme.ts.
 */
module OnAirShift {
  import opened Wrappers
  import opened Runs
  import opened ProgrammeBlocks

  predicate Airs(w: Window, now: int) { w.start <= now < w.end }

  function FirstAiring(ws: seq<Window>, now: int): (w: Option<Window>)
    ensures w.Some? ==> w.value in ws && Airs(w.value, now)
    ensures w.None? <==> forall v :: v in ws ==> !Airs(v, now)
  {
    if ws == [] then None
    else if Airs(ws[0], now) then Some(ws[0])
    else
      assert ws == [ws[0]] + ws[1..];
      FirstAiring(ws[1..], now)
  }

  /** The position of the first block with an air window on now. */
  function OnAir(blocks: seq<Block>, now: int): (i: Option<nat>)
    ensures i.Some? ==> i.value < |blocks| && FirstAiring(blocks[i.value].windows, now).Some?
    ensures i.Some? ==> forall j :: 0 <= j < i.value ==> FirstAiring(blocks[j].windows, now).None?
    ensures i.None? ==> forall j :: 0 <= j < |blocks| ==> FirstAiring(blocks[j].windows, now).None?
  {
    if blocks == [] then None
    else if FirstAiring(blocks[0].windows, now).Some? then Some(0)
    else
      var rest := OnAir(blocks[1..], now);
      assert forall j :: 0 < j < |blocks| ==> blocks[j] == blocks[1..][j - 1];
      if rest.Some? then Some(rest.value + 1) else None
  }

  predicate InWindow(item: Item, from: int, w: Window) { from <= item.start < w.end }

  function FirstInWindow(items: seq<Item>, from: int, w: Window): (item: Option<Item>)
    ensures item.Some? <==> exists x :: x in items && InWindow(x, from, w)
    ensures item.Some? ==> item.value in items && InWindow(item.value, from, w)
  {
    if items == [] then None
    else if InWindow(items[0], from, w) then Some(items[0])
    else
      assert items == [items[0]] + items[1..];
      FirstInWindow(items[1..], from, w)
  }

  function ShiftOf(items: seq<Item>, from: int, w: Window, currentEnd: int): nat {
    match FirstInWindow(items, from, w)
    case Some(first) => Max(0, currentEnd - first.start)
    case None => 0
  }

  function MoveOne(item: Item, shift: int, w: Window, overrun: bool): Item {
    Item(item.title, item.start + shift,
         if overrun then item.end + shift else Min(item.end + shift, w.end), item.insert)
  }

  /** What becomes of one item. */
  function MoveItem(item: Item, from: int, w: Window, shift: int, overrun: bool): seq<Item> {
    if !InWindow(item, from, w) then [item]
    else if item.start + shift >= w.end then []
    else [MoveOne(item, shift, w, overrun)]
  }

  /**
   * Items of the window move by `shift`; one that would start after the window is dropped, the rest are cut
   * unless `overrun`.
   */
  function MoveItems(items: seq<Item>, from: int, w: Window, shift: int, overrun: bool): seq<Item> {
    if items == [] then []
    else MoveItem(items[0], from, w, shift, overrun) + MoveItems(items[1..], from, w, shift, overrun)
  }

  /** The last window may overrun, unless another block takes the air at its end. */
  predicate MayOverrun(b: Block, w: Window) { w.end == MaxEnd(b.windows) && !b.cutAtEnd }

  function MovedBlock(b: Block, from: int, w: Window, currentEnd: int): Block {
    b.(items := MoveItems(b.items, from, w, ShiftOf(b.items, from, w, currentEnd), MayOverrun(b, w)))
  }

  /** The week with the block on air moved; `currentEnd` is `None` when it is not a number. */
  function AfterShift(blocks: seq<Block>, now: int, from: int, currentEnd: Option<int>): (r: seq<Block>)
    ensures |r| == |blocks|
  {
    var i := OnAir(blocks, now);
    if i.Some? && currentEnd.Some? && currentEnd.value > now then
      var b := blocks[i.value];
      blocks[i.value := MovedBlock(b, from, FirstAiring(b.windows, now).value, currentEnd.value)]
    else blocks
  }

  // ----- what moving keeps -----

  function MoveEach(items: seq<Item>, shift: int, w: Window, overrun: bool): (moved: seq<Item>)
    ensures |moved| == |items|
    ensures forall i :: 0 <= i < |items| ==> moved[i] == MoveOne(items[i], shift, w, overrun)
  {
    seq(|items|, i requires 0 <= i < |items| => MoveOne(items[i], shift, w, overrun))
  }

  lemma {:induction false} MoveItemsConcat(a: seq<Item>, b: seq<Item>, from: int, w: Window, shift: int, overrun: bool)
    ensures MoveItems(a + b, from, w, shift, overrun)
         == MoveItems(a, from, w, shift, overrun) + MoveItems(b, from, w, shift, overrun)
  {
    if a == [] {
      assert a + b == b;
    } else {
      MoveItemsConcat(a[1..], b, from, w, shift, overrun);
      assert (a + b)[0] == a[0] && (a + b)[1..] == a[1..] + b;
      Associate(MoveItem(a[0], from, w, shift, overrun), MoveItems(a[1..], from, w, shift, overrun),
        MoveItems(b, from, w, shift, overrun));
    }
  }

  lemma {:induction false} OutsideUntouched(items: seq<Item>, from: int, w: Window, shift: int, overrun: bool)
    requires forall i :: 0 <= i < |items| ==> !InWindow(items[i], from, w)
    ensures MoveItems(items, from, w, shift, overrun) == items
  {
    if items != [] {
      OutsideUntouched(items[1..], from, w, shift, overrun);
    }
  }

  lemma {:induction false} LateDropped(items: seq<Item>, from: int, w: Window, shift: int, overrun: bool)
    requires forall i :: 0 <= i < |items| ==> InWindow(items[i], from, w) && items[i].start + shift >= w.end
    ensures MoveItems(items, from, w, shift, overrun) == []
  {
    if items != [] {
      LateDropped(items[1..], from, w, shift, overrun);
    }
  }

  lemma {:induction false} EarlyMoved(items: seq<Item>, from: int, w: Window, shift: int, overrun: bool)
    requires forall i :: 0 <= i < |items| ==> InWindow(items[i], from, w) && items[i].start + shift < w.end
    ensures MoveItems(items, from, w, shift, overrun) == MoveEach(items, shift, w, overrun)
  {
    if items != [] {
      EarlyMoved(items[1..], from, w, shift, overrun);
    }
  }

  /** The first position from which every start is at least `t`. */
  function Before(items: seq<Item>, t: int): (n: nat)
    requires InOrder(items)
    ensures n <= |items|
    ensures forall i :: 0 <= i < |items| ==> (items[i].start < t <==> i < n)
  {
    if items == [] || items[|items| - 1].start < t then
      assert forall i :: 0 <= i < |items| ==> items[i].start <= items[i].end;
      |items|
    else
      Before(items[..|items| - 1], t)
  }

  /**
   * The moved list is `items[..lo]` (before the window, untouched), `items[lo..kept]` moved, nothing of
   * `items[kept..hi]` (they would start after the window), and `items[hi..]` (after the window, untouched).
   */
  ghost predicate MovedShape(items: seq<Item>, moved: seq<Item>, from: int, w: Window, shift: int, overrun: bool,
                             lo: nat, kept: nat, hi: nat) {
    && lo <= kept <= hi <= |items|
    && moved == items[..lo] + MoveEach(items[lo..kept], shift, w, overrun) + items[hi..]
    && (forall i :: 0 <= i < |items| ==> (InWindow(items[i], from, w) <==> lo <= i < hi))
    && (forall i :: lo <= i < hi ==> (items[i].start + shift < w.end <==> i < kept))
    && (forall i :: 0 <= i < lo ==> items[i].start < from)
    && (forall i :: hi <= i < |items| ==> items[i].start >= from && items[i].start >= w.end)
  }

  lemma MoveFront(before: seq<Item>, early: seq<Item>, from: int, w: Window, shift: nat, overrun: bool)
    requires forall i :: 0 <= i < |before| ==> !InWindow(before[i], from, w)
    requires forall i :: 0 <= i < |early| ==> InWindow(early[i], from, w) && early[i].start + shift < w.end
    ensures MoveItems(before + early, from, w, shift, overrun) == before + MoveEach(early, shift, w, overrun)
  {
    OutsideUntouched(before, from, w, shift, overrun);
    EarlyMoved(early, from, w, shift, overrun);
    MoveItemsConcat(before, early, from, w, shift, overrun);
  }

  lemma MoveBack(late: seq<Item>, after: seq<Item>, from: int, w: Window, shift: nat, overrun: bool)
    requires forall i :: 0 <= i < |late| ==> InWindow(late[i], from, w) && late[i].start + shift >= w.end
    requires forall i :: 0 <= i < |after| ==> !InWindow(after[i], from, w)
    ensures MoveItems(late + after, from, w, shift, overrun) == after
  {
    LateDropped(late, from, w, shift, overrun);
    OutsideUntouched(after, from, w, shift, overrun);
    MoveItemsConcat(late, after, from, w, shift, overrun);
  }

  /** Where the pieces lie: by their starts. */
  lemma Positions(items: seq<Item>, from: int, w: Window, shift: nat) returns (lo: nat, kept: nat, hi: nat)
    requires InOrder(items)
    ensures lo <= kept <= hi <= |items|
    ensures forall i :: 0 <= i < |items| ==> (InWindow(items[i], from, w) <==> lo <= i < hi)
    ensures forall i :: lo <= i < hi ==> (items[i].start + shift < w.end <==> i < kept)
    ensures forall i :: 0 <= i < lo ==> items[i].start < from
    ensures forall i :: hi <= i < |items| ==> items[i].start >= from && items[i].start >= w.end
  {
    lo := Before(items, from);
    hi := Max(lo, Before(items, w.end));
    kept := Min(hi, Max(lo, Before(items, w.end - shift)));
  }

  lemma MoveItemsShape(items: seq<Item>, from: int, w: Window, shift: nat, overrun: bool)
    returns (lo: nat, kept: nat, hi: nat)
    requires InOrder(items)
    ensures MovedShape(items, MoveItems(items, from, w, shift, overrun), from, w, shift, overrun, lo, kept, hi)
  {
    lo, kept, hi := Positions(items, from, w, shift);
    var front, back := items[..kept], items[kept..];
    assert MoveItems(front, from, w, shift, overrun) == items[..lo] + MoveEach(items[lo..kept], shift, w, overrun) by {
      MoveFront(items[..lo], items[lo..kept], from, w, shift, overrun);
      assert items[..lo] + items[lo..kept] == front;
    }
    assert MoveItems(back, from, w, shift, overrun) == items[hi..] by {
      MoveBack(items[kept..hi], items[hi..], from, w, shift, overrun);
      assert items[kept..hi] + items[hi..] == back;
    }
    assert front + back == items;
    MoveItemsConcat(front, back, from, w, shift, overrun);
  }

  /** The moved list, position by position: `kept` items up to the cut, then those after the window. */
  lemma ShapeAt(items: seq<Item>, moved: seq<Item>, from: int, w: Window, shift: nat, overrun: bool,
                lo: nat, kept: nat, hi: nat, i: nat)
    requires MovedShape(items, moved, from, w, shift, overrun, lo, kept, hi) && i < |moved|
    ensures |moved| == kept + |items| - hi
    ensures i < lo ==> moved[i] == items[i]
    ensures lo <= i < kept ==> moved[i] == MoveOne(items[i], shift, w, overrun)
    ensures kept <= i ==> moved[i] == items[i - kept + hi]
  {
  }

  lemma ShapeInOrder(items: seq<Item>, moved: seq<Item>, from: int, w: Window, shift: nat, overrun: bool,
                     lo: nat, kept: nat, hi: nat)
    requires InOrder(items) && MovedShape(items, moved, from, w, shift, overrun, lo, kept, hi)
    requires overrun ==> hi == |items|
    ensures InOrder(moved)
  {
    forall i | 0 <= i < |moved| ensures moved[i].start <= moved[i].end {
      ShapeAt(items, moved, from, w, shift, overrun, lo, kept, hi, i);
      var p := if i < kept then i else i - kept + hi;
      assert items[p].start <= items[p].end;
    }
    forall i, j | 0 <= i < j < |moved| ensures moved[i].end <= moved[j].start {
      ShapeAt(items, moved, from, w, shift, overrun, lo, kept, hi, i);
      ShapeAt(items, moved, from, w, shift, overrun, lo, kept, hi, j);
      var p, q := if i < kept then i else i - kept + hi, if j < kept then j else j - kept + hi;
      assert items[p].end <= items[q].start;
    }
  }

  /** The first item of the window is its earliest, so the shift takes all of them behind the item on air. */
  lemma {:induction false} FirstIsEarliest(items: seq<Item>, from: int, w: Window, i: nat)
    requires InOrder(items) && i < |items| && InWindow(items[i], from, w)
    ensures FirstInWindow(items, from, w).Some? && FirstInWindow(items, from, w).value.start <= items[i].start
  {
    if !InWindow(items[0], from, w) {
      assert InOrder(items[1..]) && items[1..][i - 1] == items[i];
      FirstIsEarliest(items[1..], from, w, i - 1);
    } else if i > 0 {
      assert items[0].start <= items[0].end <= items[i].start;
    }
  }

  /**
   * The move, for a block whose items are in order and start before it ends: the items stay in order; what
   * lies outside the window is untouched, the window's items are a moved prefix and a dropped suffix
   * (`MovedShape`); and every moved item starts behind the item on air, inside the window.
   */
  lemma MovedBlockKeepsOrder(b: Block, from: int, w: Window, currentEnd: int)
    returns (lo: nat, kept: nat, hi: nat)
    requires InOrder(b.items) && StartsBeforeItsEnd(b) && w in b.windows
    ensures InOrder(MovedBlock(b, from, w, currentEnd).items)
    ensures MovedShape(b.items, MovedBlock(b, from, w, currentEnd).items, from, w,
                       ShiftOf(b.items, from, w, currentEnd), MayOverrun(b, w), lo, kept, hi)
    ensures forall i :: lo <= i < kept ==> currentEnd <= MovedBlock(b, from, w, currentEnd).items[i].start < w.end
  {
    var shift, overrun := ShiftOf(b.items, from, w, currentEnd), MayOverrun(b, w);
    lo, kept, hi := MoveItemsShape(b.items, from, w, shift, overrun);
    var moved := MovedBlock(b, from, w, currentEnd).items;
    NothingAfterTheLastWindow(b, from, w, lo, hi);
    ShapeInOrder(b.items, moved, from, w, shift, overrun, lo, kept, hi);
    forall i | lo <= i < kept ensures currentEnd <= moved[i].start < w.end {
      ShapeAt(b.items, moved, from, w, shift, overrun, lo, kept, hi, i);
      FirstIsEarliest(b.items, from, w, i);
    }
  }

  /**
   * Moved items keep their title and their start-to-start spacing; where the block may overrun they keep
   * their length too, elsewhere they end with the window at the latest.
   */
  lemma MovedItemsKeepSpacing(items: seq<Item>, moved: seq<Item>, from: int, w: Window, shift: nat, overrun: bool,
                              lo: nat, kept: nat, hi: nat, i: nat, j: nat)
    requires MovedShape(items, moved, from, w, shift, overrun, lo, kept, hi) && lo <= i <= j < kept
    ensures |moved| == kept + |items| - hi
    ensures moved[j].start - moved[i].start == items[j].start - items[i].start
    ensures moved[i].title == items[i].title && moved[i].insert == items[i].insert
    ensures if overrun then moved[i].end - moved[i].start == items[i].end - items[i].start else moved[i].end <= w.end
  {
    ShapeAt(items, moved, from, w, shift, overrun, lo, kept, hi, i);
    ShapeAt(items, moved, from, w, shift, overrun, lo, kept, hi, j);
  }

  lemma NothingAfterTheLastWindow(b: Block, from: int, w: Window, lo: nat, hi: nat)
    requires StartsBeforeItsEnd(b) && hi <= |b.items|
    requires forall i :: hi <= i < |b.items| ==> b.items[i].start >= w.end
    ensures MayOverrun(b, w) ==> hi == |b.items|
  {
    assert hi < |b.items| ==> b.items[hi].start < MaxEnd(b.windows);
  }

  /** Without the filter on items that start after the block, an overrunning item would be listed over one of them. */
  lemma OrderNeedsTheItemFilter()
    ensures
      var w := Window(0, 10);
      var b := Block(0, BlockKey("", ""), "", "", "", false, false, [w],
        [Item("a", 5, 8, false), Item("b", 10, 12, false)], true);
      InOrder(b.items) && !StartsBeforeItsEnd(b) && !InOrder(MovedBlock(b, 0, w, 9).items)
  {
    var w := Window(0, 10);
    var items := [Item("a", 5, 8, false), Item("b", 10, 12, false)];
    var b := Block(0, BlockKey("", ""), "", "", "", false, false, [w], items, true);
    assert MaxEnd(b.windows) == 10;
    assert ShiftOf(items, 0, w, 9) == 4;
    assert items[1..][0] == items[1] && items[1..][1..] == [];
    assert MoveItems(items, 0, w, 4, true) == [Item("a", 9, 12, false)] + MoveItems(items[1..], 0, w, 4, true);
    assert MoveItems(items[1..], 0, w, 4, true) == [items[1]] + MoveItems(items[1..][1..], 0, w, 4, true);
    var moved := MovedBlock(b, 0, w, 9).items;
    assert moved == [Item("a", 9, 12, false), Item("b", 10, 12, false)];
    assert moved[0].end > moved[1].start;
  }

  /** Only the block on air changes, and of it only the items. */
  lemma AfterShiftTouchesOneBlock(blocks: seq<Block>, now: int, from: int, currentEnd: Option<int>, i: nat)
    requires i < |blocks|
    ensures AfterShift(blocks, now, from, currentEnd)[i]
      == blocks[i].(items := AfterShift(blocks, now, from, currentEnd)[i].items)
    ensures OnAir(blocks, now) != Some(i) ==> AfterShift(blocks, now, from, currentEnd)[i] == blocks[i]
  {
  }

  /** In every block of the week the items stay in order, whatever is on air. */
  lemma AfterShiftKeepsOrder(blocks: seq<Block>, now: int, from: int, currentEnd: Option<int>, i: nat)
    requires forall b :: b in blocks ==> InOrder(b.items) && StartsBeforeItsEnd(b)
    requires i < |blocks|
    ensures InOrder(AfterShift(blocks, now, from, currentEnd)[i].items)
  {
    assert blocks[i] in blocks;
    if OnAir(blocks, now) == Some(i) && currentEnd.Some? && currentEnd.value > now {
      var lo, kept, hi := MovedBlockKeepsOrder(blocks[i], from, FirstAiring(blocks[i].windows, now).value,
        currentEnd.value);
    }
  }

  /**
   * After the move, an item of the block on air starts before `from`, behind the item on air, or after the
   * window on now.
   */
  lemma AfterShiftBehindCurrent(blocks: seq<Block>, now: int, from: int, currentEnd: int, i: nat, k: nat)
    requires forall b :: b in blocks ==> InOrder(b.items) && StartsBeforeItsEnd(b)
    requires OnAir(blocks, now) == Some(i) && currentEnd > now
    requires k < |AfterShift(blocks, now, from, Some(currentEnd))[i].items|
    ensures var item := AfterShift(blocks, now, from, Some(currentEnd))[i].items[k];
      item.start < from || item.start >= currentEnd || item.start >= FirstAiring(blocks[i].windows, now).value.end
  {
    assert blocks[i] in blocks;
    var w := FirstAiring(blocks[i].windows, now).value;
    var lo, kept, hi := MovedBlockKeepsOrder(blocks[i], from, w, currentEnd);
    var moved := MovedBlock(blocks[i], from, w, currentEnd).items;
    ShapeAt(blocks[i].items, moved, from, w, ShiftOf(blocks[i].items, from, w, currentEnd), MayOverrun(blocks[i], w),
      lo, kept, hi, k);
  }

  /** The place of the first window on now. */
  lemma {:induction false} FirstAiringAt(ws: seq<Window>, now: int) returns (j: nat)
    requires FirstAiring(ws, now).Some?
    ensures j < |ws| && FirstAiring(ws, now).value == ws[j] && ws[j].start <= now < ws[j].end
    ensures forall v :: 0 <= v < j ==> !(ws[v].start <= now < ws[v].end)
  {
    if Airs(ws[0], now) {
      j := 0;
    } else {
      var r := FirstAiringAt(ws[1..], now);
      j := r + 1;
      assert forall v :: 0 < v < |ws| ==> ws[v] == ws[1..][v - 1];
    }
  }

  /** Without an item on air whose end is known and ahead, nothing moves. */
  lemma NothingMoves(blocks: seq<Block>, now: int, from: int, currentEnd: Option<int>)
    requires || currentEnd.None? || currentEnd.value <= now
             || forall b, w :: b in blocks && w in b.windows ==> !Airs(w, now)
    ensures AfterShift(blocks, now, from, currentEnd) == blocks
  {
    var i := OnAir(blocks, now);
    if i.Some? {
      assert blocks[i.value] in blocks && FirstAiring(blocks[i.value].windows, now).value in blocks[i.value].windows;
    }
  }

  lemma ShiftIs(items: seq<Item>, from: int, w: Window, currentEnd: int, lo: nat, hi: nat)
    requires InOrder(items) && lo <= hi <= |items|
    requires forall i :: 0 <= i < |items| ==> (InWindow(items[i], from, w) <==> lo <= i < hi)
    ensures ShiftOf(items, from, w, currentEnd) == if lo < hi then Max(0, currentEnd - items[lo].start) else 0
  {
    var first := FirstInWindow(items, from, w);
    if lo < hi {
      assert items[lo] in items && InWindow(items[lo], from, w);
      FirstIsEarliest(items, from, w, lo);
      var k :| 0 <= k < |items| && items[k] == first.value;
      if k != lo {
        assert items[lo].start <= items[lo].end <= items[k].start;
      }
    }
  }

  /** How long a moved item may last: to its own end, or to that of the window where another block takes over. */
  ghost predicate MovedTo(moved: Item, item: Item, shift: int, w: Window, b: Block) {
    && moved.title == item.title && moved.insert == item.insert && moved.start == item.start + shift
    && moved.end == if item.end + shift <= w.end || (!b.cutAtEnd && forall v :: v in b.windows ==> v.end <= w.end)
                    then item.end + shift else w.end
  }

  lemma MoveOneIs(item: Item, shift: int, w: Window, b: Block)
    requires w in b.windows
    ensures MovedTo(MoveOne(item, shift, w, MayOverrun(b, w)), item, shift, w, b)
  {
  }

  /**
   * The items `lo` to `hi` are those of the window. They move by as much as the first of them has to wait for the
   * item on air to end, and not at all if it ends before. Those that would then start at or after the window's end
   * are gone (`kept` to `hi`); the others run on, cut where another block takes the air. All other items stay.
   */
  ghost predicate ItemsMove(b: Block, moved: seq<Item>, from: int, w: Window, currentEnd: int,
                            lo: nat, kept: nat, hi: nat, shift: nat) {
    && lo <= kept <= hi <= |b.items| && |moved| == kept + |b.items| - hi
    && (forall k :: 0 <= k < |b.items| ==> (from <= b.items[k].start < w.end <==> lo <= k < hi))
    && (shift == if lo < hi then Max(0, currentEnd - b.items[lo].start) else 0)
    && (forall k :: lo <= k < hi ==> (b.items[k].start + shift < w.end <==> k < kept))
    && (forall k :: 0 <= k < lo ==> moved[k] == b.items[k])
    && (forall k :: lo <= k < kept ==> MovedTo(moved[k], b.items[k], shift, w, b))
    && (forall k :: kept <= k < |moved| ==> moved[k] == b.items[k - kept + hi])
  }

  lemma ShapeMoves(b: Block, moved: seq<Item>, from: int, w: Window, currentEnd: int,
                   lo: nat, kept: nat, hi: nat, shift: nat)
    requires w in b.windows && MovedShape(b.items, moved, from, w, shift, MayOverrun(b, w), lo, kept, hi)
    requires shift == if lo < hi then Max(0, currentEnd - b.items[lo].start) else 0
    ensures ItemsMove(b, moved, from, w, currentEnd, lo, kept, hi, shift)
  {
    forall k | 0 <= k < |moved|
      ensures k < lo ==> moved[k] == b.items[k]
      ensures lo <= k < kept ==> MovedTo(moved[k], b.items[k], shift, w, b)
      ensures kept <= k ==> moved[k] == b.items[k - kept + hi]
    {
      ShapeAt(b.items, moved, from, w, shift, MayOverrun(b, w), lo, kept, hi, k);
      if lo <= k < kept {
        MoveOneIs(b.items[k], shift, w, b);
      }
    }
  }

  /** What the item on air does to the block on air, in window `j`, the first on now. */
  lemma OnAirBlockMoves(blocks: seq<Block>, now: int, from: int, currentEnd: int, i: nat)
    returns (j: nat, lo: nat, kept: nat, hi: nat, shift: nat)
    requires forall b :: b in blocks ==> InOrder(b.items) && StartsBeforeItsEnd(b)
    requires OnAir(blocks, now) == Some(i) && currentEnd > now
    ensures j < |blocks[i].windows| && forall v :: 0 <= v <= j ==> (Airs(blocks[i].windows[v], now) <==> v == j)
    ensures ItemsMove(blocks[i], AfterShift(blocks, now, from, Some(currentEnd))[i].items, from, blocks[i].windows[j],
                      currentEnd, lo, kept, hi, shift)
  {
    var b := blocks[i];
    assert b in blocks;
    j := FirstAiringAt(b.windows, now);
    var w := b.windows[j];
    lo, kept, hi := MovedBlockKeepsOrder(b, from, w, currentEnd);
    shift := ShiftOf(b.items, from, w, currentEnd);
    ShiftIs(b.items, from, w, currentEnd, lo, hi);
    ShapeMoves(b, MovedBlock(b, from, w, currentEnd).items, from, w, currentEnd, lo, kept, hi, shift);
  }
}
