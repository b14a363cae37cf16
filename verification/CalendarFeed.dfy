/**
 * The calendar feed: `buildProgrammeCalendar` of apps/web/lib/public-programme-calendar.ts, and a reader
 * that follows RFC 5545 (content lines and unfolding of section 3.1, TEXT of section 3.3.11).
 */
module CalendarFeed {
  import opened Wrappers
  import opened Runs
  import opened CalendarText
  import opened CalendarFold

  /** The fields of an instant as `toISOString` writes them, each in digits. */
  datatype IsoTime = IsoTime(
    year: string, month: string, day: string, hour: string, minute: string, second: string, millis: string)

  /** What the feed is told by the locale and the channel. */
  datatype Wording = Wording(calendarName: string, timeZone: string, datedWord: string)

  predicate IsDigit(c: char) { '0' <= c <= '9' }

  predicate Digits(s: string) { forall c :: c in s ==> IsDigit(c) }

  predicate WellFormed(t: IsoTime) {
    && Digits(t.year) && Digits(t.month) && Digits(t.day)
    && Digits(t.hour) && Digits(t.minute) && Digits(t.second)
    && Digits(t.millis) && |t.millis| == 3
  }

  type Instant = t: IsoTime | WellFormed(t) witness IsoTime("", "", "", "", "", "", "000")

  /** A week entry as the feed reads it, its title and category already localised. */
  datatype Entry = Entry(key: string, title: string, category: string, dated: bool, startsAt: Instant, endsAt: Instant)

  function IsoText(t: IsoTime): string {
    t.year + "-" + t.month + "-" + t.day + "T" + t.hour + ":" + t.minute + ":" + t.second + "." + t.millis + "Z"
  }

  // ----- formatUtc -----

  function KeptMark(c: char): string { if c == '-' || c == ':' then "" else [c] }

  function WithoutMarks(s: string): string {
    if s == "" then "" else KeptMark(s[0]) + WithoutMarks(s[1..])
  }

  /** The first dot that three digits follow goes, with them. */
  function WithoutMillis(s: string): string {
    if s == "" then ""
    else if |s| >= 4 && s[0] == '.' && IsDigit(s[1]) && IsDigit(s[2]) && IsDigit(s[3]) then s[4..]
    else [s[0]] + WithoutMillis(s[1..])
  }

  function FormatUtc(iso: string): string { WithoutMillis(WithoutMarks(iso)) }

  /** Digits stay; the mark behind them goes or stays. */
  lemma {:induction false} FieldThenMark(field: string, mark: char, rest: string)
    requires Digits(field)
    ensures WithoutMarks(field + [mark] + rest) == field + KeptMark(mark) + WithoutMarks(rest)
  {
    var s := field + [mark] + rest;
    if field == "" {
      assert s[0] == mark && s[1..] == rest;
    } else {
      assert field[0] in field && forall c :: c in field[1..] ==> c in field;
      assert s[0] == field[0] && s[1..] == field[1..] + [mark] + rest;
      FieldThenMark(field[1..], mark, rest);
      assert KeptMark(field[0]) == [field[0]];
      assert field == [field[0]] + field[1..];
    }
  }

  lemma {:induction false} WithoutMillisSkips(a: string, b: string)
    requires '.' !in a
    ensures WithoutMillis(a + b) == a + WithoutMillis(b)
  {
    if a == "" {
      assert a + b == b;
    } else {
      assert a[0] in a && (a + b)[1..] == a[1..] + b;
      WithoutMillisSkips(a[1..], b);
    }
  }

  function UtcText(t: IsoTime): string { t.year + t.month + t.day + "T" + t.hour + t.minute + t.second + "Z" }

  lemma DateMarksGone(year: string, month: string, day: string, rest: string)
    requires Digits(year) && Digits(month) && Digits(day)
    ensures WithoutMarks(year + "-" + month + "-" + day + "T" + rest) == year + month + day + "T" + WithoutMarks(rest)
  {
    var r2 := day + "T" + rest;
    var r1 := month + "-" + r2;
    assert year + "-" + month + "-" + day + "T" + rest == year + "-" + r1;
    assert WithoutMarks(r2) == day + "T" + WithoutMarks(rest) by { FieldThenMark(day, 'T', rest); }
    assert WithoutMarks(r1) == month + WithoutMarks(r2) by {
      FieldThenMark(month, '-', r2);
      assert month + "" == month;
    }
    assert WithoutMarks(year + "-" + r1) == year + WithoutMarks(r1) by {
      FieldThenMark(year, '-', r1);
      assert year + "" == year;
    }
  }

  lemma TimeMarksGone(hour: string, minute: string, second: string, rest: string)
    requires Digits(hour) && Digits(minute) && Digits(second)
    ensures WithoutMarks(hour + ":" + minute + ":" + second + "." + rest) == hour + minute + second + "."
      + WithoutMarks(rest)
  {
    var r2 := second + "." + rest;
    var r1 := minute + ":" + r2;
    assert hour + ":" + minute + ":" + second + "." + rest == hour + ":" + r1;
    assert WithoutMarks(r2) == second + "." + WithoutMarks(rest) by { FieldThenMark(second, '.', rest); }
    assert WithoutMarks(r1) == minute + WithoutMarks(r2) by {
      FieldThenMark(minute, ':', r2);
      assert minute + "" == minute;
    }
    assert WithoutMarks(hour + ":" + r1) == hour + WithoutMarks(r1) by {
      FieldThenMark(hour, ':', r1);
      assert hour + "" == hour;
    }
  }

  lemma MarksGone(t: Instant)
    ensures WithoutMarks(IsoText(t)) == t.year + t.month + t.day + "T" + t.hour + t.minute + t.second + "." + t.millis
      + "Z"
  {
    var last := t.millis + "Z";
    var time := t.hour + ":" + t.minute + ":" + t.second + "." + last;
    assert IsoText(t) == t.year + "-" + t.month + "-" + t.day + "T" + time;
    DateMarksGone(t.year, t.month, t.day, time);
    TimeMarksGone(t.hour, t.minute, t.second, last);
    assert WithoutMarks(last) == last by {
      assert last == t.millis + ['Z'] + "";
      FieldThenMark(t.millis, 'Z', "");
    }
  }

  /** A time is printed in the UTC form of section 3.3.5, its seconds whole. */
  lemma FormatUtcIs(t: Instant)
    ensures FormatUtc(IsoText(t)) == UtcText(t)
  {
    MarksGone(t);
    var head := t.year + t.month + t.day + "T" + t.hour + t.minute + t.second;
    var tail := "." + t.millis + "Z";
    assert WithoutMarks(IsoText(t)) == head + tail;
    assert t.millis[0] in t.millis && t.millis[1] in t.millis && t.millis[2] in t.millis;
    assert tail[4..] == "Z";
    WithoutMillisSkips(head, tail);
  }

  // ----- the lines -----

  /** What a key may hold in a UID. */
  predicate IsSafe(c: char) {
    'A' <= c <= 'Z' || 'a' <= c <= 'z' || IsDigit(c) || c == '.' || c == '_' || c == ':' || c == '-'
  }

  /** Any other UTF-16 unit becomes a dash: two of them for a character beyond the basic plane. */
  function SafeChar(c: char): string {
    if IsSafe(c) then [c] else if c < '\U{10000}' then "-" else "--"
  }

  /** The length of a text in UTF-16 units. */
  function Units(s: string): nat {
    if s == "" then 0 else (if s[0] < '\U{10000}' then 1 else 2) + Units(s[1..])
  }

  /** Safe characters only, one for each unit of the key, and a safe key as it is. */
  function SafeKey(key: string): (r: string)
    ensures forall c :: c in r ==> IsSafe(c)
    ensures |r| == Units(key)
    ensures (forall c :: c in key ==> IsSafe(c)) ==> r == key
  {
    if key == "" then ""
    else
      assert key == [key[0]] + key[1..];
      SafeChar(key[0]) + SafeKey(key[1..])
  }

  /** Each character of the key stands at its UTF-16 place: itself when it is safe, as dashes otherwise. */
  lemma {:induction false} SafeKeyAt(key: string, i: nat)
    requires i < |key|
    ensures var p := Units(key[..i]);
      && p + Units([key[i]]) <= |SafeKey(key)|
      && SafeKey(key)[p] == (if IsSafe(key[i]) then key[i] else '-')
      && (key[i] >= '\U{10000}' ==> SafeKey(key)[p + 1] == '-')
  {
    assert [key[i]][1..] == "";
    if i > 0 {
      SafeKeyAt(key[1..], i - 1);
      assert key[..i][1..] == key[1..][..i - 1] && key[..i][0] == key[0];
    } else {
      assert key[..0] == "";
    }
  }

  /** The words that are not empty, joined by a middle dot. */
  function Description(e: Entry, w: Wording): string {
    var first := if e.dated then w.datedWord else "";
    var second := if e.category != e.title then e.category else "";
    if first == "" then second else if second == "" then first else first + " \U{00B7} " + second
  }

  function HeadLines(w: Wording): seq<string> {
    ["BEGIN:VCALENDAR",
     "VERSION:2.0",
     "PRODID:-//Stream247//Public programme//EN",
     "CALSCALE:GREGORIAN",
     "METHOD:PUBLISH",
     "X-WR-CALNAME:" + EscapeText(w.calendarName),
     "X-WR-TIMEZONE:" + EscapeText(w.timeZone),
     "REFRESH-INTERVAL;VALUE=DURATION:PT1H",
     "X-PUBLISHED-TTL:PT1H"]
  }

  function EventHead(e: Entry, stamp: string): seq<string> {
    ["BEGIN:VEVENT",
     "UID:" + SafeKey(e.key) + "@stream247",
     "DTSTAMP:" + stamp,
     "DTSTART:" + FormatUtc(IsoText(e.startsAt)),
     "DTEND:" + FormatUtc(IsoText(e.endsAt)),
     "SUMMARY:" + EscapeText(e.title)]
  }

  /** The lines an event has only when there is something to say. */
  function EventTexts(e: Entry, w: Wording): seq<string> {
    (if Description(e, w) != "" then ["DESCRIPTION:" + EscapeText(Description(e, w))] else [])
    + (if e.category != "" then ["CATEGORIES:" + EscapeText(e.category)] else [])
  }

  function EventLines(e: Entry, w: Wording, stamp: string): seq<string> {
    EventHead(e, stamp) + EventTexts(e, w) + ["TRANSP:TRANSPARENT", "END:VEVENT"]
  }

  function Events(entries: seq<Entry>, w: Wording, stamp: string): (events: seq<seq<string>>)
    ensures |events| == |entries|
  {
    if entries == [] then [] else [EventLines(entries[0], w, stamp)] + Events(entries[1..], w, stamp)
  }

  function CalendarLines(entries: seq<Entry>, w: Wording, now: Instant): seq<string> {
    HeadLines(w) + Flatten(Events(entries, w, FormatUtc(IsoText(now)))) + ["END:VCALENDAR"]
  }

  function FoldAll(lines: seq<string>): seq<string> {
    seq(|lines|, i requires 0 <= i < |lines| => FoldedText(lines[i]))
  }

  lemma FlattenNext<T>(head: seq<T>, parts: seq<seq<T>>, i: nat)
    requires i < |parts|
    ensures head + Flatten(parts[..i + 1]) == head + Flatten(parts[..i]) + parts[i]
  {
    FlattenAppend(parts[..i], parts[i]);
    assert parts[..i + 1] == parts[..i] + [parts[i]];
  }

  lemma {:induction false} EventsAt(entries: seq<Entry>, w: Wording, stamp: string, i: nat)
    requires i < |entries|
    ensures Events(entries, w, stamp)[i] == EventLines(entries[i], w, stamp)
  {
    if i > 0 {
      EventsAt(entries[1..], w, stamp, i - 1);
    }
  }

  /** The loop that pushes the events' lines behind the head. */
  method PushEvents(head: seq<string>, entries: seq<Entry>, w: Wording, stamp: string) returns (lines: seq<string>)
    ensures lines == head + Flatten(Events(entries, w, stamp))
  {
    lines := head;
    ghost var events := Events(entries, w, stamp);
    for i := 0 to |entries|
      invariant lines == head + Flatten(events[..i])
    {
      EventsAt(entries, w, stamp, i);
      FlattenNext(head, events, i);
      lines := lines + EventLines(entries[i], w, stamp);
    }
    assert events[..|entries|] == events;
  }

  method FoldLines(lines: seq<string>) returns (folded: seq<string>)
    ensures folded == FoldAll(lines)
  {
    folded := [];
    for i := 0 to |lines|
      invariant folded == FoldAll(lines[..i])
    {
      var text := FoldLine(lines[i]);
      folded := folded + [text];
    }
    assert lines[..|lines|] == lines;
  }

  method BuildProgrammeCalendar(entries: seq<Entry>, w: Wording, now: Instant) returns (feed: string)
    ensures feed == Join(FoldAll(CalendarLines(entries, w, now)), CRLF) + CRLF
  {
    var stamp := FormatUtc(IsoText(now));
    var lines := PushEvents(HeadLines(w), entries, w, stamp);
    lines := lines + ["END:VCALENDAR"];
    var folded := FoldLines(lines);
    feed := Join(folded, CRLF) + CRLF;
  }

  // ----- physical lines -----

  /** The text cut at every CRLF. */
  function PhysicalLines(s: string): seq<string> {
    if s == "" then []
    else if |s| >= 2 && s[0] == '\r' && s[1] == '\n' then [""] + PhysicalLines(s[2..])
    else
      var rest := PhysicalLines(s[1..]);
      if rest == [] then [[s[0]]] else [[s[0]] + rest[0]] + rest[1..]
  }

  /** A line that opens with a space or a tab continues the line before it, without that character. */
  function Unfold(physical: seq<string>): seq<string> {
    if physical == [] then []
    else
      var before, last := Unfold(physical[..|physical| - 1]), physical[|physical| - 1];
      if before != [] && last != "" && (last[0] == ' ' || last[0] == '\t')
      then before[..|before| - 1] + [before[|before| - 1] + last[1..]]
      else before + [last]
  }

  /** A line that can be printed: not empty, on one line, and not opening like a continuation. */
  predicate Printable(line: string) { line != "" && OneLine(line) && line[0] != ' ' && line[0] != '\t' }

  /** Every line closed by a CRLF. */
  function Closed(lines: seq<string>): string {
    if lines == [] then "" else lines[0] + CRLF + Closed(lines[1..])
  }

  lemma {:induction false} JoinIsClosed(lines: seq<string>)
    requires lines != []
    ensures Join(lines, CRLF) + CRLF == Closed(lines)
  {
    if |lines| > 1 {
      JoinIsClosed(lines[1..]);
    } else {
      assert Closed(lines[1..]) == "";
    }
  }

  lemma {:induction false} PhysicalLine(line: string, rest: string)
    requires OneLine(line)
    ensures PhysicalLines(line + CRLF + rest) == [line] + PhysicalLines(rest)
  {
    var s := line + CRLF + rest;
    if line == "" {
      assert s[0] == '\r' && s[1] == '\n' && s[2..] == rest;
    } else {
      assert line[0] in line && forall c :: c in line[1..] ==> c in line;
      assert s[1..] == line[1..] + CRLF + rest;
      PhysicalLine(line[1..], rest);
      assert line == [line[0]] + line[1..];
    }
  }

  lemma {:induction false} PhysicalLinesOfClosed(lines: seq<string>, rest: string)
    requires forall i :: 0 <= i < |lines| ==> OneLine(lines[i])
    ensures PhysicalLines(Closed(lines) + rest) == lines + PhysicalLines(rest)
  {
    if lines == [] {
      assert Closed(lines) + rest == rest;
    } else {
      assert Closed(lines) + rest == lines[0] + CRLF + (Closed(lines[1..]) + rest);
      PhysicalLine(lines[0], Closed(lines[1..]) + rest);
      PhysicalLinesOfClosed(lines[1..], rest);
    }
  }

  /** The folded text with its CRLF is the parts, each closed, the later ones behind a space. */
  lemma {:induction false} FoldedIsClosed(parts: seq<string>)
    requires parts != []
    ensures Join(parts, "\r\n ") + CRLF == parts[0] + CRLF + Closed(Spaced(parts[1..]))
  {
    if |parts| == 1 {
      assert Spaced(parts[1..]) == [] && Closed([]) == "";
    } else {
      FoldedIsClosed(parts[1..]);
      var tail := parts[1..];
      assert Spaced(tail)[0] == " " + tail[0] && Spaced(tail)[1..] == Spaced(tail[1..]);
      assert Closed(Spaced(tail)) == " " + tail[0] + CRLF + Closed(Spaced(tail[1..]));
      calc {
        Join(parts, "\r\n ") + CRLF;
        parts[0] + "\r\n " + (Join(tail, "\r\n ") + CRLF);
        parts[0] + "\r\n " + (tail[0] + CRLF + Closed(Spaced(tail[1..])));
        parts[0] + CRLF + Closed(Spaced(tail));
      }
    }
  }

  function Spaced(parts: seq<string>): (r: seq<string>)
    ensures |r| == |parts| && forall i :: 0 <= i < |parts| ==> r[i] == " " + parts[i]
  {
    seq(|parts|, i requires 0 <= i < |parts| => " " + parts[i])
  }

  /** The physical lines of one content line. */
  function PrintedLines(line: string): seq<string> {
    [FoldParts(line)[0]] + Spaced(FoldParts(line)[1..])
  }

  function AllPrintedLines(lines: seq<string>): seq<string> {
    if lines == [] then [] else PrintedLines(lines[0]) + AllPrintedLines(lines[1..])
  }

  lemma {:induction false} ClosedConcat(a: seq<string>, b: seq<string>)
    ensures Closed(a + b) == Closed(a) + Closed(b)
  {
    if a == [] {
      assert a + b == b;
    } else {
      ClosedConcat(a[1..], b);
      assert (a + b)[0] == a[0] && (a + b)[1..] == a[1..] + b;
      Associate(a[0] + CRLF, Closed(a[1..]), Closed(b));
    }
  }

  lemma LineIsClosed(line: string)
    ensures FoldedText(line) + CRLF == Closed(PrintedLines(line))
  {
    FoldedIsClosed(FoldParts(line));
    assert PrintedLines(line)[1..] == Spaced(FoldParts(line)[1..]);
  }

  lemma {:induction false} FeedIsClosed(lines: seq<string>)
    ensures Closed(FoldAll(lines)) == Closed(AllPrintedLines(lines))
  {
    if lines != [] {
      FeedIsClosed(lines[1..]);
      assert FoldAll(lines)[1..] == FoldAll(lines[1..]);
      LineIsClosed(lines[0]);
      ClosedConcat(PrintedLines(lines[0]), AllPrintedLines(lines[1..]));
    }
  }

  // ----- reading the lines back -----

  lemma OneLineConcat(a: string, b: string)
    ensures OneLine(a + b) <==> OneLine(a) && OneLine(b)
  {
    assert forall c :: c in a + b <==> c in a || c in b;
  }

  lemma {:induction false} PartsOneLine(parts: seq<string>)
    requires OneLine(Flatten(parts))
    ensures forall i :: 0 <= i < |parts| ==> OneLine(parts[i])
  {
    if parts != [] {
      OneLineConcat(parts[0], Flatten(parts[1..]));
      PartsOneLine(parts[1..]);
    }
  }

  lemma SpaceOneLine(part: string)
    requires OneLine(part)
    ensures OneLine(" " + part)
  {
    OneLineConcat(" ", part);
  }

  lemma PrintedOneLine(line: string)
    requires OneLine(line)
    ensures forall i :: 0 <= i < |PrintedLines(line)| ==> OneLine(PrintedLines(line)[i])
  {
    var parts := FoldParts(line);
    FoldedInvariant(line);
    PartsOneLine(parts);
    forall i | 0 <= i < |PrintedLines(line)| ensures OneLine(PrintedLines(line)[i]) {
      PrintedAt(line, i);
      SpaceOneLine(parts[i]);
    }
  }

  lemma PrintedAt(line: string, i: nat)
    requires i < |PrintedLines(line)|
    ensures i < |FoldParts(line)| && PrintedLines(line)[i] == if i == 0 then FoldParts(line)[i]
      else " " + FoldParts(line)[i]
  {
  }

  lemma UnfoldAppend(physical: seq<string>, last: string)
    ensures Unfold(physical + [last]) ==
      (var before := Unfold(physical);
       if before != [] && last != "" && (last[0] == ' ' || last[0] == '\t')
       then before[..|before| - 1] + [before[|before| - 1] + last[1..]]
       else before + [last])
  {
    assert (physical + [last])[..|physical|] == physical;
  }

  lemma UnfoldContinuation(physical: seq<string>, before: seq<string>, last: string, part: string)
    requires Unfold(physical) == before + [last]
    ensures Unfold(physical + [" " + part]) == before + [last + part]
  {
    UnfoldAppend(physical, " " + part);
    assert (" " + part)[1..] == part;
  }

  lemma {:induction false} UnfoldParts(physical: seq<string>, before: seq<string>, last: string, parts: seq<string>)
    requires Unfold(physical) == before + [last]
    ensures Unfold(physical + Spaced(parts)) == before + [last + Flatten(parts)]
    decreases |parts|
  {
    if parts == [] {
      assert physical + Spaced(parts) == physical;
      assert last + Flatten(parts) == last;
    } else {
      UnfoldContinuation(physical, before, last, parts[0]);
      UnfoldParts(physical + [" " + parts[0]], before, last + parts[0], parts[1..]);
      assert physical + Spaced(parts) == (physical + [" " + parts[0]]) + Spaced(parts[1..]);
      assert last + Flatten(parts) == (last + parts[0]) + Flatten(parts[1..]);
    }
  }

  /** The first part is not empty, so the line opens as it does unfolded. */
  lemma FirstPartOpensLine(line: string)
    requires line != ""
    ensures FoldParts(line)[0] != "" && FoldParts(line)[0][0] == line[0]
  {
    var parts := FoldParts(line);
    FoldedInvariant(line);
    assert Flatten(parts) == parts[0] + Flatten(parts[1..]);
    if |parts| > 1 {
      assert parts[1] != "" && Width(parts[0]) + Octets(parts[1][0]) > Limit(0);
      assert Width(parts[0]) > 0;
    } else {
      assert parts[0] == line;
    }
  }

  lemma UnfoldNew(physical: seq<string>, first: string)
    requires first != "" && first[0] != ' ' && first[0] != '\t'
    ensures Unfold(physical + [first]) == Unfold(physical) + [first]
  {
    UnfoldAppend(physical, first);
  }

  /** Unfolding the physical lines of a printable line adds exactly that line. */
  lemma UnfoldPrinted(physical: seq<string>, line: string)
    requires Printable(line)
    ensures Unfold(physical + PrintedLines(line)) == Unfold(physical) + [line]
  {
    var parts := FoldParts(line);
    var first, rest := parts[0], parts[1..];
    FoldedFlatten(line);
    assert Flatten(parts) == first + Flatten(rest);
    FirstPartOpensLine(line);
    UnfoldNew(physical, first);
    UnfoldParts(physical + [first], Unfold(physical), first, rest);
    Associate(physical, [first], Spaced(rest));
  }

  lemma UnfoldOne(physical: seq<string>, logical: seq<string>, line: string)
    requires Printable(line) && Unfold(physical) == logical
    ensures Unfold(physical + PrintedLines(line)) == logical + [line]
  {
    UnfoldPrinted(physical, line);
  }

  lemma {:induction false} UnfoldAllPrinted(physical: seq<string>, logical: seq<string>, lines: seq<string>)
    requires forall i :: 0 <= i < |lines| ==> Printable(lines[i])
    requires Unfold(physical) == logical
    ensures Unfold(physical + AllPrintedLines(lines)) == logical + lines
    decreases |lines|
  {
    if lines == [] {
      assert physical + AllPrintedLines(lines) == physical;
    } else {
      var line, rest := lines[0], lines[1..];
      var printed := PrintedLines(line);
      UnfoldOne(physical, logical, line);
      UnfoldAllPrinted(physical + printed, logical + [line], rest);
      Associate(physical, printed, AllPrintedLines(rest));
      Associate(logical, [line], rest);
      assert lines == [line] + rest;
    }
  }

  lemma {:induction false} AllPrintedOneLine(lines: seq<string>)
    requires forall i :: 0 <= i < |lines| ==> Printable(lines[i])
    ensures forall i :: 0 <= i < |AllPrintedLines(lines)| ==> OneLine(AllPrintedLines(lines)[i])
  {
    if lines != [] {
      PrintedOneLine(lines[0]);
      AllPrintedOneLine(lines[1..]);
    }
  }

  /** Cutting the feed at CRLF and unfolding gives back exactly the lines that were printed. */
  lemma LinesRoundTrip(lines: seq<string>)
    requires lines != [] && forall i :: 0 <= i < |lines| ==> Printable(lines[i])
    ensures Unfold(PhysicalLines(Join(FoldAll(lines), CRLF) + CRLF)) == lines
  {
    JoinIsClosed(FoldAll(lines));
    FeedIsClosed(lines);
    AllPrintedOneLine(lines);
    PhysicalLinesOfClosed(AllPrintedLines(lines), "");
    assert Closed(AllPrintedLines(lines)) + "" == Closed(AllPrintedLines(lines));
    assert AllPrintedLines(lines) + PhysicalLines("") == AllPrintedLines(lines);
    UnfoldAllPrinted([], [], lines);
    assert [] + AllPrintedLines(lines) == AllPrintedLines(lines);
  }

  /** No physical line of the feed is over 75 octets. */
  lemma FeedLinesFit(lines: seq<string>, i: nat)
    requires lines != [] && forall k :: 0 <= k < |lines| ==> Printable(lines[k])
    requires i < |PhysicalLines(Join(FoldAll(lines), CRLF) + CRLF)|
    ensures Width(PhysicalLines(Join(FoldAll(lines), CRLF) + CRLF)[i]) <= 75
  {
    JoinIsClosed(FoldAll(lines));
    FeedIsClosed(lines);
    AllPrintedOneLine(lines);
    PhysicalLinesOfClosed(AllPrintedLines(lines), "");
    assert Closed(AllPrintedLines(lines)) + "" == Closed(AllPrintedLines(lines));
    assert AllPrintedLines(lines) + PhysicalLines("") == AllPrintedLines(lines);
    PrintedLinesFit(lines, i);
  }

  lemma {:induction false} PrintedLinesFit(lines: seq<string>, i: nat)
    requires i < |AllPrintedLines(lines)|
    ensures Width(AllPrintedLines(lines)[i]) <= 75
  {
    var first := PrintedLines(lines[0]);
    if i < |first| {
      FoldedFits(lines[0], i);
      assert first[i] == if i == 0 then FoldParts(lines[0])[i] else " " + FoldParts(lines[0])[i];
    } else {
      PrintedLinesFit(lines[1..], i - |first|);
    }
  }
}
