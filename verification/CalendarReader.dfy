/** A calendar application's reading of the feed, and the proof that it finds what the programme holds. */
module CalendarReader {
  import opened Wrappers
  import opened Runs
  import opened CalendarText
  import opened CalendarFold
  import opened CalendarFeed

  /** A TEXT property is `None` while it is missing, or when it cannot be unescaped. */
  datatype Event = Event(
    uid: string, stamp: string, start: string, end: string,
    summary: Option<string>, description: Option<string>, category: Option<string>)

  const BLANK: Event := Event("", "", "", "", None, None, None)

  /** The event being read, and those read before. */
  datatype Reading = Reading(open: Option<Event>, events: seq<Event>)

  /** A content line, cut at its first colon. */
  datatype ContentLine = ContentLine(name: string, value: string)

  function Parse(line: string): ContentLine {
    if line == "" then ContentLine("", "")
    else if line[0] == ':' then ContentLine("", line[1..])
    else
      var rest := Parse(line[1..]);
      ContentLine([line[0]] + rest.name, rest.value)
  }

  function WithProperty(e: Event, line: ContentLine): Event {
    if line.name == "UID" then e.(uid := line.value)
    else if line.name == "DTSTAMP" then e.(stamp := line.value)
    else if line.name == "DTSTART" then e.(start := line.value)
    else if line.name == "DTEND" then e.(end := line.value)
    else if line.name == "SUMMARY" then e.(summary := UnescapeText(line.value))
    else if line.name == "DESCRIPTION" then e.(description := UnescapeText(line.value))
    else if line.name == "CATEGORIES" then e.(category := UnescapeText(line.value))
    else e
  }

  function ReadLine(r: Reading, line: ContentLine): Reading {
    if line == ContentLine("BEGIN", "VEVENT") then r.(open := Some(BLANK))
    else if r.open.None? then r
    else if line == ContentLine("END", "VEVENT") then Reading(None, r.events + [r.open.value])
    else r.(open := Some(WithProperty(r.open.value, line)))
  }

  function ReadLines(r: Reading, lines: seq<string>): Reading
    decreases |lines|
  {
    if lines == [] then r else ReadLines(ReadLine(r, Parse(lines[0])), lines[1..])
  }

  function ReadFeed(feed: string): seq<Event> {
    ReadLines(Reading(None, []), Unfold(PhysicalLines(feed))).events
  }

  /** The event an entry stands for: its texts with line breaks as LF, its times in UTC. */
  function EventOf(e: Entry, w: Wording, now: Instant): Event {
    Event(SafeKey(e.key) + "@stream247", UtcText(now), UtcText(e.startsAt), UtcText(e.endsAt),
          Some(NormalizeBreaks(e.title)),
          if Description(e, w) != "" then Some(NormalizeBreaks(Description(e, w))) else None,
          if e.category != "" then Some(NormalizeBreaks(e.category)) else None)
  }

  function EventsOf(entries: seq<Entry>, w: Wording, now: Instant): seq<Event> {
    seq(|entries|, i requires 0 <= i < |entries| => EventOf(entries[i], w, now))
  }

  // ----- every built line can be printed -----

  lemma {:induction false} ParseNamed(name: string, value: string)
    requires ':' !in name
    ensures Parse(name + ":" + value) == ContentLine(name, value)
  {
    var line := name + ":" + value;
    if name == "" {
      assert line[1..] == value;
    } else {
      assert name[0] in name;
      assert line[1..] == name[1..] + ":" + value;
      ParseNamed(name[1..], value);
      assert name == [name[0]] + name[1..];
    }
  }

  lemma DigitsOneLine(s: string)
    requires Digits(s)
    ensures OneLine(s)
  {
    forall c | c in s ensures c != '\r' && c != '\n' {
      assert IsDigit(c);
    }
  }

  lemma UtcOneLine(t: Instant)
    ensures OneLine(UtcText(t))
  {
    DigitsOneLine(t.year);
    DigitsOneLine(t.month);
    DigitsOneLine(t.day);
    DigitsOneLine(t.hour);
    DigitsOneLine(t.minute);
    DigitsOneLine(t.second);
    var date, time := t.year + t.month + t.day, t.hour + t.minute + t.second;
    OneLineConcat(t.year, t.month);
    OneLineConcat(t.year + t.month, t.day);
    OneLineConcat(t.hour, t.minute);
    OneLineConcat(t.hour + t.minute, t.second);
    OneLineConcat(date, "T");
    OneLineConcat(date + "T", time);
    OneLineConcat(date + "T" + time, "Z");
    assert UtcText(t) == date + "T" + time + "Z";
  }

  lemma SafeKeyOneLine(key: string)
    ensures OneLine(SafeKey(key))
  {
  }

  /** A property is printable when its name is and its value stays on the line. */
  lemma PropertyPrintable(name: string, value: string)
    requires Printable(name) && OneLine(value)
    ensures Printable(name + value)
  {
    OneLineConcat(name, value);
  }

  lemma BeginCalendarPrintable()
    ensures Printable("BEGIN:VCALENDAR")
  {
  }

  lemma VersionPrintable()
    ensures Printable("VERSION:2.0")
  {
  }

  lemma ProductPrintable()
    ensures Printable("PRODID:-//Stream247//Public programme//EN")
  {
  }

  lemma ScalePrintable()
    ensures Printable("CALSCALE:GREGORIAN")
  {
  }

  lemma MethodPrintable()
    ensures Printable("METHOD:PUBLISH")
  {
  }

  lemma NamePrintable()
    ensures Printable("X-WR-CALNAME:")
  {
  }

  lemma ZonePrintable()
    ensures Printable("X-WR-TIMEZONE:")
  {
  }

  lemma RefreshPrintable()
    ensures Printable("REFRESH-INTERVAL;VALUE=DURATION:PT1H")
  {
  }

  lemma PublishedPrintable()
    ensures Printable("X-PUBLISHED-TTL:PT1H")
  {
  }

  lemma BeginEventPrintable()
    ensures Printable("BEGIN:VEVENT")
  {
  }

  lemma UidNamePrintable()
    ensures Printable("UID:")
  {
  }

  lemma StampNamePrintable()
    ensures Printable("DTSTAMP:")
  {
  }

  lemma StartNamePrintable()
    ensures Printable("DTSTART:")
  {
  }

  lemma EndNamePrintable()
    ensures Printable("DTEND:")
  {
  }

  lemma SummaryNamePrintable()
    ensures Printable("SUMMARY:")
  {
  }

  lemma DescriptionNamePrintable()
    ensures Printable("DESCRIPTION:")
  {
  }

  lemma CategoriesNamePrintable()
    ensures Printable("CATEGORIES:")
  {
  }

  lemma TransparentPrintable()
    ensures Printable("TRANSP:TRANSPARENT")
  {
  }

  lemma EndEventPrintable()
    ensures Printable("END:VEVENT")
  {
  }

  lemma EndCalendarPrintable()
    ensures Printable("END:VCALENDAR")
  {
  }

  predicate AllPrintable(lines: seq<string>) { forall i :: 0 <= i < |lines| ==> Printable(lines[i]) }

  lemma TextPrintable(name: string, text: string)
    requires Printable(name)
    ensures Printable(name + EscapeText(text))
  {
    PrintedValueIsOne(text);
    PropertyPrintable(name, EscapeText(text));
  }

  lemma HeadPrintable(w: Wording)
    ensures AllPrintable(HeadLines(w))
  {
    BeginCalendarPrintable();
    VersionPrintable();
    ProductPrintable();
    ScalePrintable();
    MethodPrintable();
    NamePrintable();
    ZonePrintable();
    RefreshPrintable();
    PublishedPrintable();
    TextPrintable("X-WR-CALNAME:", w.calendarName);
    TextPrintable("X-WR-TIMEZONE:", w.timeZone);
    NinePrintable(HeadLines(w));
  }

  lemma NinePrintable(lines: seq<string>)
    requires |lines| == 9
    requires Printable(lines[0]) && Printable(lines[1]) && Printable(lines[2]) && Printable(lines[3])
      && Printable(lines[4])
    requires Printable(lines[5]) && Printable(lines[6]) && Printable(lines[7]) && Printable(lines[8])
    ensures AllPrintable(lines)
  {
  }

  lemma TimePrintable(name: string, t: Instant)
    requires Printable(name)
    ensures Printable(name + FormatUtc(IsoText(t)))
  {
    FormatUtcIs(t);
    UtcOneLine(t);
    PropertyPrintable(name, UtcText(t));
  }

  lemma UidPrintable(key: string)
    ensures Printable("UID:" + SafeKey(key) + "@stream247")
  {
    UidNamePrintable();
    SafeKeyOneLine(key);
    PropertyPrintable("UID:", SafeKey(key));
    PropertyPrintable("UID:" + SafeKey(key), "@stream247");
  }

  lemma SixPrintable(lines: seq<string>)
    requires |lines| == 6
    requires Printable(lines[0]) && Printable(lines[1]) && Printable(lines[2])
    requires Printable(lines[3]) && Printable(lines[4]) && Printable(lines[5])
    ensures AllPrintable(lines)
  {
  }

  lemma EventHeadPrintable(e: Entry, now: Instant)
    ensures AllPrintable(EventHead(e, FormatUtc(IsoText(now))))
  {
    BeginEventPrintable();
    StampNamePrintable();
    StartNamePrintable();
    EndNamePrintable();
    SummaryNamePrintable();
    UidPrintable(e.key);
    TimePrintable("DTSTAMP:", now);
    TimePrintable("DTSTART:", e.startsAt);
    TimePrintable("DTEND:", e.endsAt);
    TextPrintable("SUMMARY:", e.title);
    SixPrintable(EventHead(e, FormatUtc(IsoText(now))));
  }

  lemma EventTextsPrintable(e: Entry, w: Wording)
    ensures AllPrintable(EventTexts(e, w))
  {
    DescriptionNamePrintable();
    CategoriesNamePrintable();
    TextPrintable("DESCRIPTION:", Description(e, w));
    TextPrintable("CATEGORIES:", e.category);
  }

  lemma TailPrintable()
    ensures AllPrintable(["TRANSP:TRANSPARENT", "END:VEVENT"])
  {
    TransparentPrintable();
    EndEventPrintable();
  }

  lemma EventPrintable(e: Entry, w: Wording, now: Instant)
    ensures AllPrintable(EventLines(e, w, FormatUtc(IsoText(now))))
  {
    EventHeadPrintable(e, now);
    EventTextsPrintable(e, w);
    TailPrintable();
    PiecesPrintable(EventHead(e, FormatUtc(IsoText(now))), EventTexts(e, w), ["TRANSP:TRANSPARENT", "END:VEVENT"]);
  }

  lemma PiecesPrintable(a: seq<string>, b: seq<string>, c: seq<string>)
    requires AllPrintable(a) && AllPrintable(b) && AllPrintable(c)
    ensures AllPrintable(a + b + c)
  {
  }

  lemma {:induction false} FlattenPrintable(parts: seq<seq<string>>)
    requires forall i :: 0 <= i < |parts| ==> AllPrintable(parts[i])
    ensures AllPrintable(Flatten(parts))
  {
    if parts != [] {
      assert AllPrintable(parts[0]);
      FlattenPrintable(parts[1..]);
    }
  }

  lemma {:induction false} EventsPrintable(entries: seq<Entry>, w: Wording, now: Instant)
    ensures forall i :: 0 <= i < |Events(entries, w, FormatUtc(IsoText(now)))| ==>
      AllPrintable(Events(entries, w, FormatUtc(IsoText(now)))[i])
  {
    if entries != [] {
      EventPrintable(entries[0], w, now);
      EventsPrintable(entries[1..], w, now);
    }
  }

  /** No built line holds a CR or LF, is empty, or opens like a continuation. */
  lemma CalendarLinesPrintable(entries: seq<Entry>, w: Wording, now: Instant)
    ensures AllPrintable(CalendarLines(entries, w, now))
  {
    var stamp := FormatUtc(IsoText(now));
    var events := Events(entries, w, stamp);
    HeadPrintable(w);
    EventsPrintable(entries, w, now);
    FlattenPrintable(events);
    EndCalendarPrintable();
    PiecesPrintable(HeadLines(w), Flatten(events), ["END:VCALENDAR"]);
  }

  // ----- reading the events back -----

  lemma {:induction false} ReadConcat(r: Reading, a: seq<string>, b: seq<string>)
    ensures ReadLines(r, a + b) == ReadLines(ReadLines(r, a), b)
    decreases |a|
  {
    if a == [] {
      assert a + b == b;
    } else {
      ReadConcat(ReadLine(r, Parse(a[0])), a[1..], b);
      assert (a + b)[1..] == a[1..] + b;
    }
  }

  lemma ReadFirst(r: Reading, line: string, rest: seq<string>)
    ensures ReadLines(r, [line] + rest) == ReadLines(ReadLine(r, Parse(line)), rest)
  {
    assert ([line] + rest)[1..] == rest;
  }

  /** One property line of the event being read. */
  lemma ReadProperty(events: seq<Event>, open: Event, name: string, value: string, rest: seq<string>)
    requires ':' !in name && name != "BEGIN" && name != "END"
    ensures ReadLines(Reading(Some(open), events), [name + ":" + value] + rest)
         == ReadLines(Reading(Some(WithProperty(open, ContentLine(name, value))), events), rest)
  {
    ReadFirst(Reading(Some(open), events), name + ":" + value, rest);
    ParseNamed(name, value);
  }

  lemma ReadBegin(r: Reading, rest: seq<string>)
    ensures ReadLines(r, ["BEGIN:VEVENT"] + rest) == ReadLines(r.(open := Some(BLANK)), rest)
  {
    ParseNamed("BEGIN", "VEVENT");
    assert "BEGIN" + ":" + "VEVENT" == "BEGIN:VEVENT";
    ReadFirst(r, "BEGIN:VEVENT", rest);
  }

  lemma ReadEnd(events: seq<Event>, open: Event)
    ensures ReadLines(Reading(Some(open), events), ["END:VEVENT"]) == Reading(None, events + [open])
  {
    ParseNamed("END", "VEVENT");
    assert "END" + ":" + "VEVENT" == "END:VEVENT";
    ReadFirst(Reading(Some(open), events), "END:VEVENT", []);
    assert ["END:VEVENT"] + [] == ["END:VEVENT"];
  }

  /** Nothing that is read has a name beginning with a T. */
  lemma NotRead(r: Reading, line: string)
    requires line != "" && line[0] == 'T'
    ensures ReadLine(r, Parse(line)) == r
  {
    var name := Parse(line).name;
    assert name == "" || name[0] == 'T';
    assert "BEGIN"[0] == 'B' && "END"[0] == 'E' && "UID"[0] == 'U' && "DTSTAMP"[0] == 'D' && "DTSTART"[0] == 'D';
    assert "DTEND"[0] == 'D' && "SUMMARY"[0] == 'S' && "DESCRIPTION"[0] == 'D' && "CATEGORIES"[0] == 'C';
  }

  /** Transparency is not read, so the event stays as it is. */
  lemma ReadTail(events: seq<Event>, open: Event)
    ensures ReadLines(Reading(Some(open), events), ["TRANSP:TRANSPARENT", "END:VEVENT"])
      == Reading(None, events + [open])
  {
    var line := "TRANSP:TRANSPARENT";
    NotRead(Reading(Some(open), events), line);
    ReadFirst(Reading(Some(open), events), line, ["END:VEVENT"]);
    assert [line, "END:VEVENT"] == [line] + ["END:VEVENT"];
    ReadEnd(events, open);
  }

  /** The event as far as its head says. */
  function HeadEvent(e: Entry, now: Instant): Event {
    Event(SafeKey(e.key) + "@stream247", UtcText(now), UtcText(e.startsAt), UtcText(e.endsAt),
          Some(NormalizeBreaks(e.title)), None, None)
  }

  lemma ReadTimes(events: seq<Event>, open: Event, stamp: string, start: string, end: string, rest: seq<string>)
    ensures ReadLines(Reading(Some(open), events),
      ["DTSTAMP:" + stamp] + (["DTSTART:" + start] + (["DTEND:" + end] + rest)))
         == ReadLines(Reading(Some(open.(stamp := stamp, start := start, end := end)), events), rest)
  {
    ReadProperty(events, open, "DTSTAMP", stamp, ["DTSTART:" + start] + (["DTEND:" + end] + rest));
    assert "DTSTAMP" + ":" + stamp == "DTSTAMP:" + stamp;
    ReadProperty(events, open.(stamp := stamp), "DTSTART", start, ["DTEND:" + end] + rest);
    assert "DTSTART" + ":" + start == "DTSTART:" + start;
    ReadProperty(events, open.(stamp := stamp, start := start), "DTEND", end, rest);
    assert "DTEND" + ":" + end == "DTEND:" + end;
  }

  /** The head of an event, one line in front of the rest at a time. */
  lemma HeadNested(uid: string, stamp: string, start: string, end: string, summary: string)
    ensures ["BEGIN:VEVENT", "UID:" + uid, "DTSTAMP:" + stamp, "DTSTART:" + start, "DTEND:" + end, summary]
         == ["BEGIN:VEVENT"]
           + (["UID:" + uid] + (["DTSTAMP:" + stamp] + (["DTSTART:" + start] + (["DTEND:" + end] + [summary]))))
  {
  }

  lemma ReadUidLine(events: seq<Event>, open: Event, uid: string, rest: seq<string>)
    ensures ReadLines(Reading(Some(open), events), ["UID:" + uid] + rest)
      == ReadLines(Reading(Some(open.(uid := uid)), events), rest)
  {
    ReadProperty(events, open, "UID", uid, rest);
    assert "UID" + ":" + uid == "UID:" + uid;
  }

  lemma ReadUid(events: seq<Event>, uid: string, rest: seq<string>)
    ensures ReadLines(Reading(None, events), ["BEGIN:VEVENT"] + (["UID:" + uid] + rest))
         == ReadLines(Reading(Some(BLANK.(uid := uid)), events), rest)
  {
    var more := ["UID:" + uid] + rest;
    ReadBegin(Reading(None, events), more);
    ReadUidLine(events, BLANK, uid, rest);
  }

  lemma HeadLinesOf(e: Entry, now: Instant)
    ensures EventHead(e, FormatUtc(IsoText(now)))
         == ["BEGIN:VEVENT", "UID:" + (SafeKey(e.key) + "@stream247"), "DTSTAMP:" + UtcText(now),
             "DTSTART:" + UtcText(e.startsAt), "DTEND:" + UtcText(e.endsAt), "SUMMARY:" + EscapeText(e.title)]
  {
    FormatUtcIs(now);
    FormatUtcIs(e.startsAt);
    FormatUtcIs(e.endsAt);
    assert "UID:" + SafeKey(e.key) + "@stream247" == "UID:" + (SafeKey(e.key) + "@stream247");
  }

  lemma ReadNested(events: seq<Event>, uid: string, stamp: string, start: string, end: string, title: string)
    ensures ReadLines(Reading(None, events),
                      ["BEGIN:VEVENT"] + (["UID:" + uid] + (["DTSTAMP:" + stamp] + (["DTSTART:" + start]
                        + (["DTEND:" + end] + ["SUMMARY:" + EscapeText(title)])))))
         == Reading(Some(Event(uid, stamp, start, end, Some(NormalizeBreaks(title)), None, None)), events)
  {
    var summary := ["SUMMARY:" + EscapeText(title)];
    var times := ["DTSTAMP:" + stamp] + (["DTSTART:" + start] + (["DTEND:" + end] + summary));
    var named := BLANK.(uid := uid);
    ReadUid(events, uid, times);
    ReadTimes(events, named, stamp, start, end, summary);
    ReadSummary(events, named.(stamp := stamp, start := start, end := end), title);
  }

  lemma ReadHead(events: seq<Event>, e: Entry, now: Instant)
    ensures ReadLines(Reading(None, events), EventHead(e, FormatUtc(IsoText(now))))
      == Reading(Some(HeadEvent(e, now)), events)
  {
    var uid, stamp, start, end := SafeKey(e.key) + "@stream247", UtcText(now), UtcText(e.startsAt), UtcText(e.endsAt);
    HeadLinesOf(e, now);
    HeadNested(uid, stamp, start, end, "SUMMARY:" + EscapeText(e.title));
    ReadNested(events, uid, stamp, start, end, e.title);
  }

  lemma ReadSummary(events: seq<Event>, open: Event, title: string)
    ensures ReadLines(Reading(Some(open), events), ["SUMMARY:" + EscapeText(title)])
         == Reading(Some(open.(summary := Some(NormalizeBreaks(title)))), events)
  {
    TextRoundTrip(title);
    ReadProperty(events, open, "SUMMARY", EscapeText(title), []);
    assert "SUMMARY" + ":" + EscapeText(title) == "SUMMARY:" + EscapeText(title);
    assert ["SUMMARY:" + EscapeText(title)] + [] == ["SUMMARY:" + EscapeText(title)];
  }

  lemma ReadDescription(events: seq<Event>, open: Event, text: string)
    ensures ReadLines(Reading(Some(open), events), ["DESCRIPTION:" + EscapeText(text)])
         == Reading(Some(open.(description := Some(NormalizeBreaks(text)))), events)
  {
    TextRoundTrip(text);
    ReadProperty(events, open, "DESCRIPTION", EscapeText(text), []);
    assert "DESCRIPTION" + ":" + EscapeText(text) == "DESCRIPTION:" + EscapeText(text);
    assert ["DESCRIPTION:" + EscapeText(text)] + [] == ["DESCRIPTION:" + EscapeText(text)];
  }

  lemma ReadCategory(events: seq<Event>, open: Event, text: string)
    ensures ReadLines(Reading(Some(open), events), ["CATEGORIES:" + EscapeText(text)])
         == Reading(Some(open.(category := Some(NormalizeBreaks(text)))), events)
  {
    TextRoundTrip(text);
    ReadProperty(events, open, "CATEGORIES", EscapeText(text), []);
    assert "CATEGORIES" + ":" + EscapeText(text) == "CATEGORIES:" + EscapeText(text);
    assert ["CATEGORIES:" + EscapeText(text)] + [] == ["CATEGORIES:" + EscapeText(text)];
  }

  lemma ReadTexts(events: seq<Event>, open: Event, e: Entry, w: Wording)
    requires open.description.None? && open.category.None?
    ensures ReadLines(Reading(Some(open), events), EventTexts(e, w))
         == Reading(Some(open.(
              description := if Description(e, w) != "" then Some(NormalizeBreaks(Description(e, w))) else None,
              category := if e.category != "" then Some(NormalizeBreaks(e.category)) else None)), events)
  {
    var text := Description(e, w);
    var d := if text != "" then ["DESCRIPTION:" + EscapeText(text)] else [];
    var c := if e.category != "" then ["CATEGORIES:" + EscapeText(e.category)] else [];
    var described := if text != "" then open.(description := Some(NormalizeBreaks(text))) else open;
    ReadConcat(Reading(Some(open), events), d, c);
    ReadDescription(events, open, text);
    ReadCategory(events, described, e.category);
  }

  /** The lines of an event are read as the event they were printed from. */
  lemma ReadEvent(events: seq<Event>, e: Entry, w: Wording, now: Instant)
    ensures ReadLines(Reading(None, events), EventLines(e, w, FormatUtc(IsoText(now))))
      == Reading(None, events + [EventOf(e, w, now)])
  {
    var head, texts, tail := EventHead(e, FormatUtc(IsoText(now))), EventTexts(e, w),
      ["TRANSP:TRANSPARENT", "END:VEVENT"];
    ReadConcat(Reading(None, events), head + texts, tail);
    ReadConcat(Reading(None, events), head, texts);
    ReadHead(events, e, now);
    ReadTexts(events, HeadEvent(e, now), e, w);
    ReadTail(events, EventOf(e, w, now));
  }

  lemma ReadFirstEvent(events: seq<Event>, entries: seq<Entry>, w: Wording, now: Instant)
    requires entries != []
    ensures ReadLines(Reading(None, events), Events(entries, w, FormatUtc(IsoText(now)))[0])
         == Reading(None, events + [EventOf(entries[0], w, now)])
  {
    ReadEvent(events, entries[0], w, now);
    assert Events(entries, w, FormatUtc(IsoText(now)))[0] == EventLines(entries[0], w, FormatUtc(IsoText(now)));
  }

  lemma EventsRest(entries: seq<Entry>, w: Wording, stamp: string)
    requires entries != []
    ensures Events(entries, w, stamp)[1..] == Events(entries[1..], w, stamp)
  {
  }

  lemma EventsOfFirst(entries: seq<Entry>, w: Wording, now: Instant)
    requires entries != []
    ensures EventsOf(entries, w, now) == [EventOf(entries[0], w, now)] + EventsOf(entries[1..], w, now)
  {
  }

  lemma {:induction false} ReadEvents(events: seq<Event>, entries: seq<Entry>, w: Wording, now: Instant)
    ensures ReadLines(Reading(None, events), Flatten(Events(entries, w, FormatUtc(IsoText(now)))))
         == Reading(None, events + EventsOf(entries, w, now))
    decreases |entries|
  {
    if entries == [] {
      assert events + EventsOf(entries, w, now) == events;
    } else {
      var printed := Events(entries, w, FormatUtc(IsoText(now)));
      ReadFirstEvent(events, entries, w, now);
      EventsRest(entries, w, FormatUtc(IsoText(now)));
      ReadConcat(Reading(None, events), printed[0], Flatten(printed[1..]));
      ReadEvents(events + [EventOf(entries[0], w, now)], entries[1..], w, now);
      EventsOfFirst(entries, w, now);
      Associate(events, [EventOf(entries[0], w, now)], EventsOf(entries[1..], w, now));
    }
  }

  /** A line that begins no event. */
  predicate Outside(line: string) { Parse(line) != ContentLine("BEGIN", "VEVENT") }

  lemma {:induction false} ReadOutside(events: seq<Event>, lines: seq<string>)
    requires forall i :: 0 <= i < |lines| ==> Outside(lines[i])
    ensures ReadLines(Reading(None, events), lines) == Reading(None, events)
    decreases |lines|
  {
    if lines != [] {
      ReadOutside(events, lines[1..]);
    }
  }

  /** Only a line that begins with a B can begin an event. */
  lemma OpensOtherwise(line: string)
    requires line != "" && line[0] != 'B'
    ensures Outside(line)
  {
    var name := Parse(line).name;
    assert name == "" || name[0] == line[0];
    assert "BEGIN"[0] == 'B';
  }

  lemma {:induction false} ParseLength(line: string)
    ensures Parse(line).value != "" ==> |Parse(line).name| + 1 + |Parse(line).value| == |line|
  {
    if line != "" && line[0] != ':' {
      ParseLength(line[1..]);
    }
  }

  lemma CalendarIsOutside()
    ensures Outside("BEGIN:VCALENDAR")
  {
    ParseLength("BEGIN:VCALENDAR");
  }

  lemma HeadOpensOtherwise(w: Wording, i: nat)
    requires 0 < i < |HeadLines(w)|
    ensures HeadLines(w)[i] != "" && HeadLines(w)[i][0] != 'B'
  {
  }

  lemma HeadLinesOutside(w: Wording)
    ensures forall i :: 0 <= i < |HeadLines(w)| ==> Outside(HeadLines(w)[i])
  {
    var lines := HeadLines(w);
    CalendarIsOutside();
    forall i | 0 < i < |lines| ensures Outside(lines[i]) {
      HeadOpensOtherwise(w, i);
      OpensOtherwise(lines[i]);
    }
  }

  lemma HeadIsOutside(w: Wording, events: seq<Event>)
    ensures ReadLines(Reading(None, events), HeadLines(w)) == Reading(None, events)
  {
    HeadLinesOutside(w);
    ReadOutside(events, HeadLines(w));
  }

  lemma ReadThree(head: seq<string>, events: seq<string>, tail: seq<string>, found: seq<Event>)
    requires ReadLines(Reading(None, []), head) == Reading(None, [])
    requires ReadLines(Reading(None, []), events) == Reading(None, found)
    requires ReadLines(Reading(None, found), tail) == Reading(None, found)
    ensures ReadLines(Reading(None, []), head + events + tail) == Reading(None, found)
  {
    ReadConcat(Reading(None, []), head + events, tail);
    ReadConcat(Reading(None, []), head, events);
  }

  lemma TailIsOutside(found: seq<Event>)
    ensures ReadLines(Reading(None, found), ["END:VCALENDAR"]) == Reading(None, found)
  {
    OpensOtherwise("END:VCALENDAR");
    ReadOutside(found, ["END:VCALENDAR"]);
  }

  lemma ReadAllEvents(entries: seq<Entry>, w: Wording, now: Instant)
    ensures ReadLines(Reading(None, []), Flatten(Events(entries, w, FormatUtc(IsoText(now)))))
      == Reading(None, EventsOf(entries, w, now))
  {
    ReadEvents([], entries, w, now);
    assert [] + EventsOf(entries, w, now) == EventsOf(entries, w, now);
  }

  lemma ReadCalendar(entries: seq<Entry>, w: Wording, now: Instant)
    ensures ReadLines(Reading(None, []), CalendarLines(entries, w, now)) == Reading(None, EventsOf(entries, w, now))
  {
    var head, events, tail := HeadLines(w), Flatten(Events(entries, w, FormatUtc(IsoText(now)))), ["END:VCALENDAR"];
    HeadIsOutside(w, []);
    ReadAllEvents(entries, w, now);
    TailIsOutside(EventsOf(entries, w, now));
    ReadThree(head, events, tail, EventsOf(entries, w, now));
  }

  /**
   * Reading the printed feed gives back its lines exactly, and one event per entry, in order: its texts with
   * their line breaks as LF, its times in UTC, and no event besides.
   */
  lemma FeedReadsBack(entries: seq<Entry>, w: Wording, now: Instant)
    ensures var feed := Join(FoldAll(CalendarLines(entries, w, now)), CRLF) + CRLF;
      && Unfold(PhysicalLines(feed)) == CalendarLines(entries, w, now)
      && ReadFeed(feed) == EventsOf(entries, w, now)
  {
    CalendarLinesPrintable(entries, w, now);
    LinesRoundTrip(CalendarLines(entries, w, now));
    ReadCalendar(entries, w, now);
  }

  // ----- what the feed says, in the programme's own fields -----

  /** An entry has something to say beside its title: the dated word, or a category that is not the title. */
  predicate SaysDated(e: Entry, w: Wording) { e.dated && w.datedWord != "" }

  predicate SaysCategory(e: Entry) { e.category != "" && e.category != e.title }

  /** What a reader is to find of an entry. */
  ghost predicate Tells(event: Event, e: Entry, w: Wording, now: Instant) {
    && event.uid == SafeKey(e.key) + "@stream247"
    && event.stamp == now.year + now.month + now.day + "T" + now.hour + now.minute + now.second + "Z"
    && event.start == e.startsAt.year + e.startsAt.month + e.startsAt.day + "T"
                      + e.startsAt.hour + e.startsAt.minute + e.startsAt.second + "Z"
    && event.end == e.endsAt.year + e.endsAt.month + e.endsAt.day + "T"
                    + e.endsAt.hour + e.endsAt.minute + e.endsAt.second + "Z"
    && event.summary == Some(NormalizeBreaks(e.title))
    && (event.category.Some? <==> e.category != "")
    && (e.category != "" ==> event.category == Some(NormalizeBreaks(e.category)))
    && Describes(event.description, e, w)
  }

  /** The description is the dated word, the category, or both with a middle dot between; or there is none. */
  ghost predicate Describes(text: Option<string>, e: Entry, w: Wording) {
    && (text.Some? <==> SaysDated(e, w) || SaysCategory(e))
    && (SaysDated(e, w) && !SaysCategory(e) ==> text == Some(NormalizeBreaks(w.datedWord)))
    && (!SaysDated(e, w) && SaysCategory(e) ==> text == Some(NormalizeBreaks(e.category)))
    && (SaysDated(e, w) && SaysCategory(e) ==>
          text == Some(NormalizeBreaks(w.datedWord + " \U{00B7} " + e.category)))
  }

  lemma DescriptionDescribes(e: Entry, w: Wording)
    ensures Describes(if Description(e, w) != "" then Some(NormalizeBreaks(Description(e, w))) else None, e, w)
  {
    if SaysDated(e, w) && SaysCategory(e) {
      assert Description(e, w) == w.datedWord + " \U{00B7} " + e.category;
      assert |Description(e, w)| > 0;
    }
  }

  lemma EventTells(e: Entry, w: Wording, now: Instant)
    ensures Tells(EventOf(e, w, now), e, w, now)
  {
    DescriptionDescribes(e, w);
  }

  /** The reader of the feed finds one event for each entry, in order, that tells its fields and the dated word. */
  lemma FeedTellsEntries(entries: seq<Entry>, w: Wording, now: Instant)
    ensures var events := ReadFeed(Join(FoldAll(CalendarLines(entries, w, now)), CRLF) + CRLF);
      |events| == |entries| && forall i :: 0 <= i < |entries| ==> Tells(events[i], entries[i], w, now)
  {
    FeedReadsBack(entries, w, now);
    forall i | 0 <= i < |entries| ensures Tells(EventsOf(entries, w, now)[i], entries[i], w, now) {
      EventTells(entries[i], w, now);
    }
  }

  /** The text of a calendar property: the first of its name before any event. */
  function Header(lines: seq<string>, name: string): Option<string> {
    if lines == [] || !Outside(lines[0]) then None
    else if Parse(lines[0]).name == name then UnescapeText(Parse(lines[0]).value)
    else Header(lines[1..], name)
  }

  function ReadHeader(feed: string, name: string): Option<string> { Header(Unfold(PhysicalLines(feed)), name) }

  lemma {:induction false} HeaderAt(lines: seq<string>, name: string, k: nat)
    requires k < |lines| && Outside(lines[k]) && Parse(lines[k]).name == name
    requires forall i :: 0 <= i < k ==> Outside(lines[i]) && Parse(lines[i]).name != name
    ensures Header(lines, name) == UnescapeText(Parse(lines[k]).value)
  {
    if k > 0 {
      HeaderAt(lines[1..], name, k - 1);
    }
  }

  lemma OtherName(line: string, name: string)
    requires line != "" && name != "" && line[0] != name[0]
    ensures Parse(line).name != name
  {
    assert Parse(line).name == "" || Parse(line).name[0] == line[0];
  }

  lemma HeadOpens(w: Wording, i: nat)
    requires i < 5
    ensures HeadLines(w)[i] != "" && HeadLines(w)[i][0] != 'X'
  {
  }

  lemma NameLine(w: Wording)
    ensures Parse(HeadLines(w)[5]) == ContentLine("X-WR-CALNAME", EscapeText(w.calendarName))
  {
    ParseNamed("X-WR-CALNAME", EscapeText(w.calendarName));
    assert "X-WR-CALNAME" + ":" == "X-WR-CALNAME:";
  }

  lemma ZoneLine(w: Wording)
    ensures Parse(HeadLines(w)[6]) == ContentLine("X-WR-TIMEZONE", EscapeText(w.timeZone))
  {
    ParseNamed("X-WR-TIMEZONE", EscapeText(w.timeZone));
    assert "X-WR-TIMEZONE" + ":" == "X-WR-TIMEZONE:";
  }

  lemma NamesDiffer()
    ensures "X-WR-CALNAME" != "X-WR-TIMEZONE"
  {
    assert "X-WR-CALNAME"[5] != "X-WR-TIMEZONE"[5];
  }

  lemma HeadOfCalendar(entries: seq<Entry>, w: Wording, now: Instant)
    ensures var head, lines := HeadLines(w), CalendarLines(entries, w, now);
      |lines| >= |head| && forall i :: 0 <= i < |head| ==> lines[i] == head[i]
  {
  }

  lemma FirstFiveElsewhere(w: Wording, name: string)
    requires name != "" && name[0] == 'X'
    ensures forall i :: 0 <= i < 5 ==> Parse(HeadLines(w)[i]).name != name
  {
    forall i | 0 <= i < 5 ensures Parse(HeadLines(w)[i]).name != name {
      HeadOpens(w, i);
      OtherName(HeadLines(w)[i], name);
    }
  }

  /** A property that the head gives at place `k`, and nowhere before. */
  ghost predicate GivenAt(head: seq<string>, name: string, k: nat, value: string) {
    && k < |head| && Parse(head[k]) == ContentLine(name, EscapeText(value))
    && forall i :: 0 <= i < k ==> Parse(head[i]).name != name
  }

  lemma NameGiven(w: Wording)
    ensures GivenAt(HeadLines(w), "X-WR-CALNAME", 5, w.calendarName)
  {
    FirstFiveElsewhere(w, "X-WR-CALNAME");
    NameLine(w);
  }

  lemma SixElsewhere(w: Wording, name: string, other: string)
    requires name != "" && name[0] == 'X' && name != other && Parse(HeadLines(w)[5]).name == other
    ensures forall i :: 0 <= i < 6 ==> Parse(HeadLines(w)[i]).name != name
  {
    FirstFiveElsewhere(w, name);
  }

  lemma ZoneGiven(w: Wording)
    ensures GivenAt(HeadLines(w), "X-WR-TIMEZONE", 6, w.timeZone)
  {
    NamesDiffer();
    NameLine(w);
    SixElsewhere(w, "X-WR-TIMEZONE", "X-WR-CALNAME");
    ZoneLine(w);
  }

  lemma GivenIsRead(head: seq<string>, lines: seq<string>, name: string, k: nat, value: string)
    requires GivenAt(head, name, k, value) && |lines| >= |head|
    requires forall i :: 0 <= i < |head| ==> lines[i] == head[i] && Outside(head[i])
    ensures Header(lines, name) == Some(NormalizeBreaks(value))
  {
    HeaderAt(lines, name, k);
    TextRoundTrip(value);
  }

  /** And it finds the calendar's name and zone. */
  lemma FeedTellsCalendar(entries: seq<Entry>, w: Wording, now: Instant)
    ensures var feed := Join(FoldAll(CalendarLines(entries, w, now)), CRLF) + CRLF;
      && ReadHeader(feed, "X-WR-CALNAME") == Some(NormalizeBreaks(w.calendarName))
      && ReadHeader(feed, "X-WR-TIMEZONE") == Some(NormalizeBreaks(w.timeZone))
  {
    var lines := CalendarLines(entries, w, now);
    FeedReadsBack(entries, w, now);
    HeadOfCalendar(entries, w, now);
    HeadLinesOutside(w);
    NameGiven(w);
    ZoneGiven(w);
    GivenIsRead(HeadLines(w), lines, "X-WR-CALNAME", 5, w.calendarName);
    GivenIsRead(HeadLines(w), lines, "X-WR-TIMEZONE", 6, w.timeZone);
  }

  /** And no physical line of it is over 75 octets. */
  lemma FeedFits(entries: seq<Entry>, w: Wording, now: Instant, i: nat)
    requires i < |PhysicalLines(Join(FoldAll(CalendarLines(entries, w, now)), CRLF) + CRLF)|
    ensures Width(PhysicalLines(Join(FoldAll(CalendarLines(entries, w, now)), CRLF) + CRLF)[i]) <= 75
  {
    CalendarLinesPrintable(entries, w, now);
    FeedLinesFit(CalendarLines(entries, w, now), i);
  }
}
