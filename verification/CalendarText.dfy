/**
 * TEXT values of the calendar feed: `escapeText` of apps/web/lib/public-programme-calendar.ts, and the
 * reading of such a value that section 3.3.11 of RFC 5545 defines.
 */
module CalendarText {
  import opened Wrappers
  import opened Runs

  function ReplaceOne(x: char, c: char, with: string): string { if x == c then with else [x] }

  function ReplaceChar(s: string, c: char, with: string): string {
    if s == "" then "" else ReplaceOne(s[0], c, with) + ReplaceChar(s[1..], c, with)
  }

  /** `\r\n`, `\r` or `\n`, longest first, each replaced by `by`. */
  function ReplaceBreaks(s: string, with: string): string {
    if s == "" then ""
    else if |s| >= 2 && s[0] == '\r' && s[1] == '\n' then with + ReplaceBreaks(s[2..], with)
    else if s[0] == '\r' || s[0] == '\n' then with + ReplaceBreaks(s[1..], with)
    else [s[0]] + ReplaceBreaks(s[1..], with)
  }

  /** The three character replacements, one after another. */
  function EscapeMarks(s: string): string {
    ReplaceChar(ReplaceChar(ReplaceChar(s, '\\', "\\\\"), ';', "\\;"), ',', "\\,")
  }

  function EscapeText(s: string): string {
    ReplaceBreaks(EscapeMarks(s), "\\n")
  }

  /** Every line break as one LF. */
  function NormalizeBreaks(s: string): string { ReplaceBreaks(s, "\n") }

  // ----- one pass -----

  function EscapeMark(c: char): string {
    if c == '\\' then "\\\\" else if c == ';' then "\\;" else if c == ',' then "\\," else [c]
  }

  function EscapeChar(c: char): string { if c == '\n' then "\\n" else EscapeMark(c) }

  /** One replacement per character, none of them seeing another's output. */
  function EscapeEach(s: string): string {
    if s == "" then "" else EscapeChar(s[0]) + EscapeEach(s[1..])
  }

  lemma {:induction false} ReplaceCharConcat(a: string, b: string, c: char, with: string)
    ensures ReplaceChar(a + b, c, with) == ReplaceChar(a, c, with) + ReplaceChar(b, c, with)
  {
    if a == "" {
      assert a + b == b;
    } else {
      ReplaceCharConcat(a[1..], b, c, with);
      assert (a + b)[0] == a[0] && (a + b)[1..] == a[1..] + b;
      Associate(ReplaceOne(a[0], c, with), ReplaceChar(a[1..], c, with), ReplaceChar(b, c, with));
    }
  }

  lemma EscapeMarksConcat(a: string, b: string)
    ensures EscapeMarks(a + b) == EscapeMarks(a) + EscapeMarks(b)
  {
    ReplaceCharConcat(a, b, '\\', "\\\\");
    var a1, b1 := ReplaceChar(a, '\\', "\\\\"), ReplaceChar(b, '\\', "\\\\");
    ReplaceCharConcat(a1, b1, ';', "\\;");
    ReplaceCharConcat(ReplaceChar(a1, ';', "\\;"), ReplaceChar(b1, ';', "\\;"), ',', "\\,");
  }

  lemma ReplaceCharOne(x: char, c: char, with: string)
    ensures ReplaceChar([x], c, with) == if x == c then with else [x]
  {
    assert [x][1..] == "";
  }

  /** A pair opened by a backslash goes through a later replacement unchanged but for its second character. */
  lemma ReplaceCharPair(x: char, c: char, with: string)
    requires c != '\\'
    ensures ReplaceChar(['\\', x], c, with) == ['\\'] + (if x == c then with else [x])
  {
    assert ['\\', x] == ['\\'] + [x];
    ReplaceCharConcat(['\\'], [x], c, with);
    ReplaceCharOne('\\', c, with);
    ReplaceCharOne(x, c, with);
  }

  /** The replacements run one after another, yet no character is replaced twice. */
  lemma EscapeMarksOne(c: char)
    ensures EscapeMarks([c]) == EscapeMark(c)
  {
    ReplaceCharOne(c, '\\', "\\\\");
    if c == '\\' {
      ReplaceCharPair('\\', ';', "\\;");
      ReplaceCharPair('\\', ',', "\\,");
    } else {
      ReplaceCharOne(c, ';', "\\;");
      if c == ';' {
        ReplaceCharPair(';', ',', "\\,");
      } else {
        ReplaceCharOne(c, ',', "\\,");
      }
    }
  }

  lemma EscapeMarksStep(s: string)
    requires s != ""
    ensures EscapeMarks(s) == EscapeMark(s[0]) + EscapeMarks(s[1..])
  {
    EscapeMarksConcat([s[0]], s[1..]);
    EscapeMarksOne(s[0]);
    assert s == [s[0]] + s[1..];
  }

  lemma PassThrough(head: string, s: string, with: string)
    requires 1 <= |head| <= 2 && forall c :: c in head ==> c != '\r' && c != '\n'
    ensures ReplaceBreaks(head + s, with) == head + ReplaceBreaks(s, with)
  {
    assert head[0] in head;
    assert (head + s)[1..] == head[1..] + s;
    if |head| == 2 {
      assert head[1] in head;
      assert (head[1..] + s)[1..] == s;
      assert head == [head[0]] + [head[1]];
    } else {
      assert head[1..] + s == s;
    }
  }

  /** The head of a text up to its first character or line break, and what is printed for it. */
  lemma CrLfPrinted(s: string)
    requires |s| >= 2 && s[0] == '\r' && s[1] == '\n'
    ensures EscapeText(s) == "\\n" + EscapeText(s[2..])
  {
    EscapeMarksStep(s);
    EscapeMarksStep(s[1..]);
    assert s[1..][1..] == s[2..];
    assert EscapeMarks(s) == "\r\n" + EscapeMarks(s[2..]);
    assert EscapeMarks(s)[2..] == EscapeMarks(s[2..]);
  }

  lemma BreakPrinted(s: string)
    requires s != "" && (s[0] == '\r' || s[0] == '\n') && !(|s| >= 2 && s[0] == '\r' && s[1] == '\n')
    ensures EscapeText(s) == "\\n" + EscapeText(s[1..])
  {
    EscapeMarksStep(s);
    assert EscapeMarks(s) == [s[0]] + EscapeMarks(s[1..]);
    assert EscapeMarks(s)[1..] == EscapeMarks(s[1..]);
    if s[1..] != "" {
      EscapeMarksStep(s[1..]);
    }
  }

  lemma CharPrinted(s: string)
    requires s != "" && s[0] != '\r' && s[0] != '\n'
    ensures EscapeText(s) == EscapeChar(s[0]) + EscapeText(s[1..])
  {
    EscapeMarksStep(s);
    PassThrough(EscapeMark(s[0]), EscapeMarks(s[1..]), "\\n");
  }

  lemma EscapeEachNext(c: char, s: string)
    ensures EscapeEach([c] + s) == EscapeChar(c) + EscapeEach(s)
  {
    assert ([c] + s)[1..] == s;
  }

  /** The printed value is the normalised text with each character escaped once. */
  lemma {:induction false} EscapeTextIsOnePass(s: string)
    ensures EscapeText(s) == EscapeEach(NormalizeBreaks(s))
  {
    if s == "" {
    } else if |s| >= 2 && s[0] == '\r' && s[1] == '\n' {
      CrLfPrinted(s);
      EscapeTextIsOnePass(s[2..]);
      EscapeEachNext('\n', NormalizeBreaks(s[2..]));
    } else if s[0] == '\r' || s[0] == '\n' {
      BreakPrinted(s);
      EscapeTextIsOnePass(s[1..]);
      EscapeEachNext('\n', NormalizeBreaks(s[1..]));
    } else {
      CharPrinted(s);
      EscapeTextIsOnePass(s[1..]);
      EscapeEachNext(s[0], NormalizeBreaks(s[1..]));
    }
  }

  // ----- reading a TEXT value -----

  /** `None` for a backslash that opens none of the escapes of section 3.3.11. */
  function UnescapeText(s: string): Option<string> {
    if s == "" then Some("")
    else if s[0] != '\\' then
      match UnescapeText(s[1..]) { case Some(t) => Some([s[0]] + t) case None => None }
    else if |s| < 2 then None
    else
      var c := if s[1] == 'n' || s[1] == 'N' then '\n' else s[1];
      if s[1] == '\\' || s[1] == ';' || s[1] == ',' || s[1] == 'n' || s[1] == 'N' then
        match UnescapeText(s[2..]) { case Some(t) => Some([c] + t) case None => None }
      else None
  }

  /** Reading one escaped character in front of a readable rest. */
  lemma UnescapeChar(c: char, rest: string, t: string)
    requires UnescapeText(rest) == Some(t)
    ensures UnescapeText(EscapeChar(c) + rest) == Some([c] + t)
  {
    var out := EscapeChar(c) + rest;
    if c == '\\' || c == ';' || c == ',' || c == '\n' {
      assert out[0] == '\\' && out[2..] == rest;
      assert out[1] == '\\' || out[1] == ';' || out[1] == ',' || out[1] == 'n';
    } else {
      assert out[0] == c && out[1..] == rest;
    }
  }

  lemma {:induction false} UnescapeEach(s: string)
    ensures UnescapeText(EscapeEach(s)) == Some(s)
  {
    if s != "" {
      UnescapeEach(s[1..]);
      UnescapeChar(s[0], EscapeEach(s[1..]), s[1..]);
      assert s == [s[0]] + s[1..];
    }
  }

  /** Reading a printed TEXT value gives the text back, with its line breaks as LF. */
  lemma TextRoundTrip(s: string)
    ensures UnescapeText(EscapeText(s)) == Some(NormalizeBreaks(s))
  {
    EscapeTextIsOnePass(s);
    UnescapeEach(NormalizeBreaks(s));
  }

  /** So two texts are printed alike exactly when they differ in nothing but how they break lines. */
  lemma PrintedAlikeIff(a: string, b: string)
    ensures EscapeText(a) == EscapeText(b) <==> NormalizeBreaks(a) == NormalizeBreaks(b)
  {
    TextRoundTrip(a);
    TextRoundTrip(b);
    EscapeTextIsOnePass(a);
    EscapeTextIsOnePass(b);
  }

  // ----- what a printed value never holds -----

  predicate OneLine(s: string) { forall c :: c in s ==> c != '\r' && c != '\n' }

  lemma {:induction false} NoCrAfterNormalizing(s: string)
    ensures '\r' !in NormalizeBreaks(s)
  {
    if s != "" {
      if |s| >= 2 && s[0] == '\r' && s[1] == '\n' {
        NoCrAfterNormalizing(s[2..]);
      } else {
        NoCrAfterNormalizing(s[1..]);
      }
    }
  }

  lemma {:induction false} EscapeEachOneLine(s: string)
    requires '\r' !in s
    ensures OneLine(EscapeEach(s))
  {
    if s != "" {
      EscapeEachOneLine(s[1..]);
    }
  }

  /** A separator outside an escape would end the value or start the next one of a list. */
  predicate HasBareSeparator(s: string) {
    if s == "" then false
    else if s[0] == '\\' && |s| >= 2 then HasBareSeparator(s[2..])
    else s[0] == ';' || s[0] == ',' || HasBareSeparator(s[1..])
  }

  lemma NoSeparatorInFront(c: char, rest: string)
    requires !HasBareSeparator(rest)
    ensures !HasBareSeparator(EscapeChar(c) + rest)
  {
    var out := EscapeChar(c) + rest;
    if |EscapeChar(c)| == 2 {
      assert out[0] == '\\' && out[2..] == rest;
    } else {
      assert out[0] == c && out[1..] == rest;
    }
  }

  lemma {:induction false} EscapeEachSeparators(s: string)
    ensures !HasBareSeparator(EscapeEach(s))
  {
    if s != "" {
      EscapeEachSeparators(s[1..]);
      NoSeparatorInFront(s[0], EscapeEach(s[1..]));
    }
  }

  /** A printed value stays on its line, and is one value. */
  lemma PrintedValueIsOne(s: string)
    ensures OneLine(EscapeText(s)) && !HasBareSeparator(EscapeText(s))
  {
    EscapeTextIsOnePass(s);
    NoCrAfterNormalizing(s);
    EscapeEachOneLine(NormalizeBreaks(s));
    EscapeEachSeparators(NormalizeBreaks(s));
  }
}
