/**
 * Folding of content lines: `foldLine` of apps/web/lib/public-programme-calendar.ts against
 * section 3.1 of RFC 5545.
 */
module CalendarFold {
  import opened Runs

  const CRLF: string := "\r\n"

  /** Octets of a character in UTF-8. */
  function Octets(c: char): (n: nat)
    ensures 1 <= n <= 4
  {
    if c as int < 0x80 then 1 else if c as int < 0x800 then 2 else if c as int < 0x1_0000 then 3 else 4
  }

  function Width(s: string): nat {
    if s == "" then 0 else Width(s[..|s| - 1]) + Octets(s[|s| - 1])
  }

  /** A continuation line spends one octet on its leading space. */
  function Limit(i: nat): nat { if i == 0 then 75 else 74 }

  /** The finished parts and the one being filled. */
  datatype Folding = Folding(parts: seq<string>, current: string)

  function Folded(line: string): Folding {
    if line == "" then Folding([], "")
    else
      var f, c := Folded(line[..|line| - 1]), line[|line| - 1];
      if Width(f.current) + Octets(c) > Limit(|f.parts|) then Folding(f.parts + [f.current], [c])
      else Folding(f.parts, f.current + [c])
  }

  function FoldParts(line: string): (parts: seq<string>)
    ensures parts != []
  {
    Folded(line).parts + [Folded(line).current]
  }

  function Join(parts: seq<string>, separator: string): string {
    if parts == [] then "" else if |parts| == 1 then parts[0] else parts[0] + separator + Join(parts[1..], separator)
  }

  function FoldedText(line: string): string { Join(FoldParts(line), "\r\n ") }

  lemma FoldedNext(line: string, i: nat, f: Folding)
    requires i < |line| && f == Folded(line[..i])
    ensures Folded(line[..i + 1]) ==
      if Width(f.current) + Octets(line[i]) > Limit(|f.parts|) then Folding(f.parts + [f.current], [line[i]])
      else Folding(f.parts, f.current + [line[i]])
  {
    assert line[..i + 1][..i] == line[..i];
  }

  method FoldLine(line: string) returns (text: string)
    ensures text == FoldedText(line)
  {
    var parts: seq<string> := [];
    var current := "";
    var currentBytes := 0;
    for i := 0 to |line|
      invariant Folding(parts, current) == Folded(line[..i])
      invariant currentBytes == Width(current)
    {
      FoldedNext(line, i, Folding(parts, current));
      var bytes := Octets(line[i]);
      var limit := if |parts| == 0 then 75 else 74;
      if currentBytes + bytes > limit {
        parts := parts + [current];
        current := "";
        currentBytes := 0;
      }
      WidthAppend(current, line[i]);
      current := current + [line[i]];
      currentBytes := currentBytes + bytes;
    }
    assert line[..|line|] == line;
    parts := parts + [current];
    text := Join(parts, "\r\n ");
  }

  // ----- what folding keeps -----

  ghost predicate Within(parts: seq<string>) {
    forall i :: 0 <= i < |parts| ==> Width(parts[i]) <= Limit(i)
  }

  /** A cut of the line on character boundaries whose physical lines all fit in 75 octets. */
  ghost predicate IsFolding(parts: seq<string>, line: string) {
    && parts != []
    && Flatten(parts) == line
    && Within(parts)
  }

  /** No part could take one more character of the next one. */
  ghost predicate IsGreedy(parts: seq<string>) {
    forall i :: 0 < i < |parts| ==> parts[i] != "" && Width(parts[i - 1]) + Octets(parts[i][0]) > Limit(i - 1)
  }

  lemma WidthAppend(s: string, c: char)
    ensures Width(s + [c]) == Width(s) + Octets(c)
  {
    assert (s + [c])[..|s|] == s;
  }

  lemma WidthOne(c: char)
    ensures Width([c]) == Octets(c)
  {
    assert [c][..0] == "";
  }

  lemma {:induction false} FoldedFlatten(line: string)
    ensures Flatten(FoldParts(line)) == line
  {
    if line == "" {
      assert FoldParts(line) == [""];
    } else {
      var before, c := line[..|line| - 1], line[|line| - 1];
      FoldedFlatten(before);
      var f := Folded(before);
      FlattenAppend(f.parts, f.current);
      assert line == before + [c];
      if Width(f.current) + Octets(c) > Limit(|f.parts|) {
        FlattenAppend(f.parts + [f.current], [c]);
      } else {
        FlattenAppend(f.parts, f.current + [c]);
        Associate(Flatten(f.parts), f.current, [c]);
      }
    }
  }

  lemma {:induction false} FoldedFilled(line: string)
    ensures Within(FoldParts(line)) && IsGreedy(FoldParts(line))
    ensures if line == "" then Folded(line) == Folding([], "") else Folded(line).current != ""
  {
    if line == "" {
      assert FoldParts(line) == [""];
    } else {
      var before, c := line[..|line| - 1], line[|line| - 1];
      FoldedFilled(before);
      var f := Folded(before);
      WidthAppend(f.current, c);
      WidthOne(c);
      FoldedStep(f, before, c, FoldParts(line));
    }
  }

  lemma FoldedInvariant(line: string)
    ensures IsFolding(FoldParts(line), line) && IsGreedy(FoldParts(line))
  {
    FoldedFlatten(line);
    FoldedFilled(line);
  }

  lemma FoldedStep(f: Folding, before: string, c: char, parts: seq<string>)
    requires Within(f.parts + [f.current]) && IsGreedy(f.parts + [f.current])
    requires before != "" ==> f.current != ""
    requires before == "" ==> f == Folding([], "")
    requires Width([c]) == Octets(c) && Width(f.current + [c]) == Width(f.current) + Octets(c)
    requires parts == if Width(f.current) + Octets(c) > Limit(|f.parts|) then f.parts + [f.current] + [[c]]
      else f.parts + [f.current + [c]]
    ensures Within(parts) && IsGreedy(parts)
  {
    var was := f.parts + [f.current];
    var n := |f.parts|;
    forall i | 0 <= i < |parts| ensures Width(parts[i]) <= Limit(i) {
      if i < n {
        assert parts[i] == was[i];
      } else if i == n && |parts| > n + 1 {
        assert parts[i] == was[i];
      }
    }
    forall i | 0 < i < |parts| ensures parts[i] != "" && Width(parts[i - 1]) + Octets(parts[i][0]) > Limit(i - 1) {
      if i < n {
        assert parts[i] == was[i] && parts[i - 1] == was[i - 1];
      } else if i == n {
        assert parts[i - 1] == was[i - 1] && was[i] == f.current && was[i] != "";
        assert parts[i][0] == was[i][0];
      }
    }
  }

  /** Every physical line, with the space that opens a continuation, fits in 75 octets, and no character is split. */
  lemma FoldedFits(line: string, i: nat)
    requires i < |FoldParts(line)|
    ensures Flatten(FoldParts(line)) == line
    ensures Width(if i == 0 then FoldParts(line)[i] else " " + FoldParts(line)[i]) <= 75
  {
    FoldedInvariant(line);
    if i > 0 {
      WidthConcat(" ", FoldParts(line)[i]);
      WidthOne(' ');
    }
  }

  // ----- no folding is shorter -----

  lemma {:induction false} WidthConcat(a: string, b: string)
    ensures Width(a + b) == Width(a) + Width(b)
  {
    if b == "" {
      assert a + b == a;
    } else {
      WidthConcat(a, b[..|b| - 1]);
      assert (a + b)[..|a + b| - 1] == a + b[..|b| - 1];
    }
  }

  lemma WidthOfSlice(s: string, i: nat, j: nat, k: nat, l: nat)
    requires i <= j <= k <= l <= |s|
    ensures Width(s[j..k]) <= Width(s[i..l])
  {
    assert s[i..l] == s[i..j] + s[j..k] + s[k..l];
    WidthConcat(s[i..j], s[j..k]);
    WidthConcat(s[i..j] + s[j..k], s[k..l]);
  }

  lemma SliceBehind(a: string, b: string, i: nat, j: nat)
    requires i <= j <= |b|
    ensures (a + b)[|a| + i..|a| + j] == b[i..j]
  {
  }

  /** Where part `k` of a cut lies in the line. */
  lemma {:induction false} PartIsSlice(parts: seq<string>, k: nat)
    requires k < |parts|
    ensures var at := |Flatten(parts[..k])|;
      && |Flatten(parts[..k + 1])| == at + |parts[k]| <= |Flatten(parts)|
      && Flatten(parts)[at..at + |parts[k]|] == parts[k]
  {
    if k == 0 {
      assert parts[..0] == [] && parts[..1] == [parts[0]];
      assert Flatten([parts[0]]) == parts[0] + Flatten([parts[0]][1..]);
      assert Flatten(parts) == parts[0] + Flatten(parts[1..]);
    } else {
      var first, rest := parts[0], parts[1..];
      PartIsSlice(rest, k - 1);
      var at := |Flatten(rest[..k - 1])|;
      assert Flatten(parts[..k]) == first + Flatten(rest[..k - 1]) by { assert parts[..k][1..] == rest[..k - 1]; }
      assert Flatten(parts[..k + 1]) == first + Flatten(rest[..k]) by { assert parts[..k + 1][1..] == rest[..k]; }
      SliceBehind(first, Flatten(rest), at, at + |parts[k]|);
    }
  }

  lemma SliceTakesNext(line: string, j: nat, e: nat, part: string, next: string)
    requires j <= e && e + |next| <= |line| && line[j..e] == part && line[e..e + |next|] == next && next != ""
    ensures Width(line[j..e + 1]) == Width(part) + Octets(next[0])
  {
    assert line[e] == line[e..e + |next|][0];
    assert line[j..e + 1] == part + [next[0]];
    WidthAppend(part, next[0]);
  }

  /** A line that begins no later than a full one and fits the same limit ends no later either. */
  lemma FullLineNotOvertaken(line: string, j: nat, e: nat, part: string, next: string, i: nat, l: nat, limit: nat)
    requires j <= e && e + |next| <= |line| && line[j..e] == part && line[e..e + |next|] == next && next != ""
    requires Width(part) + Octets(next[0]) > limit
    requires i <= j && i <= l <= |line| && Width(line[i..l]) <= limit
    ensures l <= e
  {
    if l > e {
      SliceTakesNext(line, j, e, part, next);
      WidthOfSlice(line, i, j, e + 1, l);
    }
  }

  /** After any number of lines no folding has printed more of the line than the greedy one. */
  lemma {:induction false} GreedyStaysAhead(p: seq<string>, q: seq<string>, line: string, k: nat)
    requires IsFolding(p, line) && IsGreedy(p) && IsFolding(q, line)
    requires k <= |q| && k < |p|
    ensures |Flatten(q[..k])| <= |Flatten(p[..k])|
  {
    if k == 0 {
      assert q[..0] == [] && p[..0] == [];
    } else {
      GreedyStaysAhead(p, q, line, k - 1);
      PartIsSlice(p, k - 1);
      PartIsSlice(p, k);
      PartIsSlice(q, k - 1);
      FullLineNotOvertaken(line, |Flatten(p[..k - 1])|, |Flatten(p[..k])|, p[k - 1], p[k],
                           |Flatten(q[..k - 1])|, |Flatten(q[..k])|, Limit(k - 1));
    }
  }

  /** A proper prefix of the lines of a greedy folding does not print the whole line. */
  lemma ProperPrefix(p: seq<string>, k: nat)
    requires IsGreedy(p) && 0 < k < |p|
    ensures |Flatten(p[..k])| < |Flatten(p)|
  {
    PartIsSlice(p, k);
    assert p[k] != "";
  }

  /** No folding on character boundaries within 75 octets has fewer lines. */
  lemma FoldedIsShortest(line: string, q: seq<string>)
    requires IsFolding(q, line)
    ensures |FoldParts(line)| <= |q|
  {
    FoldedInvariant(line);
    var p := FoldParts(line);
    assert q[..|q|] == q;
    if |q| < |p| {
      ProperPrefix(p, |q|);
      GreedyStaysAhead(p, q, line, |q|);
    }
  }

  /** And it is the only one that fills every line as far as it goes. */
  lemma GreedyIsFolded(line: string, q: seq<string>)
    ensures IsFolding(FoldParts(line), line) && IsGreedy(FoldParts(line))
    ensures IsFolding(q, line) && IsGreedy(q) ==> q == FoldParts(line)
  {
    FoldedInvariant(line);
    if IsFolding(q, line) && IsGreedy(q) {
      SameCuts(FoldParts(line), q, line, 0);
    }
  }

  lemma {:induction false} SameCuts(p: seq<string>, q: seq<string>, line: string, k: nat)
    requires IsFolding(p, line) && IsGreedy(p) && IsFolding(q, line) && IsGreedy(q)
    requires k <= |p| && k <= |q| && p[..k] == q[..k]
    ensures p == q
    decreases |p| - k
  {
    assert p[..|p|] == p && q[..|q|] == q;
    if k == |p| || k == |q| {
      if k < |p| { ProperPrefix(p, k); }
      if k < |q| { ProperPrefix(q, k); }
      assert k == |p| == |q|;
    } else {
      SameCut(p, q, line, k);
      assert p[..k + 1] == p[..k] + [p[k]] && q[..k + 1] == q[..k] + [q[k]];
      SameCuts(p, q, line, k + 1);
    }
  }

  lemma SameCut(p: seq<string>, q: seq<string>, line: string, k: nat)
    requires IsFolding(p, line) && IsGreedy(p) && IsFolding(q, line) && IsGreedy(q)
    requires k < |p| && k < |q| && p[..k] == q[..k]
    ensures p[k] == q[k]
  {
    PartIsSlice(p, k);
    PartIsSlice(q, k);
    NotLonger(p, q, line, k);
    NotLonger(q, p, line, k);
  }

  lemma NotLonger(p: seq<string>, q: seq<string>, line: string, k: nat)
    requires IsFolding(p, line) && IsGreedy(p) && IsFolding(q, line)
    requires k < |p| && k < |q|
    ensures |Flatten(q[..k + 1])| <= |Flatten(p[..k + 1])|
  {
    if k + 1 < |p| {
      GreedyStaysAhead(p, q, line, k + 1);
    } else {
      PartIsSlice(q, k);
      assert p[..k + 1] == p;
    }
  }
}
