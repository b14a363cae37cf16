/** Splitting a sequence into its maximal runs of adjacent elements that belong together. */
module Runs {

  function Flatten<T>(parts: seq<seq<T>>): seq<T> {
    if parts == [] then [] else parts[0] + Flatten(parts[1..])
  }

  lemma Associate<T>(a: seq<T>, b: seq<T>, c: seq<T>)
    ensures a + (b + c) == (a + b) + c
  {
  }

  lemma {:induction false} FlattenAppend<T>(parts: seq<seq<T>>, part: seq<T>)
    ensures Flatten(parts + [part]) == Flatten(parts) + part
  {
    if parts == [] {
      assert parts + [part] == [part];
    } else {
      FlattenAppend(parts[1..], part);
      assert (parts + [part])[1..] == parts[1..] + [part];
      Associate(parts[0], Flatten(parts[1..]), part);
    }
  }

  /** Each element joins the run of the one before it, or opens a run of its own. */
  function Split<T>(s: seq<T>, joins: (T, T) -> bool): (runs: seq<seq<T>>)
    ensures s != [] ==> runs != []
    ensures forall i :: 0 <= i < |runs| ==> runs[i] != []
  {
    if s == [] then []
    else
      var n := |s| - 1;
      var runs := Split(s[..n], joins);
      if n > 0 && joins(s[n - 1], s[n]) then runs[..|runs| - 1] + [runs[|runs| - 1] + [s[n]]]
      else runs + [[s[n]]]
  }

  ghost predicate Chained<T>(run: seq<T>, joins: (T, T) -> bool) {
    forall i :: 0 < i < |run| ==> joins(run[i - 1], run[i])
  }

  ghost predicate IsRun<T>(run: seq<T>, joins: (T, T) -> bool) { run != [] && Chained(run, joins) }

  /** Part `i` and the one before it could not be one run. */
  ghost predicate Apart<T>(parts: seq<seq<T>>, i: int, joins: (T, T) -> bool)
    requires 0 < i < |parts|
  {
    parts[i - 1] != [] && parts[i] != [] && !joins(parts[i - 1][|parts[i - 1]| - 1], parts[i][0])
  }

  /** `parts` cuts `s` into non-empty chained runs, no two neighbours of which could be one. */
  ghost predicate IsMaximalRuns<T>(parts: seq<seq<T>>, s: seq<T>, joins: (T, T) -> bool) {
    && Flatten(parts) == s
    && (forall i :: 0 <= i < |parts| ==> IsRun(parts[i], joins))
    && (forall i :: 0 < i < |parts| ==> Apart(parts, i, joins))
  }

  /** The last run is not empty and ends where the sequence ends. */
  lemma LastRun<T>(p: seq<seq<T>>, s: seq<T>, joins: (T, T) -> bool)
    requires IsMaximalRuns(p, s, joins) && s != []
    ensures p != [] && IsRun(p[|p| - 1], joins) && p[|p| - 1][|p[|p| - 1]| - 1] == s[|s| - 1]
    ensures Flatten(p[..|p| - 1]) + p[|p| - 1] == s
  {
    assert p == p[..|p| - 1] + [p[|p| - 1]];
    FlattenAppend(p[..|p| - 1], p[|p| - 1]);
  }

  /** Only no runs at all make up nothing. */
  lemma RunsOfNothing<T>(p: seq<seq<T>>, joins: (T, T) -> bool)
    requires forall i :: 0 <= i < |p| ==> IsRun(p[i], joins)
    ensures Flatten(p) == [] <==> p == []
  {
    if p != [] {
      assert IsRun(p[0], joins) && Flatten(p) == p[0] + Flatten(p[1..]);
    }
  }

  lemma RunLonger<T>(run: seq<T>, x: T, joins: (T, T) -> bool)
    requires IsRun(run, joins) && joins(run[|run| - 1], x)
    ensures IsRun(run + [x], joins)
  {
  }

  /** Extending the last part moves no boundary. */
  lemma ApartExtended<T>(init: seq<seq<T>>, last: seq<T>, x: T, i: int, joins: (T, T) -> bool)
    requires last != [] && 0 < i <= |init| && Apart(init + [last], i, joins)
    ensures Apart(init + [last + [x]], i, joins)
  {
    var p, q := init + [last], init + [last + [x]];
    assert p[i - 1] == q[i - 1] && p[i][0] == q[i][0];
  }

  /** An element that joins extends the last run. */
  lemma ExtendLastRun<T>(init: seq<seq<T>>, last: seq<T>, s: seq<T>, x: T, joins: (T, T) -> bool)
    requires IsMaximalRuns(init + [last], s, joins) && s != [] && joins(s[|s| - 1], x)
    ensures IsMaximalRuns(init + [last + [x]], s + [x], joins)
  {
    var p, q := init + [last], init + [last + [x]];
    LastRun(p, s, joins);
    assert p[|p| - 1] == last && p[..|p| - 1] == init;
    RunLonger(last, x, joins);
    FlattenAppend(init, last + [x]);
    Associate(Flatten(init), last, [x]);
    forall i | 0 <= i < |q| ensures IsRun(q[i], joins) {
      assert i < |init| ==> q[i] == p[i];
    }
    forall i | 0 < i < |q| ensures Apart(q, i, joins) {
      assert Apart(p, i, joins);
      ApartExtended(init, last, x, i, joins);
    }
  }

  /** An element that does not join opens a run. */
  lemma OpenRun<T>(p: seq<seq<T>>, s: seq<T>, x: T, joins: (T, T) -> bool)
    requires IsMaximalRuns(p, s, joins) && (s == [] || !joins(s[|s| - 1], x))
    ensures IsMaximalRuns(p + [[x]], s + [x], joins)
  {
    var q := p + [[x]];
    FlattenAppend(p, [x]);
    if s != [] {
      LastRun(p, s, joins);
    } else {
      RunsOfNothing(p, joins);
    }
    forall i | 0 <= i < |q| ensures IsRun(q[i], joins) {
      assert i < |p| ==> q[i] == p[i];
    }
    forall i | 0 < i < |q| ensures Apart(q, i, joins) {
      assert q[i - 1] == p[i - 1];
      if i < |p| {
        assert Apart(p, i, joins) && q[i] == p[i];
      }
    }
  }

  /** The splitter on one more element. */
  lemma SplitNext<T>(s: seq<T>, x: T, joins: (T, T) -> bool)
    ensures s != [] ==> Split(s, joins) != []
    ensures var runs := Split(s, joins);
      Split(s + [x], joins) == if s != [] && joins(s[|s| - 1], x)
                               then runs[..|runs| - 1] + [runs[|runs| - 1] + [x]] else runs + [[x]]
  {
    assert (s + [x])[..|s|] == s;
  }

  lemma {:induction false} SplitIsMaximal<T>(s: seq<T>, joins: (T, T) -> bool)
    ensures IsMaximalRuns(Split(s, joins), s, joins)
  {
    if s != [] {
      var before, x := s[..|s| - 1], s[|s| - 1];
      var runs := Split(before, joins);
      SplitIsMaximal(before, joins);
      SplitNext(before, x, joins);
      assert before + [x] == s;
      if before != [] && joins(before[|before| - 1], x) {
        assert runs == runs[..|runs| - 1] + [runs[|runs| - 1]];
        ExtendLastRun(runs[..|runs| - 1], runs[|runs| - 1], before, x, joins);
      } else {
        OpenRun(runs, before, x, joins);
      }
    }
  }

  /** The first run ends at the first adjacent pair of `s` that does not join, or with `s` itself. */
  lemma FirstRun<T>(p: seq<seq<T>>, s: seq<T>, joins: (T, T) -> bool)
    requires IsMaximalRuns(p, s, joins) && s != []
    ensures p != [] && 0 < |p[0]| <= |s| && p[0] == s[..|p[0]|]
    ensures forall i :: 0 < i < |p[0]| ==> joins(s[i - 1], s[i])
    ensures |p[0]| < |s| ==> !joins(s[|p[0]| - 1], s[|p[0]|])
    ensures IsMaximalRuns(p[1..], s[|p[0]|..], joins)
  {
    assert p != [] && IsRun(p[0], joins);
    var k := |p[0]|;
    assert s == p[0] + Flatten(p[1..]);
    assert Flatten(p[1..]) == s[k..];
    forall i | 0 < i < |p[1..]| ensures Apart(p[1..], i, joins) {
      assert Apart(p, i + 1, joins);
    }
    forall i | 0 < i < k ensures joins(s[i - 1], s[i]) {
      assert Chained(p[0], joins);
      assert joins(p[0][i - 1], p[0][i]);
    }
    if k < |s| {
      assert Apart(p, 1, joins);
      assert Flatten(p[1..]) == p[1] + Flatten(p[1..][1..]);
      assert s[k] == p[1][0];
    }
  }

  /** There is only one way to cut a sequence into maximal runs. */
  lemma {:induction false} MaximalRunsUnique<T>(p: seq<seq<T>>, q: seq<seq<T>>, s: seq<T>, joins: (T, T) -> bool)
    requires IsMaximalRuns(p, s, joins) && IsMaximalRuns(q, s, joins)
    ensures p == q
  {
    if s == [] {
      RunsOfNothing(p, joins);
      RunsOfNothing(q, joins);
    } else {
      FirstRun(p, s, joins);
      FirstRun(q, s, joins);
      assert |p[0]| == |q[0]|;
      MaximalRunsUnique(p[1..], q[1..], s[|p[0]|..], joins);
      assert p == [p[0]] + p[1..] && q == [q[0]] + q[1..];
    }
  }

  /** What the splitter returns is exactly the maximal runs. */
  lemma SplitCharacterised<T>(parts: seq<seq<T>>, s: seq<T>, joins: (T, T) -> bool)
    ensures parts == Split(s, joins) <==> IsMaximalRuns(parts, s, joins)
  {
    SplitIsMaximal(s, joins);
    if IsMaximalRuns(parts, s, joins) {
      MaximalRunsUnique(parts, Split(s, joins), s, joins);
    }
  }

  // ----- where the parts lie -----

  function Offset<T>(parts: seq<seq<T>>, p: nat): nat
    requires p <= |parts|
  {
    if p == 0 then 0 else Offset(parts, p - 1) + |parts[p - 1]|
  }

  lemma {:induction false} OffsetFlatten<T>(parts: seq<seq<T>>, p: nat)
    requires p <= |parts|
    ensures Offset(parts, p) == |Flatten(parts[..p])|
  {
    if p > 0 {
      OffsetFlatten(parts, p - 1);
      FlattenAppend(parts[..p - 1], parts[p - 1]);
      assert parts[..p] == parts[..p - 1] + [parts[p - 1]];
    }
  }

  lemma {:induction false} FlattenPrefix<T>(parts: seq<seq<T>>, p: nat)
    requires p <= |parts|
    ensures Flatten(parts) == Flatten(parts[..p]) + Flatten(parts[p..])
    decreases |parts| - p
  {
    if p == |parts| {
      assert parts[..p] == parts;
    } else {
      FlattenPrefix(parts, p + 1);
      FlattenAppend(parts[..p], parts[p]);
      assert parts[..p + 1] == parts[..p] + [parts[p]];
      assert Flatten(parts[p..]) == parts[p] + Flatten(parts[p..][1..]);
      assert parts[p..][1..] == parts[p + 1..];
    }
  }

  /** Element `o` of part `p` lies `o` behind the part's offset. */
  lemma PartAt<T>(parts: seq<seq<T>>, p: nat, o: nat)
    requires p < |parts| && o < |parts[p]|
    ensures Offset(parts, p) + o < |Flatten(parts)| && Flatten(parts)[Offset(parts, p) + o] == parts[p][o]
  {
    OffsetFlatten(parts, p);
    FlattenPrefix(parts, p);
    assert Flatten(parts[p..]) == parts[p] + Flatten(parts[p..][1..]);
  }

  lemma {:induction false} OffsetMonotone<T>(parts: seq<seq<T>>, p: nat, q: nat)
    requires p <= q <= |parts|
    ensures Offset(parts, p) <= Offset(parts, q)
    ensures p < q ==> Offset(parts, p) + |parts[p]| <= Offset(parts, q)
  {
    if p + 1 < q {
      OffsetMonotone(parts, p, q - 1);
    }
  }

  /** Every position lies in some part. */
  lemma {:induction false} Locate<T>(parts: seq<seq<T>>, i: nat, n: nat) returns (p: nat)
    requires n <= |parts| && i < Offset(parts, n)
    ensures p < n && Offset(parts, p) <= i < Offset(parts, p) + |parts[p]|
  {
    if i >= Offset(parts, n - 1) {
      p := n - 1;
    } else {
      p := Locate(parts, i, n - 1);
    }
  }
}
