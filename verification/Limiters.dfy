/**
 * Two limiters: `AlertDeduper` of apps/worker/src/alerts.ts and the chat-game cooldowns of
 * apps/worker/src/chat-game-cooldown.ts.
 */
module Limiters {

  // ----- alerts -----

  datatype Call = ShouldSend(key: string, now: int) | Forget(key: string)

  type LastSent = map<string, int>

  predicate Grants(last: LastSent, interval: int, key: string, now: int) { key !in last || now - last[key] > interval }

  function AfterCall(last: LastSent, interval: int, c: Call): LastSent {
    match c
    case ShouldSend(key, now) => if Grants(last, interval, key, now) then last[key := now] else last
    case Forget(key) => last - {key}
  }

  function AfterCalls(interval: int, calls: seq<Call>): LastSent {
    if calls == [] then map[] else AfterCall(AfterCalls(interval, calls[..|calls| - 1]), interval, calls[|calls| - 1])
  }

  class AlertDeduper {
    const intervalMs: int
    var lastSentAt: LastSent

    constructor (intervalMs: int)
      ensures this.intervalMs == intervalMs && lastSentAt == map[]
    {
      this.intervalMs := intervalMs;
      lastSentAt := map[];
    }

    method ShouldSendNow(key: string, nowMs: int) returns (send: bool)
      modifies this
      ensures send == Grants(old(lastSentAt), intervalMs, key, nowMs)
      ensures lastSentAt == AfterCall(old(lastSentAt), intervalMs, ShouldSend(key, nowMs))
    {
      if key in lastSentAt && nowMs - lastSentAt[key] <= intervalMs {
        return false;
      }
      lastSentAt := lastSentAt[key := nowMs];
      send := true;
    }

    method ForgetKey(key: string)
      modifies this
      ensures lastSentAt == AfterCall(old(lastSentAt), intervalMs, Forget(key))
    {
      lastSentAt := lastSentAt - {key};
    }
  }

  /** The calls for one key, in order. */
  function CallsFor(calls: seq<Call>, key: string): seq<Call> {
    if calls == [] then []
    else CallsFor(calls[..|calls| - 1], key) + (if calls[|calls| - 1].key == key then [calls[|calls| - 1]] else [])
  }

  lemma AfterOneMore(interval: int, calls: seq<Call>, c: Call)
    ensures AfterCalls(interval, calls + [c]) == AfterCall(AfterCalls(interval, calls), interval, c)
  {
    assert (calls + [c])[..|calls|] == calls;
  }

  /** A key's state, and so its next answer, depends on the calls for that key alone. */
  lemma {:induction false} KeysAreIndependent(interval: int, calls: seq<Call>, key: string)
    ensures var all, own := AfterCalls(interval, calls), AfterCalls(interval, CallsFor(calls, key));
      && (key in all <==> key in own) && (key in all ==> all[key] == own[key])
      && forall now :: Grants(all, interval, key, now) == Grants(own, interval, key, now)
  {
    if calls != [] {
      var n := |calls| - 1;
      KeysAreIndependent(interval, calls[..n], key);
      if calls[n].key == key {
        AfterOneMore(interval, CallsFor(calls[..n], key), calls[n]);
      } else {
        assert CallsFor(calls, key) == CallsFor(calls[..n], key);
      }
    }
  }

  /** The times at which sends for `key` were granted, in order. */
  function Granted(interval: int, calls: seq<Call>, key: string): seq<int> {
    if calls == [] then []
    else
      var n := |calls| - 1;
      Granted(interval, calls[..n], key) +
        (if calls[n].ShouldSend? && calls[n].key == key
          && Grants(AfterCalls(interval, calls[..n]), interval, key, calls[n].now)
         then [calls[n].now] else [])
  }

  lemma {:induction false} LastGrantIsKept(interval: int, calls: seq<Call>, key: string)
    requires forall i :: 0 <= i < |calls| ==> calls[i] != Forget(key)
    ensures var g, last := Granted(interval, calls, key), AfterCalls(interval, calls);
      && (g == [] <==> key !in last) && (g != [] ==> last[key] == g[|g| - 1])
      && (forall i :: 0 < i < |g| ==> g[i] - g[i - 1] > interval)
  {
    if calls != [] {
      var n := |calls| - 1;
      LastGrantIsKept(interval, calls[..n], key);
      var before := Granted(interval, calls[..n], key);
      var after := Granted(interval, calls, key);
      if after != before {
        assert after == before + [calls[n].now];
      } else if calls[n].Forget? {
        assert calls[n].key != key;
      }
    }
  }

  lemma {:induction false} GapsAddUp(times: seq<int>, gap: int)
    requires |times| > 1 && forall i :: 0 < i < |times| ==> times[i] - times[i - 1] > gap
    ensures times[|times| - 1] - times[0] > (|times| - 1) * gap
  {
    if |times| > 2 {
      GapsAddUp(times[..|times| - 1], gap);
    }
  }

  /** Without a forget, `n` alerts of one key span more than `n - 1` intervals, whatever else is asked in between. */
  lemma AlertsAreSpaced(interval: int, calls: seq<Call>, key: string)
    requires forall i :: 0 <= i < |calls| ==> calls[i] != Forget(key)
    requires |Granted(interval, calls, key)| > 1
    ensures var g := Granted(interval, calls, key); g[|g| - 1] - g[0] > (|g| - 1) * interval
  {
    LastGrantIsKept(interval, calls, key);
    GapsAddUp(Granted(interval, calls, key), interval);
  }

  /** The times at which sends for `key` were granted since it was last forgotten, in order. */
  function GrantedSince(interval: int, calls: seq<Call>, key: string): seq<int> {
    if calls == [] then []
    else
      var n := |calls| - 1;
      var before := GrantedSince(interval, calls[..n], key);
      match calls[n]
      case Forget(k) => if k == key then [] else before
      case ShouldSend(k, now) =>
        if k == key && Grants(AfterCalls(interval, calls[..n]), interval, key, now) then before + [now] else before
  }

  lemma {:induction false} LastGrantSince(interval: int, calls: seq<Call>, key: string)
    ensures var g, last := GrantedSince(interval, calls, key), AfterCalls(interval, calls);
      && (g == [] <==> key !in last) && (g != [] ==> last[key] == g[|g| - 1])
      && (forall i :: 0 < i < |g| ==> g[i] - g[i - 1] > interval)
  {
    if calls != [] {
      LastGrantSince(interval, calls[..|calls| - 1], key);
    }
  }

  lemma {:induction false} LatestIsLast(times: seq<int>, i: nat)
    requires i < |times| && forall k :: 0 < k < |times| ==> times[k] >= times[k - 1]
    ensures times[i] <= times[|times| - 1]
  {
    if i < |times| - 1 {
      LatestIsLast(times[..|times| - 1], i);
    }
  }

  /**
   * A send is granted exactly when the last grant of its key, if any since the key was forgotten, is more than an
   * interval old; and so exactly when no such grant lies within the interval.
   */
  lemma GrantedIff(interval: int, calls: seq<Call>, key: string, now: int)
    ensures var g := GrantedSince(interval, calls, key);
      var granted := Grants(AfterCalls(interval, calls), interval, key, now);
      && (granted <==> g == [] || now - g[|g| - 1] > interval)
      && (interval >= 0 ==> (granted <==> forall i :: 0 <= i < |g| ==> now - g[i] > interval))
  {
    LastGrantSince(interval, calls, key);
    var g := GrantedSince(interval, calls, key);
    if interval >= 0 {
      forall i | 0 <= i < |g| ensures g[i] <= g[|g| - 1] {
        LatestIsLast(g, i);
      }
    }
  }

  // ----- chat games -----

  datatype Lane = Room | Moderator

  datatype Kind = Info | Play(command: string)

  /** A chat line that asks something of the game. */
  datatype Line = Line(kind: Kind, isModerator: bool, now: int)

  function LaneOf(kind: Kind, isModerator: bool): Lane { if kind != Info && isModerator then Moderator else Room }

  datatype LastAt = LastAt(room: int, moderator: int) {
    function Of(lane: Lane): int { if lane == Room then room else moderator }
    function With(lane: Lane, now: int): LastAt { if lane == Room then this.(room := now) else this.(moderator := now) }
  }

  predicate Claims(last: LastAt, cooldown: int, lane: Lane, now: int) { now - last.Of(lane) >= cooldown }

  function AfterLine(last: LastAt, cooldown: int, line: Line): LastAt {
    var lane := LineLane(line);
    if Claims(last, cooldown, lane, line.now) then last.With(lane, line.now) else last
  }

  function AfterLines(cooldown: int, lines: seq<Line>): LastAt {
    if lines == [] then LastAt(0, 0)
    else AfterLine(AfterLines(cooldown, lines[..|lines| - 1]), cooldown, lines[|lines| - 1])
  }

  class ChatGameCooldowns {
    const cooldownMs: int
    var lastAt: LastAt

    constructor (cooldownMs: int)
      ensures this.cooldownMs == cooldownMs && lastAt == LastAt(0, 0)
    {
      this.cooldownMs := cooldownMs;
      lastAt := LastAt(0, 0);
    }

    method Claim(lane: Lane, now: int) returns (claimed: bool)
      modifies this
      ensures claimed == Claims(old(lastAt), cooldownMs, lane, now)
      ensures lastAt == if claimed then old(lastAt).With(lane, now) else old(lastAt)
    {
      if now - lastAt.Of(lane) < cooldownMs {
        return false;
      }
      lastAt := lastAt.With(lane, now);
      claimed := true;
    }
  }

  function LineLane(line: Line): Lane { LaneOf(line.kind, line.isModerator) }

  /** The lines that ask for a lane, in order. */
  function LinesOf(lines: seq<Line>, lane: Lane): seq<Line> {
    if lines == [] then []
    else
      var before, last := LinesOf(lines[..|lines| - 1], lane), lines[|lines| - 1];
      if LineLane(last) == lane then before + [last] else before
  }

  lemma LinesOneMore(cooldown: int, lines: seq<Line>, line: Line)
    ensures AfterLines(cooldown, lines + [line]) == AfterLine(AfterLines(cooldown, lines), cooldown, line)
  {
    assert (lines + [line])[..|lines|] == lines;
  }

  /** A lane stands where its own lines alone would have left it. */
  lemma {:induction false} LaneAlone(cooldown: int, lines: seq<Line>, lane: Lane)
    ensures AfterLines(cooldown, lines).Of(lane) == AfterLines(cooldown, LinesOf(lines, lane)).Of(lane)
  {
    if lines != [] {
      var n := |lines| - 1;
      LaneAlone(cooldown, lines[..n], lane);
      LaneAfterLine(AfterLines(cooldown, lines[..n]), cooldown, lines[n], lane);
      if LineLane(lines[n]) == lane {
        LinesOneMore(cooldown, LinesOf(lines[..n], lane), lines[n]);
        LaneAfterLine(AfterLines(cooldown, LinesOf(lines[..n], lane)), cooldown, lines[n], lane);
      }
    }
  }

  /** Whether a lane is granted, now or at any time, depends on the earlier lines of that lane alone. */
  lemma LanesAreIndependent(cooldown: int, lines: seq<Line>, others: seq<Line>, lane: Lane)
    requires LinesOf(lines, lane) == LinesOf(others, lane)
    ensures forall now ::
      Claims(AfterLines(cooldown, lines), cooldown, lane, now)
        == Claims(AfterLines(cooldown, others), cooldown, lane, now)
  {
    LaneAlone(cooldown, lines, lane);
    LaneAlone(cooldown, others, lane);
  }

  /** A start or stop asked for by a moderator. */
  predicate IsModeratorPlay(line: Line) { line.isModerator && line.kind != Info }

  /**
   * No viewer line, and no question of a moderator, changes whether a moderator's start or stop is accepted:
   * with all of them taken out the answer is the same.
   */
  lemma ViewersCannotSilenceModerators(cooldown: int, lines: seq<Line>, line: Line)
    requires IsModeratorPlay(line)
    ensures var plays := LinesOf(lines, Moderator);
      && (forall l :: l in plays ==> IsModeratorPlay(l))
      && Claims(AfterLines(cooldown, lines), cooldown, LineLane(line), line.now)
         == Claims(AfterLines(cooldown, plays), cooldown, LineLane(line), line.now)
  {
    LaneAlone(cooldown, lines, Moderator);
    PlaysOnly(lines);
  }

  lemma {:induction false} PlaysOnly(lines: seq<Line>)
    ensures forall l :: l in LinesOf(lines, Moderator) ==> IsModeratorPlay(l)
  {
    if lines != [] {
      PlaysOnly(lines[..|lines| - 1]);
    }
  }

  /** The times at which a lane was claimed, in order. */
  function Claimed(cooldown: int, lines: seq<Line>, lane: Lane): seq<int> {
    if lines == [] then []
    else
      var n := |lines| - 1;
      Claimed(cooldown, lines[..n], lane) +
        (if LineLane(lines[n]) == lane && Claims(AfterLines(cooldown, lines[..n]), cooldown, lane, lines[n].now)
         then [lines[n].now] else [])
  }

  /** A line that claims its lane leaves its own time there; any other line leaves the lane as it was. */
  lemma LaneAfterLine(last: LastAt, cooldown: int, line: Line, lane: Lane)
    ensures AfterLine(last, cooldown, line).Of(lane)
         == if LineLane(line) == lane && Claims(last, cooldown, lane, line.now) then line.now else last.Of(lane)
  {
  }

  lemma {:induction false} LastClaimIsKept(cooldown: int, lines: seq<Line>, lane: Lane)
    ensures var c, last := Claimed(cooldown, lines, lane), AfterLines(cooldown, lines).Of(lane);
      && (if c == [] then last == 0 else last == c[|c| - 1] && c[0] >= cooldown)
      && (forall i :: 0 < i < |c| ==> c[i] - c[i - 1] > cooldown - 1)
  {
    if lines != [] {
      var n := |lines| - 1;
      LastClaimIsKept(cooldown, lines[..n], lane);
      LaneAfterLine(AfterLines(cooldown, lines[..n]), cooldown, lines[n], lane);
      var before, after := Claimed(cooldown, lines[..n], lane), Claimed(cooldown, lines, lane);
      if after != before {
        assert after == before + [lines[n].now];
      }
    }
  }

  /**
   * A lane is granted exactly when its last accepted line is a cooldown old, the clock itself when there is none; and
   * so exactly when no accepted line of it lies within the cooldown.
   */
  lemma ClaimedIff(cooldown: int, lines: seq<Line>, lane: Lane, now: int)
    ensures var c := Claimed(cooldown, lines, lane);
      var granted := Claims(AfterLines(cooldown, lines), cooldown, lane, now);
      && (granted <==> now - (if c == [] then 0 else c[|c| - 1]) >= cooldown)
      && (cooldown >= 0 && c != [] ==> (granted <==> forall i :: 0 <= i < |c| ==> now - c[i] >= cooldown))
  {
    LastClaimIsKept(cooldown, lines, lane);
    var c := Claimed(cooldown, lines, lane);
    if cooldown >= 0 {
      forall i | 0 <= i < |c| ensures c[i] <= c[|c| - 1] {
        LatestIsLast(c, i);
      }
    }
  }

  /** `n` accepted lines of one lane span at least `n - 1` cooldowns. */
  lemma ClaimsAreSpaced(cooldown: int, lines: seq<Line>, lane: Lane)
    requires Claimed(cooldown, lines, lane) != []
    ensures var c := Claimed(cooldown, lines, lane); c[|c| - 1] - c[0] >= (|c| - 1) * cooldown
  {
    LastClaimIsKept(cooldown, lines, lane);
    var c := Claimed(cooldown, lines, lane);
    AtLeastGaps(c, cooldown);
  }

  lemma {:induction false} AtLeastGaps(times: seq<int>, gap: int)
    requires times != [] && forall i :: 0 < i < |times| ==> times[i] - times[i - 1] > gap - 1
    ensures times[|times| - 1] - times[0] >= (|times| - 1) * gap
  {
    if |times| > 1 {
      AtLeastGaps(times[..|times| - 1], gap);
    }
  }
}
