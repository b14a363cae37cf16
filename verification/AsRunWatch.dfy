/** The watch on a playout child that completes its row: `watchAsRunEnd` of apps/worker/src/as-run.ts. */
module AsRunWatch {
  import opened Wrappers
  import opened AsRunRecords
  import Log = AsRunLog

  /** What the child emits, with the clock's reading; an exit context that throws is `None`. */
  datatype ChildEvent =
    | Exit(code: Option<int>, signal: Option<string>, atMs: int, context: Option<ExitContext>)
    | Error(errorCode: string, atMs: int)

  /** `ends` are the completions handed to the log, one per call. */
  datatype Watch = Watch(exitedAtMs: int, ends: seq<Option<End>>)

  function Seen(w: Watch, hasPid: bool, startedAtMs: int, e: ChildEvent): Watch {
    match e
    case Exit(code, signal, atMs, context) =>
      Watch(atMs, w.ends
        + [if context.Some? then Some(BuildEnd(startedAtMs, atMs, context.value, code, signal)) else None])
    case Error(errorCode, atMs) =>
      if hasPid || w.exitedAtMs != 0 then w
      else Watch(atMs, w.ends + [Some(BuildSpawnFailedEnd(atMs, errorCode))])
  }

  function SeenAll(hasPid: bool, startedAtMs: int, events: seq<ChildEvent>): Watch {
    if events == [] then Watch(0, [])
    else Seen(SeenAll(hasPid, startedAtMs, events[..|events| - 1]), hasPid, startedAtMs, events[|events| - 1])
  }

  class AsRunWatch {
    const log: Log.AsRunLog
    const id: string
    const hasPid: bool
    const startedAtMs: int
    var exitedAtMs: int
    ghost var ends: seq<Option<End>>

    ghost function State(): Watch
      reads this
    {
      Watch(exitedAtMs, ends)
    }

    constructor (log: Log.AsRunLog, id: string, hasPid: bool, startedAtMs: int)
      ensures this.log == log && this.id == id && this.hasPid == hasPid && this.startedAtMs == startedAtMs
      ensures State() == Watch(0, [])
    {
      this.log, this.id, this.hasPid, this.startedAtMs := log, id, hasPid, startedAtMs;
      exitedAtMs, ends := 0, [];
    }

    method OnExit(code: Option<int>, signal: Option<string>, atMs: int, context: Option<ExitContext>)
      modifies this, log
      ensures State() == Seen(old(State()), hasPid, startedAtMs, Exit(code, signal, atMs, context))
      ensures log.chain == old(log.chain) + Log.Queued(Log.Finish(id, ends[|ends| - 1]))
    {
      exitedAtMs := atMs;
      var end := if context.Some? then Some(BuildEnd(startedAtMs, atMs, context.value, code, signal)) else None;
      log.End(id, end);
      ends := ends + [end];
    }

    /** Besides a failed spawn this hears of a kill that did not work; a child that runs has its pid. */
    method OnError(errorCode: string, atMs: int)
      modifies this, log
      ensures State() == Seen(old(State()), hasPid, startedAtMs, Error(errorCode, atMs))
      ensures log.chain == old(log.chain) + if ends == old(ends) then []
        else Log.Queued(Log.Finish(id, ends[|ends| - 1]))
    {
      if hasPid || exitedAtMs != 0 {
        return;
      }
      exitedAtMs := atMs;
      var end := Some(BuildSpawnFailedEnd(atMs, errorCode));
      log.End(id, end);
      ends := ends + [end];
    }
  }

  // ----- what the child can emit -----

  function Exits(events: seq<ChildEvent>): nat {
    if events == [] then 0 else Exits(events[..|events| - 1]) + (if events[|events| - 1].Exit? then 1 else 0)
  }

  /** At most one exit, and none of a child that never ran. */
  ghost predicate Deliverable(hasPid: bool, events: seq<ChildEvent>) {
    Exits(events) <= 1 && (!hasPid ==> Exits(events) == 0)
  }

  lemma {:induction false} ExitsCount(events: seq<ChildEvent>, i: nat)
    requires i < |events| && events[i].Exit?
    ensures Exits(events) >= 1
  {
    var n := |events| - 1;
    if i < n {
      ExitsCount(events[..n], i);
    }
  }

  lemma NoExits(events: seq<ChildEvent>)
    requires Exits(events) == 0
    ensures forall i :: 0 <= i < |events| ==> events[i].Error?
  {
    forall i | 0 <= i < |events| && events[i].Exit? ensures Exits(events) >= 1 {
      ExitsCount(events, i);
    }
  }

  /** A child that runs: nothing is queued before its exit, and exactly one completion after it. */
  lemma {:induction false} RunningChild(startedAtMs: int, events: seq<ChildEvent>)
    requires Deliverable(true, events)
    ensures var w := SeenAll(true, startedAtMs, events);
      && |w.ends| == Exits(events)
      && (Exits(events) == 0 ==> w == Watch(0, []))
      && forall i :: 0 <= i < |events| && events[i].Exit? ==>
           var e := events[i];
           w == Watch(e.atMs,
             [if e.context.Some? then Some(BuildEnd(startedAtMs, e.atMs, e.context.value, e.code, e.signal)) else None])
  {
    if events != [] {
      var n := |events| - 1;
      RunningChild(startedAtMs, events[..n]);
      forall i | 0 <= i < n && events[i].Exit? ensures Exits(events[..n]) >= 1 {
        ExitsCount(events[..n], i);
      }
    }
  }

  /** The first completion of a failed spawn blocks every later one, unless it was read off a clock at zero. */
  lemma {:induction false} FailedSpawn(startedAtMs: int, events: seq<ChildEvent>)
    requires Deliverable(false, events) && events != []
    ensures events[0].Error?
    ensures var w := SeenAll(false, startedAtMs, events);
      && |w.ends| >= 1 && w.ends[0] == Some(BuildSpawnFailedEnd(events[0].atMs, events[0].errorCode))
      && (events[0].atMs != 0 ==> w == Watch(events[0].atMs, [w.ends[0]]))
      && (events[0].atMs == 0 && |events| > 1 ==> |w.ends| > 1)
  {
    var n := |events| - 1;
    NoExits(events);
    if n > 0 {
      FailedSpawn(startedAtMs, events[..n]);
      if events[0].atMs == 0 {
        SecondEnd(startedAtMs, events);
      }
    } else {
      assert events[..0] == [];
    }
  }

  lemma {:induction false} SecondEnd(startedAtMs: int, events: seq<ChildEvent>)
    requires Deliverable(false, events) && |events| > 1 && events[0].Error? && events[0].atMs == 0
    ensures |SeenAll(false, startedAtMs, events).ends| > 1
  {
    var n := |events| - 1;
    NoExits(events);
    if n > 1 {
      SecondEnd(startedAtMs, events[..n]);
    } else {
      assert events[..1][..0] == [];
      assert SeenAll(false, startedAtMs, events[..1]) == Seen(Watch(0, []), false, startedAtMs, events[0]);
    }
  }

  /**
   * A row is completed exactly once. A child that ran is completed by its exit, whose context may throw; one
   * that never ran is completed by its first error, again only when no second one follows a clock at zero.
   */
  lemma CompletedOnceIff(hasPid: bool, startedAtMs: int, events: seq<ChildEvent>)
    requires Deliverable(hasPid, events)
    ensures |SeenAll(hasPid, startedAtMs, events).ends| == 1 <==>
      if hasPid then Exits(events) == 1 else events != [] && (|events| == 1 || events[0].atMs != 0)
  {
    if hasPid {
      RunningChild(startedAtMs, events);
    } else if events != [] {
      FailedSpawn(startedAtMs, events);
      if |events| == 1 {
        assert events[..0] == [];
        assert SeenAll(false, startedAtMs, events) == Seen(Watch(0, []), false, startedAtMs, events[0]);
      }
    }
  }

  // ----- what reaches the log -----

  /** The writes that the completions of row `id` put on the chain, as the log queues them. */
  function WritesOf(id: string, ends: seq<Option<End>>): seq<Log.Write> {
    if ends == [] then []
    else WritesOf(id, ends[..|ends| - 1]) + Log.Queued(Log.Finish(id, ends[|ends| - 1]))
  }

  /** An exit whose context did not throw. */
  ghost predicate CleanExit(events: seq<ChildEvent>) {
    exists i :: 0 <= i < |events| && events[i].Exit? && events[i].context.Some?
  }

  /** A failed spawn's completions are always built. */
  lemma {:induction false} ErrorsAreBuilt(startedAtMs: int, events: seq<ChildEvent>)
    requires Exits(events) == 0
    ensures forall i :: 0 <= i < |SeenAll(false, startedAtMs, events).ends| ==>
      SeenAll(false, startedAtMs, events).ends[i].Some?
  {
    if events != [] {
      ErrorsAreBuilt(startedAtMs, events[..|events| - 1]);
    }
  }

  lemma {:induction false} BuiltAreWritten(id: string, ends: seq<Option<End>>)
    requires id != "" && forall i :: 0 <= i < |ends| ==> ends[i].Some?
    ensures |WritesOf(id, ends)| == |ends|
    ensures forall i :: 0 <= i < |ends| ==> WritesOf(id, ends)[i] == Log.EndRow(id, ends[i].value)
  {
    if ends != [] {
      BuiltAreWritten(id, ends[..|ends| - 1]);
    }
  }

  lemma {:induction false} NoIdNoWrite(ends: seq<Option<End>>)
    ensures WritesOf("", ends) == []
  {
    if ends != [] {
      NoIdNoWrite(ends[..|ends| - 1]);
    }
  }

  lemma OneEnd(id: string, end: Option<End>)
    ensures WritesOf(id, [end]) == Log.Queued(Log.Finish(id, end))
  {
    assert [end][..0] == [];
  }

  /**
   * Over everything the child emits, what reaches the log. Without an id nothing does. With one, exactly one end
   * is queued exactly when the child is gone: by an exit whose context did not throw, or by a spawn that failed
   * and was not told twice on a clock at zero. It is the end of that row, at the watch's instant.
   */
  lemma OneWriteIff(hasPid: bool, startedAtMs: int, id: string, events: seq<ChildEvent>)
    requires Deliverable(hasPid, events)
    ensures var w := SeenAll(hasPid, startedAtMs, events);
      var writes := WritesOf(id, w.ends);
      && (|writes| == 1 <==>
            id != "" && if hasPid then CleanExit(events) else events != [] && (|events| == 1 || events[0].atMs != 0))
      && (hasPid ==> |writes| <= 1)
      && (|writes| == 1 ==> writes[0].EndRow? && writes[0].id == id && writes[0].end.endedAt == w.exitedAtMs)
  {
    var w := SeenAll(hasPid, startedAtMs, events);
    if id == "" {
      NoIdNoWrite(w.ends);
    } else if hasPid {
      ExitIsWritten(startedAtMs, id, events);
    } else {
      CompletedOnceIff(false, startedAtMs, events);
      ErrorsAreBuilt(startedAtMs, events);
      BuiltAreWritten(id, w.ends);
      if |w.ends| == 1 {
        RowAgreesWithExit(false, startedAtMs, events);
      }
    }
  }

  lemma ExitIsWritten(startedAtMs: int, id: string, events: seq<ChildEvent>)
    requires Deliverable(true, events) && id != ""
    ensures var w := SeenAll(true, startedAtMs, events);
      var writes := WritesOf(id, w.ends);
      && (if CleanExit(events) then |writes| == 1 else writes == [])
      && (writes != [] ==> writes[0].EndRow? && writes[0].id == id && writes[0].end.endedAt == w.exitedAtMs)
  {
    var w := SeenAll(true, startedAtMs, events);
    RunningChild(startedAtMs, events);
    if CleanExit(events) {
      var i :| 0 <= i < |events| && events[i].Exit? && events[i].context.Some?;
      ExitsCount(events, i);
      OneEnd(id, w.ends[0]);
    } else if Exits(events) == 1 {
      var i := SomeExit(events);
      OneEnd(id, w.ends[0]);
    }
  }

  /**
   * The one completion ends where `exitedAtMs()` says, and its aired seconds are the time since the start to
   * within half a second, or nothing for a spawn that failed or a clock that went back.
   */
  lemma RowAgreesWithExit(hasPid: bool, startedAtMs: int, events: seq<ChildEvent>)
    requires Deliverable(hasPid, events)
    requires var w := SeenAll(hasPid, startedAtMs, events); |w.ends| == 1 && w.ends[0].Some?
    ensures var w := SeenAll(hasPid, startedAtMs, events);
      var end := w.ends[0].value;
      && end.endedAt == w.exitedAtMs
      && (hasPid && w.exitedAtMs >= startedAtMs ==>
        -500 <= end.airedSeconds * 1000 - (w.exitedAtMs - startedAtMs) <= 500)
      && (hasPid && w.exitedAtMs < startedAtMs ==> end.airedSeconds == 0)
      && (!hasPid ==> end.airedSeconds == 0 && end.reason == Failed)
  {
    var w := SeenAll(hasPid, startedAtMs, events);
    if hasPid {
      RunningChild(startedAtMs, events);
      var i := SomeExit(events);
      AiredWithinHalfASecond(w.exitedAtMs - startedAtMs);
    } else {
      CompletedOnceIff(hasPid, startedAtMs, events);
      FailedSpawn(startedAtMs, events);
      if |events| == 1 {
        assert events[..0] == [];
        assert w == Seen(Watch(0, []), false, startedAtMs, events[0]);
      }
    }
  }

  lemma {:induction false} SomeExit(events: seq<ChildEvent>) returns (i: nat)
    requires Exits(events) == 1
    ensures i < |events| && events[i].Exit?
  {
    var n := |events| - 1;
    if events[n].Exit? {
      i := n;
    } else {
      i := SomeExit(events[..n]);
    }
  }
}
