/**
 * The rows of the as-run log and what the playout's exit facts make of them: the record builders of
 * apps/worker/src/as-run.ts.
 */
module AsRunRecords {
  import opened Wrappers

  datatype EndReason =
    | NaturalEnd | DurationBound | Switch | Skip | OperatorRestart | FeedWatchdog | ScheduledReconnect
    | CrashLoopReset | DestinationMissing | Stopped | Failed | ProcessGone

  datatype StopIntent = NoIntent | SkipIntent | SwitchIntent | RestartIntent

  /** An exit code, a signal or an error code as the row keeps it. */
  datatype ExitText = Code(code: int) | Text(text: string)

  /** How a run ended; instants in milliseconds. */
  datatype End = End(endedAt: int, airedSeconds: int, reason: EndReason, exit: ExitText)

  /** A start: the fields the log's own rules read. */
  datatype Record = Record(id: string, startedAt: int)

  datatype ExitContext = ExitContext(plannedReason: string, stopIntent: StopIntent, naturalBoundary: bool)

  function PlannedEndReason(plannedReason: string): EndReason {
    match plannedReason
    case "switch" => Switch
    case "duration-bound" => DurationBound
    case "feed-stalled" => FeedWatchdog
    case "feed-audio-stalled" => FeedWatchdog
    case "scheduled-reconnect" => ScheduledReconnect
    case "crash-loop-reset" => CrashLoopReset
    case "destination-missing" => DestinationMissing
    case _ => Stopped
  }

  function EndReasonOf(context: ExitContext, exitedCleanly: bool): EndReason {
    if context.plannedReason == "" then
      if context.naturalBoundary then NaturalEnd else if exitedCleanly then Stopped else Failed
    else if context.plannedReason == "restart-requested" then
      match context.stopIntent {
        case NoIntent => OperatorRestart
        case SkipIntent => Skip
        case SwitchIntent => Switch
        case RestartIntent => OperatorRestart
      }
    else if context.plannedReason == "switch" && context.stopIntent == SkipIntent then Skip
    else PlannedEndReason(context.plannedReason)
  }

  /**
   * A run reads as failed exactly when nobody asked it to stop, it ended at no boundary and it did not exit
   * cleanly: a stop somebody asked for never does, whatever its reason. No exit reads as a process that is
   * gone; and a skip reads as one whether it came as a restart or as a switch.
   */
  lemma FailedIff(context: ExitContext, exitedCleanly: bool)
    ensures EndReasonOf(context, exitedCleanly) == Failed
      <==> context.plannedReason == "" && !context.naturalBoundary && !exitedCleanly
    ensures EndReasonOf(context, exitedCleanly) != ProcessGone
    ensures EndReasonOf(context, exitedCleanly) == Skip <==>
      && context.stopIntent == SkipIntent
      && (context.plannedReason == "restart-requested" || context.plannedReason == "switch")
  {
  }

  /** A run nobody asked to stop: it met a boundary, or it exited cleanly, or it failed. */
  lemma UnplannedReason(context: ExitContext, exitedCleanly: bool)
    ensures EndReasonOf(context, exitedCleanly) == NaturalEnd
      <==> context.plannedReason == "" && context.naturalBoundary
    ensures context.plannedReason == "" && !context.naturalBoundary ==>
      EndReasonOf(context, exitedCleanly) == if exitedCleanly then Stopped else Failed
  {
  }

  /** A restart that was asked for: it reads as what it was for, and as the operator's when nothing else is known. */
  lemma RestartReason(context: ExitContext, exitedCleanly: bool)
    ensures EndReasonOf(context, exitedCleanly) == OperatorRestart <==>
      context.plannedReason == "restart-requested" && context.stopIntent in {NoIntent, RestartIntent}
    ensures EndReasonOf(context, exitedCleanly) == Switch <==>
      || (context.plannedReason == "restart-requested" && context.stopIntent == SwitchIntent)
      || (context.plannedReason == "switch" && context.stopIntent != SkipIntent)
  {
  }

  /** The playout's own planned stops, each with its reasons. */
  lemma PlannedReasons(context: ExitContext, exitedCleanly: bool)
    ensures EndReasonOf(context, exitedCleanly) == DurationBound <==> context.plannedReason == "duration-bound"
    ensures EndReasonOf(context, exitedCleanly) == FeedWatchdog <==>
      context.plannedReason == "feed-stalled" || context.plannedReason == "feed-audio-stalled"
    ensures EndReasonOf(context, exitedCleanly) == ScheduledReconnect
      <==> context.plannedReason == "scheduled-reconnect"
    ensures EndReasonOf(context, exitedCleanly) == CrashLoopReset <==> context.plannedReason == "crash-loop-reset"
    ensures EndReasonOf(context, exitedCleanly) == DestinationMissing
      <==> context.plannedReason == "destination-missing"
  {
  }

  /** The planned reasons that have a meaning of their own. */
  predicate Known(reason: string) {
    || reason == "restart-requested" || reason == "switch" || reason == "duration-bound"
    || reason == "feed-stalled" || reason == "feed-audio-stalled" || reason == "scheduled-reconnect"
    || reason == "crash-loop-reset" || reason == "destination-missing"
  }

  /** Stopped is a clean exit nobody asked for, or a stop for a reason without a meaning of its own. */
  lemma StoppedIff(context: ExitContext, exitedCleanly: bool)
    ensures EndReasonOf(context, exitedCleanly) == Stopped <==>
      if context.plannedReason == "" then !context.naturalBoundary && exitedCleanly else !Known(context.plannedReason)
  {
  }

  /** The nearest whole second, halves up, never below zero. */
  function AiredSeconds(ms: int): int { Max(0, (ms + 500) / 1000) }

  lemma AiredWithinHalfASecond(ms: int)
    ensures ms >= 0 ==> -500 <= AiredSeconds(ms) * 1000 - ms <= 500
    ensures ms < 0 ==> AiredSeconds(ms) == 0
  {
  }

  function BuildEnd(
    startedAt: int, exitedAt: int, context: ExitContext, code: Option<int>, signal: Option<string>): End
  {
    var signalled := signal.Some? && signal.value != "";
    End(exitedAt, AiredSeconds(exitedAt - startedAt), EndReasonOf(context, code == Some(0) && !signalled),
        if code.Some? then Code(code.value) else Text(if signal.Some? then signal.value else ""))
  }

  /** A spawn that failed never ran. */
  function BuildSpawnFailedEnd(failedAt: int, errorCode: string): End {
    End(failedAt, 0, Failed, Text(if errorCode != "" then errorCode else "spawn"))
  }

  /**
   * A built end: the exit's instant, its code or else its signal as text, and the reason a clean exit (code zero, no
   * signal) or another one has.
   */
  lemma EndIs(startedAt: int, exitedAt: int, context: ExitContext, code: Option<int>, signal: Option<string>)
    ensures var end := BuildEnd(startedAt, exitedAt, context, code, signal);
      && end.endedAt == exitedAt
      && (end.exit.Code? <==> code.Some?)
      && (code.Some? ==> end.exit.code == code.value)
      && (code.None? && signal.Some? ==> end.exit.text == signal.value)
      && (code.None? && signal.None? ==> end.exit.text == "")
      && (end.reason == Failed <==>
            && context.plannedReason == "" && !context.naturalBoundary
            && !(code == Some(0) && (signal.None? || signal.value == "")))
      && (exitedAt >= startedAt ==> -500 <= end.airedSeconds * 1000 - (exitedAt - startedAt) <= 500)
      && (exitedAt < startedAt ==> end.airedSeconds == 0)
  {
    FailedIff(context, code == Some(0) && !(signal.Some? && signal.value != ""));
    AiredWithinHalfASecond(exitedAt - startedAt);
  }

  /** A failed spawn failed, aired nothing, and says why: its error code, or that it was the spawn. */
  lemma SpawnFailedEndIs(failedAt: int, errorCode: string)
    ensures var end := BuildSpawnFailedEnd(failedAt, errorCode);
      && end.endedAt == failedAt && end.airedSeconds == 0 && end.reason == Failed && end.exit.Text?
      && end.exit.text != "" && (errorCode != "" ==> end.exit.text == errorCode)
      && (errorCode == "" ==> end.exit.text == "spawn")
  {
  }
}
