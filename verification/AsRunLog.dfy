/**
 * The as-run write queue over its store: `createAsRunLog` and the `AsRunStore` contract of
 * apps/worker/src/as-run.ts. Every call puts one write on the chain and returns; the chain tries the
 * writes one by one, and any of them may fail without effect.
 */
module AsRunLog {
  import opened Wrappers
  import opened AsRunRecords

  /** Rows older than ninety days go in the write that adds a start. */
  const RETENTION_MS: int := 90 * 86_400_000

  datatype Row = Row(record: Record, end: Option<End>)

  type Rows = map<string, Row>

  datatype Write = CloseOpen(at: int) | StartRow(record: Record) | EndRow(id: string, end: End)

  // ----- the store's contract -----

  /** A row still open at `at` is closed there as gone, never before its own start. */
  function Gone(row: Row, at: int): Row {
    var closedAt := Max(row.record.startedAt, at);
    row.(end := Some(End(closedAt, AiredSeconds(closedAt - row.record.startedAt), ProcessGone, Text(""))))
  }

  function ClosedAt(rows: Rows, at: int): Rows {
    map id | id in rows :: if rows[id].end.None? then Gone(rows[id], at) else rows[id]
  }

  function Kept(rows: Rows, cutoff: int): Rows {
    map id | id in rows && rows[id].record.startedAt >= cutoff :: rows[id]
  }

  /** What a write does when it succeeds; a second row of one id is refused. */
  function Applied(rows: Rows, w: Write): Option<Rows> {
    match w
    case CloseOpen(at) => Some(ClosedAt(rows, at))
    case StartRow(record) =>
      if record.id in rows then None
      else Some(Kept(ClosedAt(rows, record.startedAt)[record.id := Row(record, None)], record.startedAt - RETENTION_MS))
    case EndRow(id, end) =>
      Some(if id in rows && rows[id].end.None? then rows[id := rows[id].(end := Some(end))] else rows)
  }

  /** One try: a write that fails, or that the store refuses, leaves the rows as they were. */
  function Tried(rows: Rows, w: Write, fails: bool): Rows {
    if fails || Applied(rows, w).None? then rows else Applied(rows, w).value
  }

  // ----- the log -----

  /** A call of the playout, or the chain trying its next write. A builder that throws gives `None`. */
  datatype Event =
    | Boot(at: int)
    | Start(build: Option<Record>)
    | Finish(id: string, built: Option<End>)
    | Try(fails: bool)

  datatype Log = Log(queue: seq<Write>, tried: seq<Write>, rows: Rows)

  /** The write a call puts on the chain, if any. */
  function Queued(e: Event): seq<Write> {
    match e
    case Boot(at) => [CloseOpen(at)]
    case Start(build) => if build.Some? then [StartRow(build.value)] else []
    case Finish(id, built) => if id != "" && built.Some? then [EndRow(id, built.value)] else []
    case Try(_) => []
  }

  function Step(log: Log, e: Event): Log {
    if e.Try? then
      if log.queue == [] then log
      else Log(log.queue[1..], log.tried + [log.queue[0]], Tried(log.rows, log.queue[0], e.fails))
    else log.(queue := log.queue + Queued(e))
  }

  function Run(log: Log, events: seq<Event>): Log {
    if events == [] then log else Step(Run(log, events[..|events| - 1]), events[|events| - 1])
  }

  /** The as-run table. */
  class AsRunStore {
    var rows: Rows

    constructor (rows: Rows)
      ensures this.rows == rows
    {
      this.rows := rows;
    }

    method Perform(w: Write, fails: bool) returns (ok: bool)
      modifies this
      ensures rows == Tried(old(rows), w, fails)
      ensures ok <==> !fails && Applied(old(rows), w).Some?
    {
      var applied := Applied(rows, w);
      ok := !fails && applied.Some?;
      if ok {
        rows := applied.value;
      }
    }
  }

  class AsRunLog {
    const store: AsRunStore
    var chain: seq<Write>
    /** How many as_run.write_failed lines were logged. */
    var failures: nat
    ghost var tried: seq<Write>

    /** The log and its table as one value. */
    ghost function State(): Log
      reads this, store
    {
      Log(chain, tried, store.rows)
    }

    constructor (store: AsRunStore)
      ensures this.store == store && State() == Log([], [], store.rows)
    {
      this.store := store;
      chain, failures, tried := [], 0, [];
    }

    method Boot(at: int)
      modifies this
      ensures State() == Step(old(State()), Event.Boot(at)) && failures == old(failures)
    {
      chain := chain + [CloseOpen(at)];
    }

    /** A row that cannot be built is counted as a failure and answered with an empty id. */
    method Start(build: Option<Record>) returns (id: string)
      modifies this
      ensures State() == Step(old(State()), Event.Start(build))
      ensures id == if build.Some? then build.value.id else ""
      ensures failures == old(failures) + if build.None? then 1 else 0
    {
      match build {
        case None =>
          failures := failures + 1;
          id := "";
        case Some(record) =>
          chain := chain + [StartRow(record)];
          id := record.id;
      }
    }

    method End(id: string, built: Option<End>)
      modifies this
      ensures State() == Step(old(State()), Finish(id, built))
      ensures failures == old(failures) + if id != "" && built.None? then 1 else 0
    {
      if id == "" {
        return;
      }
      match built {
        case None =>
          failures := failures + 1;
        case Some(end) =>
          chain := chain + [EndRow(id, end)];
      }
    }

    /** The chain goes on to its next write, whatever became of the one before. */
    method TryNext(fails: bool)
      modifies this, store
      ensures State() == Step(old(State()), Try(fails))
      ensures failures == old(failures)
        + if old(chain) != [] && (fails || Applied(old(store.rows), old(chain)[0]).None?) then 1 else 0
    {
      if chain == [] {
        return;
      }
      var ok := store.Perform(chain[0], fails);
      if !ok {
        failures := failures + 1;
      }
      tried := tried + [chain[0]];
      chain := chain[1..];
    }
  }

  // ----- every write once, in call order -----

  function AllQueued(events: seq<Event>): seq<Write> {
    if events == [] then [] else AllQueued(events[..|events| - 1]) + Queued(events[|events| - 1])
  }

  /**
   * At every moment of every run, what has been tried followed by what waits is what the calls queued, in
   * call order: no write is tried twice, none is skipped, none overtakes another, and failures change nothing of that.
   */
  lemma {:induction false} TriedInCallOrder(log: Log, events: seq<Event>)
    ensures Run(log, events).tried + Run(log, events).queue == log.tried + log.queue + AllQueued(events)
  {
    if events == [] {
      assert log.tried + log.queue + AllQueued(events) == log.tried + log.queue;
    } else {
      var n := |events| - 1;
      TriedInCallOrder(log, events[..n]);
      var before, e := Run(log, events[..n]), events[n];
      StepKeepsOrder(before, e);
      assert log.tried + log.queue + AllQueued(events) == (log.tried + log.queue + AllQueued(events[..n])) + Queued(e);
    }
  }

  lemma StepKeepsOrder(log: Log, e: Event)
    ensures Step(log, e).tried + Step(log, e).queue == (log.tried + log.queue) + Queued(e)
  {
    if e.Try? && log.queue != [] {
      assert log.queue == [log.queue[0]] + log.queue[1..];
    }
  }

  // ----- ends follow their starts -----

  /** The caller ends only runs whose start it has called: `End` is given what `Start` returned. */
  ghost predicate WellCalled(events: seq<Event>) {
    forall j :: 0 <= j < |events| && events[j].Finish? && events[j].id != "" ==>
      exists i :: 0 <= i < j && events[i].Start? && events[i].build.Some? && events[i].build.value.id == events[j].id
  }

  ghost predicate EndsFollowStarts(writes: seq<Write>) {
    forall j :: 0 <= j < |writes| && writes[j].EndRow? ==>
      exists i :: 0 <= i < j && writes[i].StartRow? && writes[i].record.id == writes[j].id
  }

  lemma {:induction false} StartIsQueued(events: seq<Event>, i: nat)
    requires i < |events| && events[i].Start? && events[i].build.Some?
    ensures StartRow(events[i].build.value) in AllQueued(events)
  {
    var n := |events| - 1;
    if i < n {
      StartIsQueued(events[..n], i);
    }
  }

  lemma {:induction false} QueuedEndsFollowStarts(events: seq<Event>)
    requires WellCalled(events)
    ensures EndsFollowStarts(AllQueued(events))
  {
    if events != [] {
      var n := |events| - 1;
      var e := events[n];
      assert WellCalled(events[..n]) by {
        forall j | 0 <= j < n && events[j].Finish? && events[j].id != ""
          ensures exists i ::
            && 0 <= i < j && events[..n][i].Start? && events[..n][i].build.Some?
            && events[..n][i].build.value.id == events[j].id
        {
          var i :| 0 <= i < j && events[i].Start? && events[i].build.Some? && events[i].build.value.id == events[j].id;
          assert events[..n][i] == events[i];
        }
      }
      QueuedEndsFollowStarts(events[..n]);
      var before := AllQueued(events[..n]);
      if e.Finish? && e.id != "" && e.built.Some? {
        var i :| 0 <= i < n && events[i].Start? && events[i].build.Some? && events[i].build.value.id == e.id;
        assert events[..n][i] == events[i];
        StartIsQueued(events[..n], i);
        var k :| 0 <= k < |before| && before[k] == StartRow(events[i].build.value);
      }
      EndsFollowAppended(before, Queued(e));
    }
  }

  lemma EndsFollowAppended(before: seq<Write>, more: seq<Write>)
    requires EndsFollowStarts(before) && |more| <= 1
    requires more != [] && more[0].EndRow? ==>
      exists k :: 0 <= k < |before| && before[k].StartRow? && before[k].record.id == more[0].id
    ensures EndsFollowStarts(before + more)
  {
    var writes := before + more;
    assert forall i :: 0 <= i < |before| ==> writes[i] == before[i];
    forall j | 0 <= j < |writes| && writes[j].EndRow?
      ensures exists i :: 0 <= i < j && writes[i].StartRow? && writes[i].record.id == writes[j].id
    {
      if j < |before| {
        var i :| 0 <= i < j && before[i].StartRow? && before[i].record.id == before[j].id;
        assert writes[i] == before[i];
      } else {
        var k :| 0 <= k < |before| && before[k].StartRow? && before[k].record.id == more[0].id;
        assert writes[k] == before[k];
      }
    }
  }

  /** A run's end is never tried before its start, however the calls and the tries interleave. */
  lemma EndNeverBeforeStart(rows: Rows, events: seq<Event>)
    requires WellCalled(events)
    ensures EndsFollowStarts(Run(Log([], [], rows), events).tried)
  {
    var log := Log([], [], rows);
    TriedInCallOrder(log, events);
    QueuedEndsFollowStarts(events);
    var tried, queue := Run(log, events).tried, Run(log, events).queue;
    assert [] + [] + AllQueued(events) == AllQueued(events);
    forall j | 0 <= j < |tried| && tried[j].EndRow?
      ensures exists i :: 0 <= i < j && tried[i].StartRow? && tried[i].record.id == tried[j].id
    {
      assert AllQueued(events)[j] == tried[j];
      var i :| 0 <= i < j && AllQueued(events)[i].StartRow?
        && AllQueued(events)[i].record.id == AllQueued(events)[j].id;
      assert tried[i] == AllQueued(events)[i];
    }
  }

  // ----- one row on air -----

  ghost predicate AtMostOneOpen(rows: Rows) {
    forall a, b :: a in rows && b in rows && rows[a].end.None? && rows[b].end.None? ==> a == b
  }

  ghost predicate KeyedById(rows: Rows) { forall id :: id in rows ==> rows[id].record.id == id }

  lemma TriedKeepsOneOpen(rows: Rows, w: Write, fails: bool)
    requires AtMostOneOpen(rows) && KeyedById(rows)
    ensures AtMostOneOpen(Tried(rows, w, fails)) && KeyedById(Tried(rows, w, fails))
  {
  }

  /** After any calls, tries and failures, at most one row is on air. */
  lemma {:induction false} NeverTwoOnAir(log: Log, events: seq<Event>)
    requires AtMostOneOpen(log.rows) && KeyedById(log.rows)
    ensures AtMostOneOpen(Run(log, events).rows) && KeyedById(Run(log, events).rows)
  {
    if events != [] {
      var n := |events| - 1;
      NeverTwoOnAir(log, events[..n]);
      var before := Run(log, events[..n]);
      if events[n].Try? && before.queue != [] {
        TriedKeepsOneOpen(before.rows, before.queue[0], events[n].fails);
      }
    }
  }

  /** Whatever was left on air, a boot whose write succeeds leaves nothing on air. */
  lemma BootClosesEverything(rows: Rows, at: int, id: string)
    requires id in rows
    ensures id in Tried(rows, CloseOpen(at), false) && Tried(rows, CloseOpen(at), false)[id].end.Some?
    ensures rows[id].end.None? ==> Tried(rows, CloseOpen(at), false)[id].end.value.endedAt >= rows[id].record.startedAt
  {
  }

  /**
   * A written boot changes exactly the rows left on air: each is closed as gone, at the boot or at its own start if
   * that is later, with the seconds between as its aired time.
   */
  lemma BootCloses(rows: Rows, at: int, id: string)
    requires id in rows
    ensures var after := Tried(rows, CloseOpen(at), false);
      && after.Keys == rows.Keys && after[id].record == rows[id].record
      && (rows[id].end.Some? ==> after[id] == rows[id])
      && (rows[id].end.None? ==> IsGone(after[id], at))
  {
  }

  /** The row was closed at `at` because its process is gone. */
  predicate IsGone(row: Row, at: int) {
    && row.end.Some? && row.end.value.reason == ProcessGone && row.end.value.exit == Text("")
    && (row.end.value.endedAt == at || (at < row.record.startedAt && row.end.value.endedAt == row.record.startedAt))
    && row.end.value.endedAt >= row.record.startedAt
    && -500 <= row.end.value.airedSeconds * 1000 - (row.end.value.endedAt - row.record.startedAt) <= 500
  }

  /**
   * A written start leaves the new run as the only open row. Every other row that started within the ninety days
   * before it stays, closed at this start if it was open; older rows are gone. A second start of one id is refused.
   */
  lemma StartWrites(rows: Rows, record: Record, id: string)
    ensures record.id in rows ==> Tried(rows, StartRow(record), false) == rows
    ensures record.id !in rows ==>
      var after := Tried(rows, StartRow(record), false);
      && (id == record.id ==> id in after && after[id] == Row(record, None))
      && (id != record.id ==>
            && (id in after <==> id in rows && record.startedAt - rows[id].record.startedAt <= 90 * 24 * 3_600_000)
            && (id in after ==> after[id].record == rows[id].record)
            && (id in after && rows[id].end.Some? ==> after[id] == rows[id])
            && (id in after && rows[id].end.None? ==> IsGone(after[id], record.startedAt)))
  {
    if record.id !in rows {
      var closed := ClosedAt(rows, record.startedAt);
      if id in closed && rows[id].end.None? {
        BootCloses(rows, record.startedAt, id);
        assert closed == Tried(rows, CloseOpen(record.startedAt), false);
      }
    }
  }

  /** A written end completes its row if that is open, and changes nothing else. */
  lemma EndWrites(rows: Rows, id: string, end: End)
    ensures var after := Tried(rows, EndRow(id, end), false);
      if id in rows && rows[id].end.None? then after == rows[id := Row(rows[id].record, Some(end))] else after == rows
  {
  }

  /** Tries only: as many events as writes wait. */
  ghost predicate AllTries(events: seq<Event>) { forall i :: 0 <= i < |events| ==> events[i].Try? }

  lemma {:induction false} TriesDrain(log: Log, tries: seq<Event>)
    requires AllTries(tries) && |tries| <= |log.queue|
    ensures Run(log, tries).queue == log.queue[|tries|..]
  {
    if tries != [] {
      TriesDrain(log, tries[..|tries| - 1]);
    }
  }

  /**
   * However many writes wait before it and whatever becomes of them: once the chain has come to a boot and written
   * it, no row is on air.
   */
  lemma BootReachesTable(log: Log, at: int, tries: seq<Event>)
    requires AllTries(tries) && |tries| == |log.queue|
    ensures var after := Run(log, [Event.Boot(at)] + tries + [Try(false)]).rows;
      forall id :: id in after ==> after[id].end.Some?
  {
    var booted := Step(log, Event.Boot(at));
    var before := Run(booted, tries);
    RunConcat(log, [Event.Boot(at)], tries);
    assert [Event.Boot(at)][..0] == [];
    assert Run(log, [Event.Boot(at)]) == booted;
    TriesDrain(booted, tries);
    assert before.queue == [CloseOpen(at)];
    var events := [Event.Boot(at)] + tries;
    assert (events + [Try(false)])[..|events|] == events;
    assert Run(log, events + [Try(false)]) == Step(before, Try(false));
    assert Step(before, Try(false)).rows == ClosedAt(before.rows, at);
  }

  // ----- the first closing stays -----

  lemma ClosedStays(rows: Rows, w: Write, fails: bool, id: string)
    requires id in rows && rows[id].end.Some?
    ensures id in Tried(rows, w, fails) ==> Tried(rows, w, fails)[id] == rows[id]
  {
  }

  lemma GoneStaysGone(rows: Rows, w: Write, fails: bool, id: string)
    requires id !in rows && !(w.StartRow? && w.record.id == id)
    ensures id !in Tried(rows, w, fails)
  {
  }

  lemma {:induction false} RunConcat(log: Log, a: seq<Event>, b: seq<Event>)
    ensures Run(log, a + b) == Run(Run(log, a), b)
    decreases |b|
  {
    if b == [] {
      assert a + b == a;
    } else {
      var n := |b| - 1;
      var all := a + b;
      RunConcat(log, a, b[..n]);
      assert all[..|all| - 1] == a + b[..n] && all[|all| - 1] == b[n];
      assert Run(log, all) == Step(Run(log, all[..|all| - 1]), all[|all| - 1]);
    }
  }

  /** No start of row `id` is waiting or among the events. */
  ghost predicate NoStartOf(writes: seq<Write>, id: string) {
    forall w :: w in writes ==> !(w.StartRow? && w.record.id == id)
  }

  /**
   * A closed row keeps its first closing for as long as it is kept: no later boot, start or exit changes it.
   * It may be pruned, and then does not come back. (Ids are not reused.)
   */
  lemma {:induction false} FirstClosingStays(log: Log, events: seq<Event>, id: string)
    requires id in log.rows && log.rows[id].end.Some?
    requires NoStartOf(log.queue + AllQueued(events), id)
    ensures id in Run(log, events).rows ==> Run(log, events).rows[id] == log.rows[id]
  {
    if events != [] {
      var n := |events| - 1;
      var before, e := Run(log, events[..n]), events[n];
      assert forall w :: w in log.queue + AllQueued(events[..n]) ==> w in log.queue + AllQueued(events);
      FirstClosingStays(log, events[..n], id);
      if e.Try? && before.queue != [] {
        var w := before.queue[0];
        WaitingIsQueued(log, events[..n], w);
        assert w in log.queue + AllQueued(events);
        if id in before.rows {
          ClosedStays(before.rows, w, e.fails, id);
        } else {
          GoneStaysGone(before.rows, w, e.fails, id);
        }
      }
    }
  }

  lemma {:induction false} WaitingIsQueued(log: Log, events: seq<Event>, w: Write)
    requires w in Run(log, events).queue
    ensures w in log.queue + AllQueued(events)
  {
    if events != [] {
      var n := |events| - 1;
      var before, e := Run(log, events[..n]), events[n];
      if w in before.queue {
        WaitingIsQueued(log, events[..n], w);
      } else {
        assert w in Queued(e);
      }
    }
  }

  // ----- no negative run -----

  /** No closed row ends before it starts. */
  ghost predicate NonNegative(rows: Rows) {
    forall id :: id in rows && rows[id].end.Some? ==> rows[id].record.startedAt <= rows[id].end.value.endedAt
  }

  /** This try completes an open row at an instant before its start. */
  predicate EndsBackward(rows: Rows, w: Write, fails: bool) {
    !fails && w.EndRow? && w.id in rows && rows[w.id].end.None? && w.end.endedAt < rows[w.id].record.startedAt
  }

  /**
   * Closing what was left open never makes a negative run, however far the clock went back: only the exit of an
   * open run can, and does exactly when it is read before the run's start.
   */
  lemma NegativeIff(rows: Rows, w: Write, fails: bool)
    requires NonNegative(rows)
    ensures NonNegative(Tried(rows, w, fails)) <==> !EndsBackward(rows, w, fails)
  {
    if EndsBackward(rows, w, fails) {
      assert w.id in Tried(rows, w, fails);
    }
  }

  lemma RunNext(log: Log, events: seq<Event>, i: nat)
    requires i < |events|
    ensures Run(log, events[..i + 1]) == Step(Run(log, events[..i]), events[i])
  {
    assert events[..i + 1][..i] == events[..i];
  }

  /** Event `i` of the run tries an end that is read before its run's start. */
  ghost predicate TriesBackward(log: Log, events: seq<Event>, i: nat)
    requires i < |events|
  {
    var before := Run(log, events[..i]);
    events[i].Try? && before.queue != [] && EndsBackward(before.rows, before.queue[0], events[i].fails)
  }

  /**
   * On any clock, whatever fails: the table is without a negative run at every moment exactly when no exit is
   * written to an open row that started later.
   */
  lemma NeverNegativeIff(log: Log, events: seq<Event>)
    requires NonNegative(log.rows)
    ensures (forall i :: 0 <= i <= |events| ==> NonNegative(Run(log, events[..i]).rows))
       <==> (forall i :: 0 <= i < |events| ==> !TriesBackward(log, events, i))
  {
    if forall i :: 0 <= i < |events| ==> !TriesBackward(log, events, i) {
      forall i | 0 <= i <= |events| ensures NonNegative(Run(log, events[..i]).rows) {
        NonNegativeUpTo(log, events, i);
      }
    } else {
      var i :| 0 <= i < |events| && TriesBackward(log, events, i);
      var before := Run(log, events[..i]);
      RunNext(log, events, i);
      if NonNegative(before.rows) {
        NegativeIff(before.rows, before.queue[0], events[i].fails);
        assert !NonNegative(Run(log, events[..i + 1]).rows);
      } else {
        assert !NonNegative(Run(log, events[..i]).rows);
      }
    }
  }

  lemma {:induction false} NonNegativeUpTo(log: Log, events: seq<Event>, i: nat)
    requires NonNegative(log.rows) && i <= |events|
    requires forall k :: 0 <= k < |events| ==> !TriesBackward(log, events, k)
    ensures NonNegative(Run(log, events[..i]).rows)
  {
    if i > 0 {
      NonNegativeUpTo(log, events, i - 1);
      RunNext(log, events, i - 1);
      var before := Run(log, events[..i - 1]);
      assert !TriesBackward(log, events, i - 1);
      if events[i - 1].Try? && before.queue != [] {
        NegativeIff(before.rows, before.queue[0], events[i - 1].fails);
      }
    }
  }

  /** Every row stands for a run that was on the table before, or whose start was called. */
  lemma {:induction false} RowsAreStarted(rows: Rows, events: seq<Event>, id: string)
    ensures var log := Run(Log([], [], rows), events); id in log.rows ==>
      || (id in rows && log.rows[id].record == rows[id].record)
      || (log.rows[id].record.id == id && StartRow(log.rows[id].record) in AllQueued(events))
  {
    if events != [] {
      var n := |events| - 1;
      RowsAreStarted(rows, events[..n], id);
      var before, e := Run(Log([], [], rows), events[..n]), events[n];
      if e.Try? && before.queue != [] {
        WaitingIsQueued(Log([], [], rows), events[..n], before.queue[0]);
        RecordStays(before.rows, before.queue[0], e.fails, id);
      }
    }
  }

  lemma RecordStays(rows: Rows, w: Write, fails: bool, id: string)
    ensures var after := Tried(rows, w, fails); id in after ==>
      || (id in rows && after[id].record == rows[id].record)
      || (w == StartRow(after[id].record) && after[id].record.id == id)
  {
  }

  /** Every end called for a run is read at or after the start of that run. */
  ghost predicate EndsForward(rows: Rows, writes: seq<Write>) {
    forall e :: e in writes && e.EndRow? ==>
      && (e.id in rows ==> rows[e.id].record.startedAt <= e.end.endedAt)
      && (forall s :: s in writes && s.StartRow? && s.record.id == e.id ==> s.record.startedAt <= e.end.endedAt)
  }

  /** In terms of the calls alone: while each run's end is read no earlier than its start, no run is negative. */
  lemma {:induction false} NeverNegative(rows: Rows, events: seq<Event>)
    requires NonNegative(rows) && EndsForward(rows, AllQueued(events))
    ensures NonNegative(Run(Log([], [], rows), events).rows)
  {
    if events != [] {
      var n := |events| - 1;
      var log := Log([], [], rows);
      var before, e := Run(log, events[..n]), events[n];
      assert forall w :: w in AllQueued(events[..n]) ==> w in AllQueued(events);
      NeverNegative(rows, events[..n]);
      if e.Try? && before.queue != [] {
        var w := before.queue[0];
        WaitingIsQueued(log, events[..n], w);
        NegativeIff(before.rows, w, e.fails);
        if w.EndRow? {
          RowsAreStarted(rows, events[..n], w.id);
        }
      }
    }
  }

  lemma TwoEvents(log: Log, x: Event, y: Event)
    ensures Run(log, [x, y]) == Step(Step(log, x), y)
  {
    var events := [x, y];
    RunNext(log, events, 0);
    RunNext(log, events, 1);
    assert events[..0] == [] && events[..2] == events;
  }

  lemma EndedRow(record: Record, end: End)
    ensures Tried(Tried(map[], StartRow(record), false), EndRow(record.id, end), false)
         == map[record.id := Row(record, Some(end))]
  {
    assert Tried(map[], StartRow(record), false) == map[record.id := Row(record, None)];
  }

  /** A clock that goes back between a start and its exit does make one: the run of 100 to 50. */
  lemma ClockBackGivesNegativeRun(record: Record, end: End)
    requires record.id != "" && record.startedAt == 100 && end.endedAt == 50
    ensures var calls := [Start(Some(record)), Finish(record.id, Some(end))];
      Run(Log([], [], map[]), calls + [Try(false), Try(false)]).rows == map[record.id := Row(record, Some(end))]
    ensures !NonNegative(map[record.id := Row(record, Some(end))])
  {
    assert record.id in map[record.id := Row(record, Some(end))];
    var log := Log([], [], map[]);
    RunConcat(log, [Start(Some(record)), Finish(record.id, Some(end))], [Try(false), Try(false)]);
    TwoEvents(log, Start(Some(record)), Finish(record.id, Some(end)));
    var queued := Log([StartRow(record), EndRow(record.id, end)], [], map[]);
    assert Step(Step(log, Start(Some(record))), Finish(record.id, Some(end))) == queued;
    TwoEvents(queued, Try(false), Try(false));
    EndedRow(record, end);
  }

  // ----- no two runs overlap -----

  /** Row `a` is over when row `b` starts. */
  ghost predicate OverBefore(a: Row, b: Row) { a.end.Some? && a.end.value.endedAt <= b.record.startedAt }

  /** No two rows are on air together. */
  ghost predicate Disjoint(rows: Rows) {
    forall a, b :: a in rows && b in rows && a != b ==> OverBefore(rows[a], rows[b]) || OverBefore(rows[b], rows[a])
  }

  /** The row is not over at `at`, even if it is closed there. */
  predicate RunsPast(row: Row, at: int) {
    if row.end.Some? then row.end.value.endedAt > at else row.record.startedAt > at
  }

  /** This try adds a start under a row that runs past it and is not pruned by it. */
  ghost predicate StartsUnder(rows: Rows, w: Write, fails: bool) {
    && !fails && w.StartRow? && w.record.id !in rows
    && exists id :: id in rows && rows[id].record.startedAt >= w.record.startedAt - RETENTION_MS
                    && RunsPast(rows[id], w.record.startedAt)
  }

  lemma ClosedDisjoint(rows: Rows, at: int)
    requires Disjoint(rows)
    ensures Disjoint(ClosedAt(rows, at))
  {
    var closed := ClosedAt(rows, at);
    forall a, b | a in closed && b in closed && a != b
      ensures OverBefore(closed[a], closed[b]) || OverBefore(closed[b], closed[a])
    {
      assert OverBefore(rows[a], rows[b]) || OverBefore(rows[b], rows[a]);
    }
  }

  lemma EndedDisjoint(rows: Rows, id: string, end: End)
    requires Disjoint(rows) && id in rows && rows[id].end.None?
    ensures Disjoint(rows[id := rows[id].(end := Some(end))])
  {
    var r := rows[id := rows[id].(end := Some(end))];
    forall a, b | a in r && b in r && a != b ensures OverBefore(r[a], r[b]) || OverBefore(r[b], r[a]) {
      assert OverBefore(rows[a], rows[b]) || OverBefore(rows[b], rows[a]);
    }
  }

  lemma StartDisjointIff(rows: Rows, record: Record)
    requires Disjoint(rows) && record.id !in rows
    ensures Disjoint(Tried(rows, StartRow(record), false)) <==> !StartsUnder(rows, StartRow(record), false)
  {
    var at := record.startedAt;
    var closed, after := ClosedAt(rows, at), Tried(rows, StartRow(record), false);
    ClosedDisjoint(rows, at);
    if StartsUnder(rows, StartRow(record), false) {
      var id :| id in rows && rows[id].record.startedAt >= at - RETENTION_MS && RunsPast(rows[id], at);
      assert id in after && record.id in after && id != record.id;
      assert !OverBefore(after[id], after[record.id]) && !OverBefore(after[record.id], after[id]);
    } else {
      forall a, b | a in after && b in after && a != b
        ensures OverBefore(after[a], after[b]) || OverBefore(after[b], after[a])
      {
        assert a != record.id ==> a in closed && !RunsPast(rows[a], at);
        assert b != record.id ==> b in closed && !RunsPast(rows[b], at);
        if a != record.id && b != record.id {
          assert OverBefore(closed[a], closed[b]) || OverBefore(closed[b], closed[a]);
        }
      }
    }
  }

  /**
   * Neither a boot nor an exit makes two runs overlap, however far the clock went back: only a start can, and
   * does exactly when a row that is kept runs past it.
   */
  lemma OverlapIff(rows: Rows, w: Write, fails: bool)
    requires Disjoint(rows)
    ensures Disjoint(Tried(rows, w, fails)) <==> !StartsUnder(rows, w, fails)
  {
    if !fails {
      match w {
        case CloseOpen(at) =>
          ClosedDisjoint(rows, at);
        case StartRow(record) =>
          if record.id !in rows {
            StartDisjointIff(rows, record);
          }
        case EndRow(id, end) =>
          if id in rows && rows[id].end.None? {
            EndedDisjoint(rows, id, end);
          }
      }
    }
  }

  /** Event `i` of the run tries a start under a row that runs past it. */
  ghost predicate TriesUnder(log: Log, events: seq<Event>, i: nat)
    requires i < |events|
  {
    var before := Run(log, events[..i]);
    events[i].Try? && before.queue != [] && StartsUnder(before.rows, before.queue[0], events[i].fails)
  }

  /**
   * On any clock, whatever fails: no two runs overlap at any moment exactly when no start is written under a row
   * that runs past it.
   */
  lemma NeverOverlapIff(log: Log, events: seq<Event>)
    requires Disjoint(log.rows)
    ensures (forall i :: 0 <= i <= |events| ==> Disjoint(Run(log, events[..i]).rows))
       <==> (forall i :: 0 <= i < |events| ==> !TriesUnder(log, events, i))
  {
    if forall i :: 0 <= i < |events| ==> !TriesUnder(log, events, i) {
      forall i | 0 <= i <= |events| ensures Disjoint(Run(log, events[..i]).rows) {
        DisjointUpTo(log, events, i);
      }
    } else {
      var i :| 0 <= i < |events| && TriesUnder(log, events, i);
      var before := Run(log, events[..i]);
      RunNext(log, events, i);
      if Disjoint(before.rows) {
        OverlapIff(before.rows, before.queue[0], events[i].fails);
        assert !Disjoint(Run(log, events[..i + 1]).rows);
      } else {
        assert !Disjoint(Run(log, events[..i]).rows);
      }
    }
  }

  lemma {:induction false} DisjointUpTo(log: Log, events: seq<Event>, i: nat)
    requires Disjoint(log.rows) && i <= |events|
    requires forall k :: 0 <= k < |events| ==> !TriesUnder(log, events, k)
    ensures Disjoint(Run(log, events[..i]).rows)
  {
    if i > 0 {
      DisjointUpTo(log, events, i - 1);
      RunNext(log, events, i - 1);
      var before := Run(log, events[..i - 1]);
      assert !TriesUnder(log, events, i - 1);
      if events[i - 1].Try? && before.queue != [] {
        OverlapIff(before.rows, before.queue[0], events[i - 1].fails);
      }
    }
  }

  lemma ThreeEvents(log: Log, x: Event, y: Event, z: Event)
    ensures Run(log, [x, y, z]) == Step(Step(Step(log, x), y), z)
  {
    var events := [x, y, z];
    RunNext(log, events, 0);
    RunNext(log, events, 1);
    RunNext(log, events, 2);
    assert events[..0] == [] && events[..3] == events;
  }

  lemma ThreeTries(rows: Rows, w0: Write, w1: Write, w2: Write)
    ensures Run(Log([w0, w1, w2], [], rows), [Try(false), Try(false), Try(false)]).rows
         == Tried(Tried(Tried(rows, w0, false), w1, false), w2, false)
  {
    ThreeEvents(Log([w0, w1, w2], [], rows), Try(false), Try(false), Try(false));
  }

  /** A clock that goes back between an exit and the next start does make two: 100 to 200, and from 150 on. */
  lemma ClockBackGivesOverlap(a: Record, end: End, b: Record)
    requires a.id != "" && a.id != b.id && a.startedAt == 100 && end.endedAt == 200 && b.startedAt == 150
    ensures var calls := [Start(Some(a)), Finish(a.id, Some(end)), Start(Some(b))];
      !Disjoint(Run(Log([], [], map[]), calls + [Try(false), Try(false), Try(false)]).rows)
  {
    var log := Log([], [], map[]);
    RunConcat(log, [Start(Some(a)), Finish(a.id, Some(end)), Start(Some(b))], [Try(false), Try(false), Try(false)]);
    ThreeEvents(log, Start(Some(a)), Finish(a.id, Some(end)), Start(Some(b)));
    assert Step(Step(Step(log, Start(Some(a))), Finish(a.id, Some(end))), Start(Some(b)))
        == Log([StartRow(a), EndRow(a.id, end), StartRow(b)], [], map[]);
    ThreeTries(map[], StartRow(a), EndRow(a.id, end), StartRow(b));
    EndedRow(a, end);
    OverlapsAt150(Tried(Tried(map[], StartRow(a), false), EndRow(a.id, end), false), a, end, b);
  }

  lemma OverlapsAt150(rows: Rows, a: Record, end: End, b: Record)
    requires a.id != b.id && a.startedAt == 100 && end.endedAt == 200 && b.startedAt == 150
    requires rows == map[a.id := Row(a, Some(end))]
    ensures !Disjoint(Tried(rows, StartRow(b), false))
  {
    assert a.id in rows && RunsPast(rows[a.id], 150);
    OverlapIff(rows, StartRow(b), false);
  }

  // ----- on a clock that does not go back -----

  /** The instant a write speaks of. */
  function Instant(w: Write): int {
    match w
    case CloseOpen(at) => at
    case StartRow(record) => record.startedAt
    case EndRow(_, end) => end.endedAt
  }

  /** The calls are made on a clock that does not go back. */
  ghost predicate Clocked(writes: seq<Write>, since: int) {
    && (forall i :: 0 <= i < |writes| ==> since <= Instant(writes[i]))
    && (forall i, j :: 0 <= i < j < |writes| ==> Instant(writes[i]) <= Instant(writes[j]))
  }

  /** No row starts or ends after `now`. */
  ghost predicate UpTo(rows: Rows, now: int) {
    forall id :: id in rows ==>
      && rows[id].record.startedAt <= now
      && (rows[id].end.Some? ==> rows[id].end.value.endedAt <= now)
  }

  /** As of `now`: no row starts or ends later, none ends before it starts, and no two are on air together. */
  ghost predicate Timeline(rows: Rows, now: int) { UpTo(rows, now) && NonNegative(rows) && Disjoint(rows) }

  lemma TriedUpTo(rows: Rows, w: Write, fails: bool, now: int)
    requires UpTo(rows, now) && now <= Instant(w)
    ensures UpTo(Tried(rows, w, fails), Instant(w))
    ensures !EndsBackward(rows, w, fails) && !StartsUnder(rows, w, fails)
  {
  }

  lemma TriedTimeline(rows: Rows, w: Write, fails: bool, now: int)
    requires Timeline(rows, now) && now <= Instant(w)
    ensures Timeline(Tried(rows, w, fails), Instant(w))
  {
    TriedUpTo(rows, w, fails, now);
    NegativeIff(rows, w, fails);
    OverlapIff(rows, w, fails);
  }

  /** The latest instant tried. */
  function LastInstant(writes: seq<Write>, since: int): int {
    if writes == [] then since else Instant(writes[|writes| - 1])
  }

  lemma ClockedPrefix(a: seq<Write>, b: seq<Write>, since: int)
    requires Clocked(a + b, since)
    ensures Clocked(a, since)
  {
    assert forall i :: 0 <= i < |a| ==> a[i] == (a + b)[i];
  }

  /** The next write speaks of no earlier instant than the last one tried. */
  lemma NextInstant(tried: seq<Write>, queue: seq<Write>, since: int)
    requires Clocked(tried + queue, since) && queue != []
    ensures LastInstant(tried, since) <= Instant(queue[0])
  {
    var all := tried + queue;
    assert all[|tried|] == queue[0];
    if tried != [] {
      assert all[|tried| - 1] == tried[|tried| - 1];
    }
  }

  lemma {:induction false} RunTimeline(rows: Rows, events: seq<Event>, since: int)
    requires Timeline(rows, since) && Clocked(AllQueued(events), since)
    ensures var log := Run(Log([], [], rows), events); Timeline(log.rows, LastInstant(log.tried, since))
  {
    if events != [] {
      var n := |events| - 1;
      var log := Log([], [], rows);
      var before, e := Run(log, events[..n]), events[n];
      ClockedPrefix(AllQueued(events[..n]), Queued(e), since);
      RunTimeline(rows, events[..n], since);
      if e.Try? && before.queue != [] {
        TriedInCallOrder(log, events[..n]);
        assert [] + [] + AllQueued(events[..n]) == AllQueued(events[..n]);
        NextInstant(before.tried, before.queue, since);
        TriedTimeline(before.rows, before.queue[0], e.fails, LastInstant(before.tried, since));
      }
    }
  }

  /** On a clock that does not go back no two runs overlap, whichever writes fail, and however late they are tried. */
  lemma RunsNeverOverlap(rows: Rows, events: seq<Event>, since: int, a: string, b: string)
    requires Timeline(rows, since) && Clocked(AllQueued(events), since)
    requires a in Run(Log([], [], rows), events).rows && b in Run(Log([], [], rows), events).rows && a != b
    ensures var after := Run(Log([], [], rows), events).rows;
      && (OverBefore(after[a], after[b]) || OverBefore(after[b], after[a]))
      && (after[a].end.Some? ==> after[a].record.startedAt <= after[a].end.value.endedAt)
  {
    RunTimeline(rows, events, since);
  }
}
