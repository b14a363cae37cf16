/**
 * The request protocol of the on-air preview: the effect of
 * apps/web/components/overlay-render-preview.tsx, with timers, answers, failures and aborts in any order.
 */
module RenderPreview {

  /** Where a request stands; an outcome is the markup it brought or the message it failed with. */
  datatype Phase = Waiting | Fetching | Drawn(markup: string) | Broken(message: string) | Cleared

  datatype Request = Request(phase: Phase, aborted: bool, settleMs: nat)

  /**
   * `shownBy` is the number of the request that set the picture, 0 before any did; the requests are numbered
   * from 1.
   */
  datatype State = State(
    requestSeq: nat, lastRevision: int, svg: string, shownBy: nat, error: string, pending: bool,
    mounted: bool, requests: seq<Request>)

  datatype Event =
    | Rerun(revision: int)
    | Unmount
    | TimerFires(n: nat)
    | Answered(n: nat, markup: string)
    | Failed(n: nat, message: string)

  function Initial(revision: int): State { State(0, revision, "", 0, "", true, false, []) }

  predicate InPhase(s: State, n: nat, phase: Phase) { 0 < n <= |s.requests| && s.requests[n - 1].phase == phase }

  function WithPhase(s: State, n: nat, phase: Phase): State
    requires 0 < n <= |s.requests|
  {
    s.(requests := s.requests[n - 1 := s.requests[n - 1].(phase := phase)])
  }

  /** The cleanup of the newest effect: its timer is cleared and its request aborted. */
  function Cleaned(s: State): State {
    if !s.mounted || s.requests == [] then s
    else
      var k := |s.requests| - 1;
      var r := s.requests[k];
      s.(requests := s.requests[k := Request(if r.phase == Waiting then Cleared else r.phase, true, r.settleMs)])
  }

  function Step(s: State, e: Event): State {
    match e
    case Rerun(revision) =>
      var c := Cleaned(s);
      c.(requestSeq := c.requestSeq + 1, pending := true, lastRevision := revision, mounted := true,
         requests := c.requests + [Request(Waiting, false, if revision == c.lastRevision then 250 else 0)])
    case Unmount =>
      Cleaned(s).(mounted := false)
    case TimerFires(n) =>
      if InPhase(s, n, Waiting) then WithPhase(s, n, Fetching) else s
    case Answered(n, markup) =>
      if !InPhase(s, n, Fetching) then s
      else
        var t := WithPhase(s, n, Drawn(markup));
        if s.mounted && s.requestSeq == n then t.(svg := markup, shownBy := n, error := "", pending := false) else t
    case Failed(n, message) =>
      if !InPhase(s, n, Fetching) then s
      else
        var t := WithPhase(s, n, Broken(message));
        if !s.mounted || s.requestSeq != n then t
        else if s.requests[n - 1].aborted then t.(pending := false)
        else t.(error := message, pending := false)
  }

  function Run(s: State, events: seq<Event>): State {
    if events == [] then s else Step(Run(s, events[..|events| - 1]), events[|events| - 1])
  }

  class OverlayRenderPreview {
    var requestSeq: nat
    var lastRevision: int
    var svg: string
    var error: string
    var pending: bool
    var mounted: bool
    var requests: seq<Request>
    ghost var shownBy: nat

    ghost function Value(): State
      reads this
    {
      State(requestSeq, lastRevision, svg, shownBy, error, pending, mounted, requests)
    }

    /** The screen shows what it owes to the newest request. */
    ghost predicate Valid()
      reads this
    {
      Inv(Value())
    }

    constructor (revision: int)
      ensures Valid() && Value() == Initial(revision)
    {
      requestSeq, lastRevision, svg, shownBy := 0, revision, "", 0;
      error, pending, mounted, requests := "", true, false, [];
    }

    /** What the effect returned for the next run or the unmount to call. */
    method Cleanup()
      modifies this
      ensures Value() == Cleaned(old(Value()))
    {
      if mounted && requests != [] {
        var k := |requests| - 1;
        var r := requests[k];
        requests := requests[k := Request(if r.phase == Waiting then Cleared else r.phase, true, r.settleMs)];
      }
    }

    method RunEffect(revision: int)
      requires Valid()
      modifies this
      ensures Valid() && Value() == Step(old(Value()), Rerun(revision))
    {
      StepKeepsInv(Value(), Rerun(revision));
      Cleanup();
      mounted := true;
      var seqNo := requestSeq + 1;
      requestSeq := seqNo;
      pending := true;
      var settleMs := if revision == lastRevision then 250 else 0;
      lastRevision := revision;
      requests := requests + [Request(Waiting, false, settleMs)];
    }

    method Leave()
      requires Valid()
      modifies this
      ensures Valid() && Value() == Step(old(Value()), Unmount)
    {
      StepKeepsInv(Value(), Unmount);
      Cleanup();
      mounted := false;
    }

    method OnTimer(n: nat)
      requires Valid()
      modifies this
      ensures Valid() && Value() == Step(old(Value()), TimerFires(n))
    {
      StepKeepsInv(Value(), TimerFires(n));
      if 0 < n <= |requests| && requests[n - 1].phase == Waiting {
        requests := requests[n - 1 := requests[n - 1].(phase := Fetching)];
      }
    }

    /** The markup has arrived. A state set on a component that is gone has no effect. */
    method OnAnswer(n: nat, markup: string)
      requires Valid()
      modifies this
      ensures Valid() && Value() == Step(old(Value()), Answered(n, markup))
    {
      StepKeepsInv(Value(), Answered(n, markup));
      if n == 0 || n > |requests| || requests[n - 1].phase != Fetching {
        return;
      }
      requests := requests[n - 1 := requests[n - 1].(phase := Drawn(markup))];
      if !mounted {
        return;
      }
      if requestSeq == n {
        svg := markup;
        shownBy := n;
        error := "";
      }
      if requestSeq == n {
        pending := false;
      }
    }

    /** The request was refused, failed or was aborted. */
    method OnFailure(n: nat, message: string)
      requires Valid()
      modifies this
      ensures Valid() && Value() == Step(old(Value()), Failed(n, message))
    {
      StepKeepsInv(Value(), Failed(n, message));
      if n == 0 || n > |requests| || requests[n - 1].phase != Fetching {
        return;
      }
      var aborted := requests[n - 1].aborted;
      requests := requests[n - 1 := requests[n - 1].(phase := Broken(message))];
      if !mounted {
        return;
      }
      if !(aborted || requestSeq != n) {
        error := message;
      }
      if requestSeq == n {
        pending := false;
      }
    }
  }

  // ----- what every run keeps -----

  /** The newest request has come to an end. */
  predicate Settled(s: State)
    requires s.requests != []
  {
    s.requests[|s.requests| - 1].phase.Drawn? || s.requests[|s.requests| - 1].phase.Broken?
  }

  /** What the screen owes to the newest request. */
  ghost predicate Inv(s: State) {
    && s.requestSeq == |s.requests|
    && s.shownBy <= s.requestSeq
    && (s.mounted ==>
          && s.requests != []
          && !s.requests[|s.requests| - 1].aborted
          && s.requests[|s.requests| - 1].phase != Cleared
          && (s.pending <==> !Settled(s))
          && (match s.requests[|s.requests| - 1].phase
              case Drawn(markup) => s.svg == markup && s.shownBy == s.requestSeq && s.error == ""
              case Broken(message) => s.error == message
              case _ => true))
    && (forall i :: 0 <= i < |s.requests| - 1 ==> s.requests[i].aborted)
    && (!s.mounted ==> forall i :: 0 <= i < |s.requests| ==> s.requests[i].aborted)
  }

  lemma StepKeepsInv(s: State, e: Event)
    requires Inv(s)
    ensures Inv(Step(s, e))
  {
  }

  lemma {:induction false} RunKeepsInv(s: State, events: seq<Event>)
    requires Inv(s)
    ensures Inv(Run(s, events))
  {
    if events != [] {
      RunKeepsInv(s, events[..|events| - 1]);
      StepKeepsInv(Run(s, events[..|events| - 1]), events[|events| - 1]);
    }
  }

  /**
   * While the preview is on the page, pending is false exactly when the newest request has come to an end;
   * and then the screen shows what that request brought: its picture without an error, or its message.
   */
  lemma ScreenIsNewest(revision: int, events: seq<Event>)
    ensures var s := Run(Initial(revision), events);
      s.mounted ==>
        && s.requestSeq == |s.requests| > 0
        && (!s.pending <==> Settled(s))
        && (s.requests[s.requestSeq - 1].phase.Drawn? ==>
              s.svg == s.requests[s.requestSeq - 1].phase.markup && s.shownBy == s.requestSeq && s.error == "")
        && (s.requests[s.requestSeq - 1].phase.Broken? ==> s.error == s.requests[s.requestSeq - 1].phase.message)
  {
    RunKeepsInv(Initial(revision), events);
  }

  /** A picture, an error or the number of the picture changes only by the newest request, and only while mounted. */
  lemma OnlyNewestChanges(s: State, e: Event)
    requires Inv(s)
    ensures Step(s, e).svg != s.svg || Step(s, e).error != s.error || Step(s, e).shownBy != s.shownBy ==>
      s.mounted && (e.Answered? || e.Failed?) && e.n == s.requestSeq
    ensures Step(s, e).svg != s.svg ==> e.Answered? && Step(s, e).shownBy == s.requestSeq
    ensures Step(s, e).shownBy >= s.shownBy
  {
  }

  /** Over any run the picture shown never comes from an older request than the one before it. */
  lemma {:induction false} PictureNeverOlder(s: State, events: seq<Event>)
    requires Inv(s)
    ensures Run(s, events).shownBy >= s.shownBy
  {
    if events != [] {
      var n := |events| - 1;
      PictureNeverOlder(s, events[..n]);
      RunKeepsInv(s, events[..n]);
      OnlyNewestChanges(Run(s, events[..n]), events[n]);
    }
  }

  /** A superseded request was aborted, so neither its answer nor its failure shows. */
  lemma SupersededIsSilent(s: State, e: Event)
    requires Inv(s) && (e.Answered? || e.Failed?) && e.n < s.requestSeq
    ensures Step(s, e) == s.(requests := Step(s, e).requests)
  {
  }

  // ----- the view -----

  datatype View = ErrorBox(message: string) | Drawing | Picture(svg: string, pending: bool)

  function ViewOf(s: State): View {
    if s.error != "" && s.svg == "" then ErrorBox(s.error)
    else if s.svg == "" then Drawing
    else Picture(s.svg, s.pending)
  }

  /** Once a picture is shown, no failure, abort or new request takes it away: only an empty answer could. */
  lemma {:induction false} PictureStays(s: State, events: seq<Event>)
    requires ViewOf(s).Picture?
    requires forall i :: 0 <= i < |events| && events[i].Answered? ==> events[i].markup != ""
    ensures ViewOf(Run(s, events)).Picture?
  {
    if events != [] {
      PictureStays(s, events[..|events| - 1]);
    }
  }

  // ----- the settle beat -----

  /** The revisions the effects ran with, in order. */
  function Revisions(events: seq<Event>): seq<int> {
    if events == [] then []
    else
      var before, e := Revisions(events[..|events| - 1]), events[|events| - 1];
      if e.Rerun? then before + [e.revision] else before
  }

  function LastOr(revisions: seq<int>, first: int): int {
    if revisions == [] then first else revisions[|revisions| - 1]
  }

  /** The beat each request is due: none exactly when its revision is not that of the effect before. */
  predicate BeatsFollow(requests: seq<Request>, first: int, revisions: seq<int>) {
    && |requests| == |revisions|
    && forall k :: 0 <= k < |requests| ==>
         requests[k].settleMs == if revisions[k] == LastOr(revisions[..k], first) then 250 else 0
  }

  lemma CleanedKeepsBeats(s: State)
    ensures |Cleaned(s).requests| == |s.requests| && Cleaned(s).lastRevision == s.lastRevision
    ensures forall k :: 0 <= k < |s.requests| ==> Cleaned(s).requests[k].settleMs == s.requests[k].settleMs
  {
  }

  lemma OtherKeepsBeats(s: State, e: Event)
    requires !e.Rerun?
    ensures var t := Step(s, e);
      && |t.requests| == |s.requests| && t.lastRevision == s.lastRevision
      && forall k :: 0 <= k < |s.requests| ==> t.requests[k].settleMs == s.requests[k].settleMs
  {
    CleanedKeepsBeats(s);
  }

  lemma NextBeat(requests: seq<Request>, more: seq<Request>, first: int, revisions: seq<int>, revision: int)
    requires BeatsFollow(requests, first, revisions) && |more| == |requests| + 1
    requires forall k :: 0 <= k < |requests| ==> more[k].settleMs == requests[k].settleMs
    requires more[|requests|].settleMs == if revision == LastOr(revisions, first) then 250 else 0
    ensures BeatsFollow(more, first, revisions + [revision])
  {
    var next := revisions + [revision];
    forall k | 0 <= k < |more| ensures more[k].settleMs == if next[k] == LastOr(next[..k], first) then 250 else 0 {
      assert next[..k] == revisions[..k];
      if k == |requests| {
        assert revisions[..k] == revisions;
      }
    }
  }

  /**
   * Over any run the k-th request waits out the settle beat exactly when its effect ran with the revision of
   * the effect before it; the first is measured against the revision the preview was opened with. Timers,
   * answers, failures and leaving change nothing of that, so a drop always skips the beat and a mere change
   * of the draft never does.
   */
  lemma {:induction false} DropSkipsTheBeat(first: int, events: seq<Event>)
    ensures var s, revisions := Run(Initial(first), events), Revisions(events);
      BeatsFollow(s.requests, first, revisions) && s.lastRevision == LastOr(revisions, first)
  {
    if events != [] {
      var n := |events| - 1;
      var s, e := Run(Initial(first), events[..n]), events[n];
      DropSkipsTheBeat(first, events[..n]);
      if e.Rerun? {
        CleanedKeepsBeats(s);
        NextBeat(s.requests, Step(s, e).requests, first, Revisions(events[..n]), e.revision);
      } else {
        OtherKeepsBeats(s, e);
      }
    }
  }

  // ----- a request that is left alone shows what it brings -----

  lemma SameThen(s: State, a: seq<Event>, t: State, b: seq<Event>, e: Event)
    requires Run(s, a) == Run(t, b)
    ensures Run(s, a + [e]) == Run(t, b + [e])
  {
    RunThen(s, a, e);
    RunThen(t, b, e);
  }

  lemma LastBehind<T>(a: seq<T>, b: seq<T>)
    requires b != []
    ensures a + b == a + b[..|b| - 1] + [b[|b| - 1]]
  {
  }

  lemma {:induction false} RunConcat(s: State, a: seq<Event>, b: seq<Event>)
    ensures Run(s, a + b) == Run(Run(s, a), b)
    decreases |b|
  {
    if b == [] {
      assert a + b == a;
    } else {
      var n, t := |b| - 1, Run(s, a);
      assert a + b == a + b[..n] + [b[n]] by { LastBehind(a, b); }
      assert b == b[..n] + [b[n]];
      RunConcat(s, a, b[..n]);
      SameThen(s, a + b[..n], t, b[..n], b[n]);
    }
  }

  lemma RunThen(s: State, events: seq<Event>, e: Event)
    ensures Run(s, events + [e]) == Step(Run(s, events), e)
  {
    assert (events + [e])[..|events|] == events;
  }

  /** Timers, answers and failures of requests other than `n`. */
  ghost predicate OfOthers(events: seq<Event>, n: nat) {
    forall i :: 0 <= i < |events| ==>
      (events[i].TimerFires? || events[i].Answered? || events[i].Failed?) && events[i].n != n
  }

  /** No new effect, and the preview stays on the page. */
  ghost predicate NoEffect(events: seq<Event>) {
    forall i :: 0 <= i < |events| ==> !events[i].Rerun? && !events[i].Unmount?
  }

  /** Request `n` is the newest, in that phase, and nothing has come of it yet. */
  predicate Expects(s: State, n: nat, phase: Phase) {
    && s.mounted && s.requestSeq == n == |s.requests| && n > 0
    && s.requests[n - 1].phase == phase && !s.requests[n - 1].aborted && s.pending
  }

  predicate SameScreen(s: State, t: State) { t.svg == s.svg && t.shownBy == s.shownBy && t.error == s.error }

  lemma {:induction false} OthersLeaveIt(s: State, events: seq<Event>, n: nat, phase: Phase)
    requires Expects(s, n, phase) && OfOthers(events, n)
    ensures Expects(Run(s, events), n, phase) && SameScreen(s, Run(s, events))
  {
    if events != [] {
      OthersLeaveIt(s, events[..|events| - 1], n, phase);
    }
  }

  /** How many effects have run. */
  function Effects(events: seq<Event>): nat { |Revisions(events)| }

  lemma EffectExpects(first: int, before: seq<Event>, revision: int)
    ensures var s := Run(Initial(first), before);
      && Expects(Step(s, Rerun(revision)), Effects(before) + 1, Waiting)
      && SameScreen(s, Step(s, Rerun(revision)))
  {
    DropSkipsTheBeat(first, before);
    RunKeepsInv(Initial(first), before);
    CleanedKeepsBeats(Run(Initial(first), before));
  }

  /** An effect, the timer of its request, and other requests' events around it. */
  function Fetched(before: seq<Event>, revision: int, calm: seq<Event>, more: seq<Event>): seq<Event> {
    before + [Rerun(revision)] + calm + [TimerFires(Effects(before) + 1)] + more
  }

  lemma FetchedExpects(first: int, before: seq<Event>, revision: int, calm: seq<Event>, more: seq<Event>)
    requires OfOthers(calm, Effects(before) + 1) && OfOthers(more, Effects(before) + 1)
    ensures var s := Run(Initial(first), Fetched(before, revision, calm, more));
      Expects(s, Effects(before) + 1, Fetching) && SameScreen(Run(Initial(first), before), s)
  {
    var n, s := Effects(before) + 1, Initial(first);
    EffectExpects(first, before, revision);
    RunThen(s, before, Rerun(revision));
    RunConcat(s, before + [Rerun(revision)], calm);
    OthersLeaveIt(Run(s, before + [Rerun(revision)]), calm, n, Waiting);
    RunThen(s, before + [Rerun(revision)] + calm, TimerFires(n));
    RunConcat(s, before + [Rerun(revision)] + calm + [TimerFires(n)], more);
    OthersLeaveIt(Run(s, before + [Rerun(revision)] + calm + [TimerFires(n)]), more, n, Fetching);
  }

  /** The newest request has settled: until the next effect nothing changes on the screen. */
  lemma {:induction false} SettledStays(s: State, later: seq<Event>)
    requires Inv(s) && s.mounted && Settled(s) && NoEffect(later)
    ensures var t := Run(s, later);
      Inv(t) && t.mounted && Settled(t) && |t.requests| == |s.requests| && SameScreen(s, t) && !t.pending
  {
    if later != [] {
      SettledStays(s, later[..|later| - 1]);
      StepKeepsInv(Run(s, later[..|later| - 1]), later[|later| - 1]);
    }
  }

  /**
   * After any events: an effect whose timer fires and whose request is answered, while no other effect runs and the
   * preview stays, shows its picture without an error, and is no longer pending. It stays so until the next effect,
   * whatever else comes back.
   */
  lemma AnswerShows(first: int, before: seq<Event>, revision: int, calm: seq<Event>, more: seq<Event>,
                    markup: string, later: seq<Event>)
    requires OfOthers(calm, Effects(before) + 1) && OfOthers(more, Effects(before) + 1) && NoEffect(later)
    ensures var n := Effects(before) + 1;
      var s := Run(Initial(first), Fetched(before, revision, calm, more) + [Answered(n, markup)] + later);
      s.svg == markup && s.shownBy == n && s.error == "" && !s.pending
  {
    var n, events := Effects(before) + 1, Fetched(before, revision, calm, more);
    FetchedExpects(first, before, revision, calm, more);
    RunThen(Initial(first), events, Answered(n, markup));
    RunConcat(Initial(first), events + [Answered(n, markup)], later);
    RunKeepsInv(Initial(first), events + [Answered(n, markup)]);
    SettledStays(Run(Initial(first), events + [Answered(n, markup)]), later);
  }

  /** One that fails shows its message beside the picture from before, and is no longer pending. */
  lemma FailureShows(first: int, before: seq<Event>, revision: int, calm: seq<Event>, more: seq<Event>,
                     message: string, later: seq<Event>)
    requires OfOthers(calm, Effects(before) + 1) && OfOthers(more, Effects(before) + 1) && NoEffect(later)
    ensures var n := Effects(before) + 1;
      var was := Run(Initial(first), before);
      var s := Run(Initial(first), Fetched(before, revision, calm, more) + [Failed(n, message)] + later);
      s.error == message && s.svg == was.svg && s.shownBy == was.shownBy && !s.pending
  {
    var n, events := Effects(before) + 1, Fetched(before, revision, calm, more);
    FetchedExpects(first, before, revision, calm, more);
    RunThen(Initial(first), events, Failed(n, message));
    RunConcat(Initial(first), events + [Failed(n, message)], later);
    RunKeepsInv(Initial(first), events + [Failed(n, message)]);
    SettledStays(Run(Initial(first), events + [Failed(n, message)]), later);
  }

  // ----- a request that is superseded in its beat is never made -----

  /** Only the newest request of a mounted preview waits out its beat. */
  ghost predicate OldTimersCleared(s: State) {
    forall i :: 0 <= i < |s.requests| && s.requests[i].phase == Waiting ==> s.mounted && i == |s.requests| - 1
  }

  lemma {:induction false} TimersCleared(s: State, events: seq<Event>)
    requires OldTimersCleared(s)
    ensures OldTimersCleared(Run(s, events))
  {
    if events != [] {
      TimersCleared(s, events[..|events| - 1]);
    }
  }

  /** A timer that fires for a superseded request, or after the preview has left the page, starts nothing. */
  lemma LateTimerStartsNothing(first: int, events: seq<Event>, n: nat)
    ensures var s := Run(Initial(first), events);
      n != Effects(events) || !s.mounted ==> Step(s, TimerFires(n)) == s
  {
    DropSkipsTheBeat(first, events);
    TimersCleared(Initial(first), events);
  }
}
