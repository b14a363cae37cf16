/** Who is active in the chat: `ActiveChatterRoster` of apps/worker/src/active-chatters.ts. */
module ChatterRoster {
  import opened Wrappers

  /** `seen` is the pruned map, `window` the current window in milliseconds. */
  datatype Roster = Roster(seen: map<string, int>, window: int)

  datatype Op =
    | Record(actor: string, at: int)
    | Settings(window: int)
    | Count(now: int)

  function Recorded(seen: map<string, int>, key: string, at: int): map<string, int> {
    if key == "" then seen else seen[key := at]
  }

  function Pruned(seen: map<string, int>, oldestAllowed: int): map<string, int> {
    map actor | actor in seen && seen[actor] >= oldestAllowed :: seen[actor]
  }

  /** `normal` trims and lowers a login. */
  function Step(r: Roster, op: Op, normal: string -> string): Roster {
    match op
    case Record(actor, at) => r.(seen := Recorded(r.seen, normal(actor), at))
    case Settings(window) => r.(window := window)
    case Count(now) => r.(seen := Pruned(r.seen, now - r.window))
  }

  function Run(window: int, ops: seq<Op>, normal: string -> string): Roster {
    if ops == [] then Roster(map[], window) else Step(Run(window, ops[..|ops| - 1], normal), ops[|ops| - 1], normal)
  }

  class ActiveChatterRoster {
    const normal: string -> string
    var seenAt: map<string, int>
    var windowMs: int

    ghost function Value(): Roster
      reads this
    {
      Roster(seenAt, windowMs)
    }

    constructor (window: int, normal: string -> string)
      ensures Value() == Roster(map[], window) && this.normal == normal
    {
      seenAt, windowMs, this.normal := map[], window, normal;
    }

    method ApplySettings(window: int)
      modifies this
      ensures Value() == Step(old(Value()), Settings(window), normal)
    {
      windowMs := window;
    }

    method RecordSeen(actor: string, atMs: int)
      modifies this
      ensures Value() == Step(old(Value()), Record(actor, atMs), normal)
    {
      var key := normal(actor);
      if key == "" {
        return;
      }
      seenAt := seenAt[key := atMs];
    }

    /** Forgets who spoke last before the window, and counts the rest. */
    method CountActive(nowMs: int) returns (n: nat)
      modifies this
      ensures Value() == Step(old(Value()), Count(nowMs), normal)
      ensures n == |seenAt|
    {
      var oldestAllowed := nowMs - windowMs;
      var left := seenAt.Keys;
      while left != {}
        invariant left <= seenAt.Keys <= old(seenAt).Keys
        invariant windowMs == old(windowMs)
        invariant forall a :: a in seenAt ==> seenAt[a] == old(seenAt)[a]
        invariant forall a :: a in old(seenAt) && a !in left ==> (a in seenAt <==> old(seenAt)[a] >= oldestAllowed)
        decreases left
      {
        var actor :| actor in left;
        if seenAt[actor] < oldestAllowed {
          seenAt := seenAt - {actor};
        }
        left := left - {actor};
      }
      n := |seenAt|;
    }
  }

  // ----- the full history -----

  /** The last time recorded under each login, nothing ever forgotten. */
  function History(ops: seq<Op>, normal: string -> string): map<string, int> {
    if ops == [] then map[]
    else
      var before, op := History(ops[..|ops| - 1], normal), ops[|ops| - 1];
      if op.Record? && normal(op.actor) != "" then before[normal(op.actor) := op.at] else before
  }

  /** The time of the last call that recorded the login under any spelling. */
  function LastRecord(ops: seq<Op>, normal: string -> string, actor: string): Option<int> {
    if ops == [] then None
    else
      match ops[|ops| - 1]
      case Record(spelling, at) =>
        if normal(spelling) == actor then Some(at) else LastRecord(ops[..|ops| - 1], normal, actor)
      case _ => LastRecord(ops[..|ops| - 1], normal, actor)
  }

  /** The history is the last record of every login that is not blank. */
  lemma {:induction false} HistoryIs(ops: seq<Op>, normal: string -> string, actor: string)
    ensures actor in History(ops, normal) <==> actor != "" && LastRecord(ops, normal, actor).Some?
    ensures actor in History(ops, normal) ==> LastRecord(ops, normal, actor) == Some(History(ops, normal)[actor])
  {
    if ops != [] {
      HistoryIs(ops[..|ops| - 1], normal, actor);
    }
  }

  /** The logins whose last recorded time is within the window that starts at `cutoff`. */
  function ActiveSince(ops: seq<Op>, normal: string -> string, cutoff: int): set<string> {
    set actor | actor in History(ops, normal) && History(ops, normal)[actor] >= cutoff
  }

  /** The window last set. */
  function WindowAfter(window: int, ops: seq<Op>): int {
    if ops == [] then window
    else if ops[|ops| - 1].Settings? then ops[|ops| - 1].window
    else WindowAfter(window, ops[..|ops| - 1])
  }

  lemma {:induction false} RunWindow(window: int, ops: seq<Op>, normal: string -> string)
    ensures Run(window, ops, normal).window == WindowAfter(window, ops)
  {
    if ops != [] {
      RunWindow(window, ops[..|ops| - 1], normal);
    }
  }

  /** The start of the window at a count. */
  function Cutoff(window: int, ops: seq<Op>, now: int): int { now - WindowAfter(window, ops) }

  /** The cutoffs of all counts so far lie at or before `bound`. */
  ghost predicate CutoffsUpTo(window: int, ops: seq<Op>, bound: int) {
    forall i :: 0 <= i < |ops| && ops[i].Count? ==> Cutoff(window, ops[..i], ops[i].now) <= bound
  }

  ghost predicate PartOf(seen: map<string, int>, full: map<string, int>) {
    forall a :: a in seen ==> a in full && full[a] == seen[a]
  }

  /** Nothing recorded at or after `bound` is missing. */
  ghost predicate HoldsSince(seen: map<string, int>, full: map<string, int>, bound: int) {
    forall a :: a in full && full[a] >= bound ==> a in seen
  }

  lemma StepIsPart(r: Roster, full: map<string, int>, op: Op, normal: string -> string, bound: int)
    requires PartOf(r.seen, full)
    ensures var full' := if op.Record? then Recorded(full, normal(op.actor), op.at) else full;
      && PartOf(Step(r, op, normal).seen, full')
      && (HoldsSince(r.seen, full, bound) && (op.Count? ==> op.now - r.window <= bound) ==>
        HoldsSince(Step(r, op, normal).seen, full', bound))
  {
    match op
    case Record(actor, at) =>
    case Settings(window) =>
    case Count(now) =>
  }

  lemma CutoffsOfPrefix(window: int, ops: seq<Op>, bound: int)
    requires ops != [] && CutoffsUpTo(window, ops, bound)
    ensures CutoffsUpTo(window, ops[..|ops| - 1], bound)
  {
    var n := |ops| - 1;
    forall i | 0 <= i < n && ops[..n][i].Count? ensures Cutoff(window, ops[..n][..i], ops[..n][i].now) <= bound {
      assert ops[..n][..i] == ops[..i];
    }
  }

  /** The roster holds part of the history, and lacks only what lay before some earlier cutoff. */
  lemma {:induction false} RosterIsPartOfHistory(window: int, ops: seq<Op>, normal: string -> string, bound: int)
    ensures PartOf(Run(window, ops, normal).seen, History(ops, normal))
    ensures CutoffsUpTo(window, ops, bound) ==> HoldsSince(Run(window, ops, normal).seen, History(ops, normal), bound)
  {
    if ops != [] {
      var n := |ops| - 1;
      RosterIsPartOfHistory(window, ops[..n], normal, bound);
      RunWindow(window, ops[..n], normal);
      StepIsPart(Run(window, ops[..n], normal), History(ops[..n], normal), ops[n], normal, bound);
      if CutoffsUpTo(window, ops, bound) {
        CutoffsOfPrefix(window, ops, bound);
        assert ops[n].Count? ==> Cutoff(window, ops[..n], ops[n].now) <= bound;
      }
    }
  }

  /** What `CountActive(now)` answers after `ops`. */
  function Answer(window: int, ops: seq<Op>, normal: string -> string, now: int): nat {
    |Pruned(Run(window, ops, normal).seen, Cutoff(window, ops, now))|
  }

  /** The logins a count keeps. */
  function KeptAt(seen: map<string, int>, cutoff: int): (kept: set<string>)
    ensures kept == Pruned(seen, cutoff).Keys
  {
    set a | a in seen && seen[a] >= cutoff
  }

  lemma KeptAgainstHistory(seen: map<string, int>, full: map<string, int>, cutoff: int)
    requires PartOf(seen, full)
    ensures var active := set a | a in full && full[a] >= cutoff;
      && KeptAt(seen, cutoff) <= active
      && (KeptAt(seen, cutoff) == active <==> HoldsSince(seen, full, cutoff))
  {
    var active := set a | a in full && full[a] >= cutoff;
    if KeptAt(seen, cutoff) == active {
      forall a | a in full && full[a] >= cutoff ensures a in seen {
        assert a in active;
      }
    }
  }

  /** A count never exceeds the full history's chatters in the window, and is exact while the cutoff never went back. */
  lemma CountIsExact(window: int, ops: seq<Op>, normal: string -> string, now: int)
    ensures var cutoff := Cutoff(window, ops, now);
      && Answer(window, ops, normal, now) <= |ActiveSince(ops, normal, cutoff)|
      && (CutoffsUpTo(window, ops, cutoff) ==> Answer(window, ops, normal, now) == |ActiveSince(ops, normal, cutoff)|)
  {
    var cutoff := Cutoff(window, ops, now);
    var seen := Run(window, ops, normal).seen;
    RosterIsPartOfHistory(window, ops, normal, cutoff);
    KeptAgainstHistory(seen, History(ops, normal), cutoff);
    SubsetSize(KeptAt(seen, cutoff), ActiveSince(ops, normal, cutoff));
    MapSize(Pruned(seen, cutoff));
  }

  lemma MapSize(m: map<string, int>)
    ensures |m| == |m.Keys|
  {
  }

  /**
   * A count since the last line of `actor` had a cutoff later than that line, as when the window was narrower
   * then or the clock ahead.
   */
  predicate Forgotten(window: int, ops: seq<Op>, normal: string -> string, actor: string) {
    ops != [] &&
      var before, op := ops[..|ops| - 1], ops[|ops| - 1];
      match op
      case Record(spelling, _) => normal(spelling) != actor && Forgotten(window, before, normal, actor)
      case Settings(_) => Forgotten(window, before, normal, actor)
      case Count(now) =>
        || Forgotten(window, before, normal, actor)
        || (actor in History(before, normal) && History(before, normal)[actor] < Cutoff(window, before, now))
  }

  lemma {:induction false} BlankIsNobody(ops: seq<Op>, normal: string -> string)
    ensures "" !in History(ops, normal)
  {
    if ops != [] {
      BlankIsNobody(ops[..|ops| - 1], normal);
    }
  }

  /** The roster holds exactly the logins recorded and not forgotten since. */
  lemma {:induction false} HeldIff(window: int, ops: seq<Op>, normal: string -> string, actor: string)
    ensures actor in Run(window, ops, normal).seen
       <==> actor in History(ops, normal) && !Forgotten(window, ops, normal, actor)
  {
    if ops != [] {
      var before := ops[..|ops| - 1];
      HeldIff(window, before, normal, actor);
      BlankIsNobody(before, normal);
      RunWindow(window, before, normal);
      RosterIsPartOfHistory(window, before, normal, 0);
    }
  }

  /** It is exact precisely when no login of the window was forgotten by a count since its last line. */
  lemma CountIsExactIff(window: int, ops: seq<Op>, normal: string -> string, now: int)
    ensures var active := ActiveSince(ops, normal, Cutoff(window, ops, now));
      Answer(window, ops, normal, now) == |active|
      <==> forall actor :: actor in active ==> !Forgotten(window, ops, normal, actor)
  {
    var cutoff := Cutoff(window, ops, now);
    var seen, full := Run(window, ops, normal).seen, History(ops, normal);
    RosterIsPartOfHistory(window, ops, normal, cutoff);
    KeptAgainstHistory(seen, full, cutoff);
    MapSize(Pruned(seen, cutoff));
    ProperSubsetSize(KeptAt(seen, cutoff), ActiveSince(ops, normal, cutoff));
    forall actor | actor in full ensures actor in seen <==> !Forgotten(window, ops, normal, actor) {
      HeldIff(window, ops, normal, actor);
    }
  }

  /**
   * A login counted out while the window was narrow is missing after it is widened. The window goes from the ten
   * minutes a roster opens with to one minute and back: one chatter is active, none counted.
   */
  lemma WidenedWindowUndercounts(normal: string -> string, actor: string)
    requires normal(actor) != ""
    ensures var ops := [Settings(60_000), Record(actor, 0), Count(100_000), Settings(600_000)];
      && Answer(600_000, ops, normal, 100_000) == 0
      && ActiveSince(ops, normal, Cutoff(600_000, ops, 100_000)) == {normal(actor)}
  {
    var none, narrow := [], [Settings(60_000)];
    var spoken := narrow + [Record(actor, 0)];
    var counted := spoken + [Count(100_000)];
    var ops := counted + [Settings(600_000)];
    assert ops == [Settings(60_000), Record(actor, 0), Count(100_000), Settings(600_000)];
    OneMore(600_000, none, Settings(60_000), normal);
    OneMore(600_000, narrow, Record(actor, 0), normal);
    OneMore(600_000, spoken, Count(100_000), normal);
    OneMore(600_000, counted, Settings(600_000), normal);
    assert none + [Settings(60_000)] == narrow;
    assert Run(600_000, spoken, normal) == Roster(map[normal(actor) := 0], 60_000);
    assert Run(600_000, counted, normal) == Roster(map[], 60_000);
    RunWindow(600_000, ops, normal);
  }

  lemma OneMore(window: int, ops: seq<Op>, op: Op, normal: string -> string)
    ensures Run(window, ops + [op], normal) == Step(Run(window, ops, normal), op, normal)
    ensures History(ops + [op], normal)
         == if op.Record? then Recorded(History(ops, normal), normal(op.actor), op.at) else History(ops, normal)
  {
    assert (ops + [op])[..|ops|] == ops;
  }

  lemma ProperSubsetSize(a: set<string>, b: set<string>)
    requires a <= b
    ensures |a| == |b| <==> a == b
  {
    if a != b {
      var x :| x in b && x !in a;
      SubsetSize(a, b - {x});
    }
  }

  lemma {:induction false} SubsetSize(a: set<string>, b: set<string>)
    requires a <= b
    ensures |a| <= |b|
    decreases b
  {
    if b != {} {
      var x :| x in b;
      SubsetSize(a - {x}, b - {x});
    }
  }

  /** Two spellings of one login are one chatter, and a blank one is none. */
  lemma OneLoginOneChatter(window: int, ops: seq<Op>, normal: string -> string, a: string, b: string, at: int,
      later: int)
    requires normal(a) == normal(b)
    ensures Run(window, ops + [Record(a, at), Record(b, later)], normal).seen
         == Recorded(Run(window, ops, normal).seen, normal(a), later)
  {
    var more := ops + [Record(a, at), Record(b, later)];
    assert more[..|more| - 1] == ops + [Record(a, at)];
    assert (ops + [Record(a, at)])[..|ops|] == ops;
  }
}
