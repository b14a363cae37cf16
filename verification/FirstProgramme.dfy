/**
 * The wizard's first-programme step: `createFirstProgramme` of apps/web/lib/setup-first-programme.ts and the
 * form's memory of the pool it created (apps/web/components/setup-programme-form.tsx), pressed any number of
 * times against a server that answers as it likes.
 */
module FirstProgramme {
  import opened Wrappers

  // ----- sameSources -----

  /** Strings in the order of their characters' codes. */
  predicate Leq(a: string, b: string) {
    a == "" || (b != "" && (a[0] < b[0] || (a[0] == b[0] && Leq(a[1..], b[1..]))))
  }

  lemma {:induction false} LeqTotal(a: string, b: string)
    ensures Leq(a, b) || Leq(b, a)
    ensures Leq(a, b) && Leq(b, a) ==> a == b
  {
    if a != "" && b != "" {
      LeqTotal(a[1..], b[1..]);
      if a[0] == b[0] && a[1..] == b[1..] {
        assert a == [a[0]] + a[1..] && b == [b[0]] + b[1..];
      }
    }
  }

  lemma {:induction false} LeqTransitive(a: string, b: string, c: string)
    requires Leq(a, b) && Leq(b, c)
    ensures Leq(a, c)
  {
    if a != "" {
      if a[0] == b[0] && b[0] == c[0] {
        LeqTransitive(a[1..], b[1..], c[1..]);
      }
    }
  }

  function Insert(x: string, s: seq<string>): seq<string> {
    if s == [] || Leq(x, s[0]) then [x] + s else [s[0]] + Insert(x, s[1..])
  }

  function Sorted(s: seq<string>): seq<string> {
    if s == [] then [] else Insert(s[0], Sorted(s[1..]))
  }

  predicate SameSources(left: seq<string>, right: seq<string>) {
    |left| == |right| && Sorted(left) == Sorted(right)
  }

  lemma {:induction false} InsertContents(x: string, s: seq<string>)
    ensures multiset(Insert(x, s)) == multiset(s) + multiset{x}
  {
    if s != [] && !Leq(x, s[0]) {
      InsertContents(x, s[1..]);
      assert s == [s[0]] + s[1..];
    }
  }

  lemma {:induction false} SortedContents(s: seq<string>)
    ensures multiset(Sorted(s)) == multiset(s)
  {
    if s != [] {
      SortedContents(s[1..]);
      InsertContents(s[0], Sorted(s[1..]));
      assert s == [s[0]] + s[1..];
    }
  }

  /** Every element is at or below all of those behind it. */
  ghost predicate Ascending(s: seq<string>) {
    s == [] || ((forall x :: x in s[1..] ==> Leq(s[0], x)) && Ascending(s[1..]))
  }

  lemma {:induction false} InsertAscending(x: string, s: seq<string>)
    requires Ascending(s)
    ensures Ascending(Insert(x, s))
  {
    var out := Insert(x, s);
    if s == [] {
    } else if Leq(x, s[0]) {
      assert out[1..] == s;
      forall y | y in s ensures Leq(x, y) {
        if y != s[0] {
          assert y in s[1..];
          LeqTransitive(x, s[0], y);
        }
      }
    } else {
      InsertAscending(x, s[1..]);
      InsertContents(x, s[1..]);
      assert out[1..] == Insert(x, s[1..]);
      forall y | y in out[1..] ensures Leq(s[0], y) {
        assert y in multiset(out[1..]);
        if y == x {
          LeqTotal(x, s[0]);
        } else {
          assert y in s[1..];
        }
      }
    }
  }

  lemma {:induction false} SortedAscending(s: seq<string>)
    ensures Ascending(Sorted(s))
  {
    if s != [] {
      SortedAscending(s[1..]);
      InsertAscending(s[0], Sorted(s[1..]));
    }
  }

  lemma FirstIsLeast(s: seq<string>, x: string)
    requires Ascending(s) && x in s
    ensures Leq(s[0], x)
  {
    LeqTotal(x, x);
    if x != s[0] {
      assert s == [s[0]] + s[1..];
      assert x in s[1..];
    }
  }

  lemma SameFirst(a: seq<string>, b: seq<string>)
    requires Ascending(a) && Ascending(b) && multiset(a) == multiset(b) && a != [] && b != []
    ensures a[0] == b[0]
  {
    assert a[0] in multiset(b) && b[0] in multiset(a);
    FirstIsLeast(a, b[0]);
    FirstIsLeast(b, a[0]);
    LeqTotal(a[0], b[0]);
  }

  lemma RestContents(s: seq<string>)
    requires s != []
    ensures multiset(s[1..]) == multiset(s) - multiset{s[0]}
  {
    assert s == [s[0]] + s[1..];
  }

  lemma {:induction false} AscendingUnique(a: seq<string>, b: seq<string>)
    requires |a| == |b| && Ascending(a) && Ascending(b) && multiset(a) == multiset(b)
    ensures a == b
  {
    if a != [] {
      SameFirst(a, b);
      RestContents(a);
      RestContents(b);
      AscendingUnique(a[1..], b[1..]);
      assert a == [a[0]] + a[1..] && b == [b[0]] + b[1..];
    }
  }

  lemma SortedLength(s: seq<string>)
    ensures |Sorted(s)| == |s|
  {
    SortedContents(s);
    assert |multiset(Sorted(s))| == |multiset(s)|;
  }

  /** Two selections are the same exactly when they hold the same sources equally often, in whatever order. */
  lemma SameSourcesIff(left: seq<string>, right: seq<string>)
    ensures SameSources(left, right) <==> multiset(left) == multiset(right)
  {
    SortedContents(left);
    SortedContents(right);
    SortedAscending(left);
    SortedAscending(right);
    SortedLength(left);
    SortedLength(right);
    if multiset(left) == multiset(right) {
      assert |multiset(left)| == |left| && |multiset(right)| == |right|;
      AscendingUnique(Sorted(left), Sorted(right));
    }
  }

  // ----- one press -----

  datatype Pool = Pool(id: string, name: string, sourceIds: seq<string>)

  /**
   * What the pool request comes back with. `PoolLost` is a request that throws: it got no response at all, or one
   * whose body is the value null, of which no field can be read. Any other body has an id or none. The server
   * writes the pool before it writes the audit event and answers, so an answer without an id can still leave a
   * pool: `written` says whether it did.
   */
  datatype PoolAnswer = PoolLost(written: bool) | PoolAnswer(ok: bool, id: string, written: bool)

  /**
   * What the template request comes back with. `TemplateLost` is a request that throws: it got no response at
   * all, or a refusal whose body is the value null. The body of a good answer is not read.
   */
  datatype TemplateAnswer = TemplateLost | TemplateAnswer(ok: bool)

  datatype Press = Press(
    name: string, sourceIds: seq<string>, replaceWeek: bool, weeklyBlockCount: nat,
    poolAnswer: PoolAnswer, templateAnswer: TemplateAnswer)

  datatype Request =
    | CreatePool(name: string, sourceIds: seq<string>)
    | ApplyTemplate(poolId: string, replaceExisting: bool)

  datatype Status = Done | NoSources | WeekInTheWay | PoolRefused | TemplateRefused | Thrown

  /** `pool` is the pool the form remembers afterwards. */
  datatype Outcome = Outcome(status: Status, pool: Option<Pool>, requests: seq<Request>)

  predicate Refused(p: Press) { p.sourceIds == [] || (!p.replaceWeek && p.weeklyBlockCount > 0) }

  predicate Reusable(created: Option<Pool>, p: Press) {
    created.Some? && created.value.name == p.name && SameSources(created.value.sourceIds, p.sourceIds)
  }

  /** The form is told of a new pool. */
  predicate PoolMade(p: Press) { p.poolAnswer.PoolAnswer? && p.poolAnswer.ok && p.poolAnswer.id != "" }

  /** The server has written a pool, whether or not the form is told of it. */
  predicate PoolWritten(p: Press) { PoolMade(p) || p.poolAnswer.written }

  function TemplateOutcome(before: Option<Pool>, pool: Pool, p: Press, sent: seq<Request>): Outcome {
    var requests := sent + [ApplyTemplate(pool.id, p.replaceWeek)];
    match p.templateAnswer
    case TemplateLost => Outcome(Thrown, before, requests)
    case TemplateAnswer(ok) => Outcome(if ok then Done else TemplateRefused, Some(pool), requests)
  }

  function Pressed(created: Option<Pool>, p: Press): Outcome {
    if p.sourceIds == [] then Outcome(NoSources, created, [])
    else if !p.replaceWeek && p.weeklyBlockCount > 0 then Outcome(WeekInTheWay, created, [])
    else if Reusable(created, p) then TemplateOutcome(created, created.value, p, [])
    else
      var sent := [CreatePool(p.name, p.sourceIds)];
      if p.poolAnswer.PoolLost? then Outcome(Thrown, created, sent)
      else if !PoolMade(p) then Outcome(PoolRefused, created, sent)
      else TemplateOutcome(created, Pool(p.poolAnswer.id, p.name, p.sourceIds), p, sent)
  }

  method CreateFirstProgramme(created: Option<Pool>, p: Press) returns (r: Outcome)
    ensures r == Pressed(created, p)
  {
    if |p.sourceIds| == 0 {
      return Outcome(NoSources, created, []);
    }
    if !p.replaceWeek && p.weeklyBlockCount > 0 {
      return Outcome(WeekInTheWay, created, []);
    }
    var pool :=
      if created.Some? && created.value.name == p.name && SameSources(created.value.sourceIds, p.sourceIds)
      then created else None;
    var requests: seq<Request> := [];
    if pool.None? {
      requests := requests + [CreatePool(p.name, p.sourceIds)];
      if p.poolAnswer.PoolLost? {
        return Outcome(Thrown, created, requests);
      }
      if !p.poolAnswer.ok || p.poolAnswer.id == "" {
        return Outcome(PoolRefused, created, requests);
      }
      pool := Some(Pool(p.poolAnswer.id, p.name, p.sourceIds));
    }
    requests := requests + [ApplyTemplate(pool.value.id, p.replaceWeek)];
    if p.templateAnswer.TemplateLost? {
      return Outcome(Thrown, created, requests);
    }
    if !p.templateAnswer.ok {
      return Outcome(TemplateRefused, pool, requests);
    }
    r := Outcome(Done, pool, requests);
  }

  /** The form: it remembers what the last press left. */
  class ProgrammeForm {
    var createdPool: Option<Pool>

    constructor ()
      ensures createdPool == None
    {
      createdPool := None;
    }

    method Submit(p: Press) returns (r: Outcome)
      modifies this
      ensures r == Pressed(old(createdPool), p) && createdPool == r.pool
    {
      r := CreateFirstProgramme(createdPool, p);
      if r.status != Thrown {
        createdPool := r.pool;
      }
    }
  }

  // ----- any number of presses -----

  function Remembered(presses: seq<Press>): Option<Pool> {
    if presses == [] then None else Pressed(Remembered(presses[..|presses| - 1]), presses[|presses| - 1]).pool
  }

  function LastOutcome(presses: seq<Press>): Outcome
    requires presses != []
  {
    Pressed(Remembered(presses[..|presses| - 1]), presses[|presses| - 1])
  }

  /** This press asks the server for a new pool. */
  predicate AsksForPool(created: Option<Pool>, p: Press) { !Refused(p) && !Reusable(created, p) }

  /** This press made the server write a pool. */
  predicate Writes(created: Option<Pool>, p: Press) { AsksForPool(created, p) && PoolWritten(p) }

  /** The form remembers the pool asked for: it was told the id, and the template answer was not lost. */
  predicate Keeps(p: Press) { PoolMade(p) && p.templateAnswer.TemplateAnswer? }

  /** The pools on the server. */
  function PoolsWritten(presses: seq<Press>): nat {
    if presses == [] then 0
    else
      var n := |presses| - 1;
      PoolsWritten(presses[..n]) + (if Writes(Remembered(presses[..n]), presses[n]) then 1 else 0)
  }

  /** Those of them that the form did not come to remember. */
  function PoolsForgotten(presses: seq<Press>): nat {
    if presses == [] then 0
    else
      var n := |presses| - 1;
      PoolsForgotten(presses[..n])
      + (if Writes(Remembered(presses[..n]), presses[n]) && !Keeps(presses[n]) then 1 else 0)
  }

  /** The latest press that was not refused. */
  function LastAccepted(presses: seq<Press>): Option<Press> {
    if presses == [] then None
    else if !Refused(presses[|presses| - 1]) then Some(presses[|presses| - 1])
    else LastAccepted(presses[..|presses| - 1])
  }

  predicate SameWish(p: Press, q: Press) { p.name == q.name && multiset(p.sourceIds) == multiset(q.sourceIds) }

  /** How often the name or the set of sources changed from one accepted press to the next. */
  function Changes(presses: seq<Press>): nat {
    if presses == [] then 0
    else
      var n := |presses| - 1;
      var last := LastAccepted(presses[..n]);
      Changes(presses[..n]) + (if !Refused(presses[n]) && last.Some? && !SameWish(last.value, presses[n]) then 1 else 0)
  }

  predicate Fits(pool: Option<Pool>, p: Press) {
    pool.Some? && pool.value.name == p.name && multiset(pool.value.sourceIds) == multiset(p.sourceIds)
  }

  lemma ReusableIff(pool: Option<Pool>, p: Press)
    ensures Reusable(pool, p) <==> Fits(pool, p)
  {
    if pool.Some? {
      SameSourcesIff(pool.value.sourceIds, p.sourceIds);
    }
  }

  /**
   * When an accepted press `q` follows an accepted press `p`, it asks for no new pool exactly when the form
   * kept the pool of `p` and `q` has the same wish, or the pool it had before fits `q` and was not replaced.
   * So for one wish pressed twice the second press reuses a pool exactly when one was at hand already, or the
   * first got both the id of its own and a template answer that is good or a refusal it can read.
   */
  lemma ReusedIff(created: Option<Pool>, p: Press, q: Press)
    requires !Refused(p) && !Refused(q)
    ensures var after := Pressed(created, p).pool;
      && (!AsksForPool(after, q) <==> if !Fits(created, p) && Keeps(p) then SameWish(p, q) else Fits(created, q))
      && (SameWish(p, q) ==> (!AsksForPool(after, q) <==> Fits(created, p) || Keeps(p)))
  {
    ReusableIff(created, p);
    ReusableIff(created, q);
    ReusableIff(Pressed(created, p).pool, q);
  }

  /**
   * A press sends a pool request exactly when it is not refused and no pool at hand fits; the request carries
   * this press's name and sources and goes out first.
   */
  lemma AsksIff(created: Option<Pool>, p: Press)
    ensures AsksForPool(created, p) <==> !Refused(p) && !Fits(created, p)
    ensures AsksForPool(created, p) <==> CreatePool(p.name, p.sourceIds) in Pressed(created, p).requests
    ensures var r := Pressed(created, p).requests;
      forall k :: 0 <= k < |r| && r[k].CreatePool? ==> k == 0 && r[k] == CreatePool(p.name, p.sourceIds)
  {
    ReusableIff(created, p);
    var sent := [CreatePool(p.name, p.sourceIds)];
    assert sent[0] in sent;
    if AsksForPool(created, p) && PoolMade(p) {
      assert Pressed(created, p).requests[0] == sent[0];
    }
  }

  /** The pools the form came to remember, against the wishes seen. */
  lemma {:induction false} KeptBound(presses: seq<Press>)
    ensures PoolsForgotten(presses) <= PoolsWritten(presses)
    ensures var kept, last := PoolsWritten(presses) - PoolsForgotten(presses), LastAccepted(presses);
      if last.None? then PoolsWritten(presses) == 0 && Remembered(presses).None?
      else kept <= Changes(presses) + (if Fits(Remembered(presses), last.value) then 1 else 0)
  {
    if presses != [] {
      var n := |presses| - 1;
      KeptBound(presses[..n]);
      ReusableIff(Remembered(presses[..n]), presses[n]);
    }
  }

  /**
   * While the wish stays the same the count is exact: the pools forgotten, and the one the form remembers, if any,
   * which is for that wish.
   */
  lemma {:induction false} OneWishKeepsOne(presses: seq<Press>)
    requires Changes(presses) == 0
    ensures PoolsWritten(presses) == PoolsForgotten(presses) + (if Remembered(presses).Some? then 1 else 0)
    ensures Remembered(presses).Some? ==>
      LastAccepted(presses).Some? && Fits(Remembered(presses), LastAccepted(presses).value)
  {
    if presses != [] {
      var n := |presses| - 1;
      OneWishKeepsOne(presses[..n]);
      ReusableIff(Remembered(presses[..n]), presses[n]);
      KeptBound(presses[..n]);
    }
  }

  /**
   * Whatever the server answers, the presses leave at most one pool per wish on it: one, one more for each
   * change of the name or the sources, and one more for each pool written that the form did not come to
   * remember. It remembers every pool when every pool request that wrote one is answered with its id, and no
   * template answer is lost.
   */
  lemma PoolsAtMostOnePerWish(presses: seq<Press>)
    ensures PoolsWritten(presses) <= 1 + Changes(presses) + PoolsForgotten(presses)
    ensures (forall i :: 0 <= i < |presses| && PoolWritten(presses[i]) ==> Keeps(presses[i])) ==>
      PoolsWritten(presses) <= 1 + Changes(presses)
  {
    KeptBound(presses);
    NothingForgotten(presses);
  }

  lemma {:induction false} NothingForgotten(presses: seq<Press>)
    ensures (forall i :: 0 <= i < |presses| && PoolWritten(presses[i]) ==> Keeps(presses[i])) ==>
      PoolsForgotten(presses) == 0
  {
    if presses != [] {
      NothingForgotten(presses[..|presses| - 1]);
    }
  }

  /** One accepted press, made twice on a new form, leaves two pools exactly when it wrote one and did not keep it. */
  lemma PressedTwice(p: Press)
    requires !Refused(p)
    ensures Changes([p, p]) == 0
    ensures PoolsWritten([p, p]) == if Keeps(p) then 1 else if PoolWritten(p) then 2 else 0
  {
    var one, two := [p], [p, p];
    assert two[..1] == one && one[..0] == [];
    assert LastAccepted(one) == Some(p) && Changes(one) == 0;
    ReusedIff(None, p, p);
    assert PoolsWritten(one) == if PoolWritten(p) then 1 else 0;
    assert Remembered(one) == Pressed(None, p).pool;
  }

  /** A pool request whose response is lost behind the write costs a second pool for the same wish. */
  lemma LostPoolAnswerCostsAPool()
    ensures var p := Press("Nights", ["source"], false, 0, PoolLost(true), TemplateAnswer(true));
      PoolsWritten([p, p]) == 2 && Changes([p, p]) == 0
  {
    PressedTwice(Press("Nights", ["source"], false, 0, PoolLost(true), TemplateAnswer(true)));
  }

  /** So does an error behind the write: the pool stands, and the answer is neither good nor has an id. */
  lemma FailedPoolAnswerCostsAPool()
    ensures var p := Press("Nights", ["source"], false, 0, PoolAnswer(false, "", true), TemplateAnswer(true));
      PoolsWritten([p, p]) == 2 && Changes([p, p]) == 0
  {
    PressedTwice(Press("Nights", ["source"], false, 0, PoolAnswer(false, "", true), TemplateAnswer(true)));
  }

  /** So does a template answer that is lost, as the form then forgets the id it was told. */
  lemma LostTemplateCostsAPool(p: Press)
    requires !Refused(p) && PoolMade(p) && p.templateAnswer.TemplateLost?
    ensures PoolsWritten([p, p]) == 2 && Changes([p, p]) == 0
  {
    PressedTwice(p);
  }

  // ----- requests -----

  /** A refused press sends nothing and changes nothing. */
  lemma RefusedSendsNothing(created: Option<Pool>, p: Press)
    ensures Refused(p) <==> Pressed(created, p).requests == []
    ensures Refused(p) ==> Pressed(created, p).pool == created
  {
  }

  /**
   * A press is done exactly when it is not refused, a pool is at hand or was made, and the template was
   * accepted; the form then remembers a pool for this wish.
   */
  lemma DoneIff(created: Option<Pool>, p: Press)
    ensures Pressed(created, p).status == Done <==>
      !Refused(p) && (Fits(created, p) || PoolMade(p)) && p.templateAnswer == TemplateAnswer(true)
    ensures Pressed(created, p).status in {Done, TemplateRefused} ==> Fits(Pressed(created, p).pool, p)
  {
    ReusableIff(created, p);
  }

  /** A press comes to the template: it is not refused, and a fitting pool is at hand or was made. */
  predicate ComesToTemplate(created: Option<Pool>, p: Press) { !Refused(p) && (Fits(created, p) || PoolMade(p)) }

  /** How many of the requests are for the template. */
  function Templates(requests: seq<Request>): nat {
    if requests == [] then 0 else (if requests[0].ApplyTemplate? then 1 else 0) + Templates(requests[1..])
  }

  function Pools(requests: seq<Request>): nat {
    if requests == [] then 0 else (if requests[0].CreatePool? then 1 else 0) + Pools(requests[1..])
  }

  lemma CountOne(r: Request)
    ensures Templates([r]) == (if r.ApplyTemplate? then 1 else 0) && Pools([r]) == (if r.CreatePool? then 1 else 0)
  {
    assert [r][1..] == [];
  }

  lemma CountTwo(r: Request, s: Request)
    ensures Templates([r, s]) == (if r.ApplyTemplate? then 1 else 0) + (if s.ApplyTemplate? then 1 else 0)
    ensures Pools([r, s]) == (if r.CreatePool? then 1 else 0) + (if s.CreatePool? then 1 else 0)
  {
    assert [r, s][1..] == [s];
    CountOne(s);
  }

  /**
   * A press sends the template request exactly when it comes to it, once, and the pool request exactly when it is
   * not refused and no pool at hand fits, once. So a press that is done, or whose template was refused, sent it.
   */
  lemma RequestsSent(created: Option<Pool>, p: Press)
    ensures var r := Pressed(created, p).requests;
      && Templates(r) == (if ComesToTemplate(created, p) then 1 else 0)
      && Pools(r) == (if !Refused(p) && !Fits(created, p) then 1 else 0)
      && (ComesToTemplate(created, p) ==>
            r[|r| - 1] == ApplyTemplate(if Fits(created, p) then created.value.id else p.poolAnswer.id, p.replaceWeek))
      && (Pressed(created, p).status in {Done, TemplateRefused} ==> Templates(r) == 1)
  {
    ReusableIff(created, p);
    var r := Pressed(created, p).requests;
    if |r| == 1 {
      CountOne(r[0]);
      assert r == [r[0]];
    } else if |r| == 2 {
      CountTwo(r[0], r[1]);
      assert r == [r[0], r[1]];
    }
  }

  /** How a press ends, and what the form then remembers, for every input and every answer. */
  lemma StatusIff(created: Option<Pool>, p: Press)
    ensures var o := Pressed(created, p);
      && (o.status == NoSources <==> p.sourceIds == [])
      && (o.status == WeekInTheWay <==> p.sourceIds != [] && !p.replaceWeek && p.weeklyBlockCount > 0)
      && (o.status == PoolRefused <==>
            !Refused(p) && !Fits(created, p) && !PoolMade(p) && !p.poolAnswer.PoolLost?)
      && (o.status == TemplateRefused <==> ComesToTemplate(created, p) && p.templateAnswer == TemplateAnswer(false))
      && (o.status == Done <==> ComesToTemplate(created, p) && p.templateAnswer == TemplateAnswer(true))
      && (o.status == Thrown <==>
            || (!Refused(p) && !Fits(created, p) && p.poolAnswer.PoolLost?)
            || (ComesToTemplate(created, p) && p.templateAnswer.TemplateLost?))
      && o.pool == if o.status in {Done, TemplateRefused} && !Fits(created, p)
                   then Some(Pool(p.poolAnswer.id, p.name, p.sourceIds)) else created
  {
    ReusableIff(created, p);
  }

  /** The pools whose id the server has answered with. */
  function Answered(presses: seq<Press>): set<string> {
    if presses == [] then {}
    else
      var n := |presses| - 1;
      var told := AsksForPool(Remembered(presses[..n]), presses[n]) && PoolMade(presses[n]);
      Answered(presses[..n]) + (if told then {presses[n].poolAnswer.id} else {})
  }

  lemma {:induction false} RememberedIsAnswered(presses: seq<Press>)
    ensures Remembered(presses).Some? ==> Remembered(presses).value.id in Answered(presses)
  {
    if presses != [] {
      RememberedIsAnswered(presses[..|presses| - 1]);
    }
  }

  /**
   * Every template request names a pool the server answered with, made under the name and from the sources
   * of this very press; and it comes last, after the pool request if there is one.
   */
  lemma TemplateNamesAnsweredPool(presses: seq<Press>, k: nat)
    requires presses != [] && k < |LastOutcome(presses).requests| && LastOutcome(presses).requests[k].ApplyTemplate?
    ensures var p, r := presses[|presses| - 1], LastOutcome(presses).requests;
      && r[k].poolId in Answered(presses)
      && r[k].replaceExisting == p.replaceWeek
      && k == |r| - 1
      && (p.templateAnswer.TemplateAnswer? ==>
        Fits(Remembered(presses), p) && Remembered(presses).value.id == r[k].poolId)
  {
    var n := |presses| - 1;
    RememberedIsAnswered(presses[..n]);
    ReusableIff(Remembered(presses[..n]), presses[n]);
  }
}
