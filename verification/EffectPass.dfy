/** An executor's pass as a run: which steps are its own, on which rows, and
    what a pass nobody disturbs makes of the queue. */
module EffectPass {
  import opened Base
  import opened EffectModel
  import opened EffectRun

  /** What one job of a pass meets: what others do before the claim, before the
      round trip and before the close, and what each write and the trip come to. */
  datatype Round = Round(first: seq<Step>, claimOk: bool, second: seq<Step>, ran: Ran,
                         third: seq<Step>, closeOk: bool, now: real)

  /** Nobody takes another executor's steps. */
  predicate NotBy(steps: seq<Step>, e: Exec) {
    forall k :: 0 <= k < |steps| ==> !By(steps[k], e)
  }

  predicate By(step: Step, e: Exec) {
    match step
    case Enqueue(_, _) => false
    case Cancel(_) => false
    case Start(f, _, _) => f == e
    case Claim(f, _) => f == e
    case Perform(f, _) => f == e
    case Close(f, _, _) => f == e
    case Leave(f) => f == e
  }

  predicate RoundsNotBy(rounds: seq<Round>, e: Exec) {
    forall k :: 0 <= k < |rounds| ==> NotBy(rounds[k].first, e) && NotBy(rounds[k].second, e) && NotBy(rounds[k].third, e)
  }

  /** How many claims of `e` were won along a run. */
  function Won(s: Sys, steps: seq<Step>, e: Exec): nat
    decreases |steps|
  {
    if steps == [] then 0
    else
      var front, last := steps[..|steps| - 1], steps[|steps| - 1];
      Won(s, front, e) + if last.Claim? && last.e == e && Claimable(After(s, front), e, last.ok) then 1 else 0
  }

  predicate Claimable(s: Sys, e: Exec, ok: bool) {
    ok && e in s.execs && s.execs[e].Between? && s.execs[e].due != []
    && s.execs[e].due[0].id in s.rows && s.rows[s.execs[e].due[0].id].status == Pending
  }

  lemma {:induction false} AfterMore(s: Sys, a: seq<Step>, b: seq<Step>)
    ensures After(s, a + b) == After(After(s, a), b)
    decreases |b|
  {
    if b == [] {
      assert a + b == a;
    } else {
      assert (a + b)[..|a + b| - 1] == a + b[..|b| - 1];
      AfterMore(s, a, b[..|b| - 1]);
    }
  }

  lemma {:induction false} WonMore(s: Sys, a: seq<Step>, b: seq<Step>, e: Exec)
    requires NotBy(b, e)
    ensures Won(s, a + b, e) == Won(s, a, e)
    decreases |b|
  {
    if b == [] {
      assert a + b == a;
    } else {
      assert (a + b)[..|a + b| - 1] == a + b[..|b| - 1];
      assert !By(b[|b| - 1], e);
      WonMore(s, a, b[..|b| - 1], e);
    }
  }

  lemma OneStep(s: Sys, a: seq<Step>, step: Step, e: Exec)
    ensures After(s, a + [step]) == Next(After(s, a), step)
    ensures Won(s, a + [step], e) == Won(s, a, e) + if step.Claim? && step.e == e && Claimable(After(s, a), e, step.ok) then 1 else 0
  {
    assert (a + [step])[..|a|] == a;
  }

  lemma {:induction false} OthersLeaveAlone(s: Sys, steps: seq<Step>, e: Exec)
    requires NotBy(steps, e)
    ensures e in After(s, steps).execs <==> e in s.execs
    ensures e in s.execs ==> After(s, steps).execs[e] == s.execs[e]
    decreases |steps|
  {
    if steps != [] {
      OthersLeaveAlone(s, steps[..|steps| - 1], e);
      assert !By(steps[|steps| - 1], e);
    }
  }

  lemma Begin(s: Sys, e: Exec, mine: set<Id>, now: real)
    requires e !in s.execs
    ensures After(s, [Start(e, mine, now)]) == At(s, e, Between(DueBelow(s.rows, mine, now, s.next)))
    ensures Won(s, [Start(e, mine, now)], e) == 0
  {
    hide DueBelow;
    OneStep(s, [], Start(e, mine, now), e);
    assert [] + [Start(e, mine, now)] == [Start(e, mine, now)];
  }

  lemma Left(s: Sys, e: Exec)
    ensures Next(s, Leave(e)) == s.(execs := s.execs - {e})
  {
  }

  /** A step of the pass is a step of the run. */
  lemma Stepped(s0: Sys, trace: seq<Step>, step: Step, e: Exec, was: Sys)
    requires was == After(s0, trace)
    ensures Next(was, step) == After(s0, trace + [step])
    ensures Won(s0, trace + [step], e) == Won(s0, trace, e) + if step.Claim? && step.e == e && Claimable(was, e, step.ok) then 1 else 0
  {
    hide Next;
    OneStep(s0, trace, step, e);
  }

  // ---- the pass, step by step -----------------------------------------------------------

  /** What happens over one due row: others, the claim; and if it is won the
      round trip and the close, others before each. */
  function RoundTrace(s: Sys, e: Exec, round: Round): seq<Step> {
    var asked := round.first + [Claim(e, round.claimOk)];
    if !Claimable(After(s, round.first), e, round.claimOk) then asked
    else asked + round.second + [Perform(e, round.ran)] + round.third + [Close(e, round.closeOk, round.now)]
  }

  function RoundsTrace(s: Sys, e: Exec, rounds: seq<Round>): seq<Step>
    decreases |rounds|
  {
    if rounds == [] then []
    else
      var before := RoundsTrace(s, e, rounds[..|rounds| - 1]);
      before + RoundTrace(After(s, before), e, rounds[|rounds| - 1])
  }

  function DueOf(s: Sys, mine: set<Id>, now: real): seq<Due> {
    DueBelow(s.rows, mine, now, s.next)
  }

  /** The rounds a pass gets to: one for each due row, while there are rounds. */
  function Reached(s: Sys, mine: set<Id>, now: real, rounds: seq<Round>): seq<Round> {
    rounds[..Min(|DueOf(s, mine, now)|, |rounds|)]
  }

  function Started(s: Sys, e: Exec, mine: set<Id>, now: real): Sys {
    At(s, e, Between(DueOf(s, mine, now)))
  }

  /** The pass up to where it has been through the given rounds. */
  function FirstRounds(s: Sys, e: Exec, mine: set<Id>, now: real, rounds: seq<Round>): seq<Step> {
    [Start(e, mine, now)] + RoundsTrace(Started(s, e, mine, now), e, rounds)
  }

  function PassTrace(s: Sys, e: Exec, mine: set<Id>, now: real, rounds: seq<Round>): seq<Step> {
    FirstRounds(s, e, mine, now, Reached(s, mine, now, rounds)) + [Leave(e)]
  }

  lemma PassBegins(s: Sys, e: Exec, mine: set<Id>, now: real)
    ensures FirstRounds(s, e, mine, now, []) == [Start(e, mine, now)]
  {
  }

  /** One more round: where it finds the queue, and what it adds to the count. */
  lemma PassGoesOn(s: Sys, e: Exec, mine: set<Id>, now: real, rounds: seq<Round>, i: nat)
    requires e !in s.execs && RoundsNotBy(rounds, e) && i < |rounds|
    ensures var before, more := FirstRounds(s, e, mine, now, rounds[..i]), FirstRounds(s, e, mine, now, rounds[..i + 1]);
      var here, round := After(s, before), rounds[i];
      && NotBy(round.first, e) && NotBy(round.second, e) && NotBy(round.third, e)
      && After(s, more) == After(here, RoundTrace(here, e, round))
      && Won(s, more, e) == Won(s, before, e) + if Claimable(After(here, round.first), e, round.claimOk) then 1 else 0
  {
    hide After, Won, NotBy, RoundTrace, Claimable, Started, DueOf;
    var began := Started(s, e, mine, now);
    var done, here := RoundsTrace(began, e, rounds[..i]), After(s, FirstRounds(s, e, mine, now, rounds[..i]));
    Starting(s, e, mine, now);
    AfterMore(s, [Start(e, mine, now)], done);
    assert rounds[..i + 1][..i] == rounds[..i];
    var added := RoundTrace(here, e, rounds[i]);
    assert FirstRounds(s, e, mine, now, rounds[..i + 1]) == FirstRounds(s, e, mine, now, rounds[..i]) + added;
    AfterMore(s, FirstRounds(s, e, mine, now, rounds[..i]), added);
    RoundWon(s, FirstRounds(s, e, mine, now, rounds[..i]), e, rounds[i]);
  }

  lemma Starting(s: Sys, e: Exec, mine: set<Id>, now: real)
    requires e !in s.execs
    ensures After(s, [Start(e, mine, now)]) == Started(s, e, mine, now)
  {
    hide DueBelow;
    Begin(s, e, mine, now);
  }

  lemma RoundWon(s: Sys, trace: seq<Step>, e: Exec, round: Round)
    requires NotBy(round.first, e) && NotBy(round.second, e) && NotBy(round.third, e)
    ensures var here := After(s, trace);
      Won(s, trace + RoundTrace(here, e, round), e)
      == Won(s, trace, e) + if Claimable(After(here, round.first), e, round.claimOk) then 1 else 0
  {
    hide After, Won, NotBy, Claimable;
    var here, claim := After(s, trace), Claim(e, round.claimOk);
    var a := trace + round.first;
    AfterMore(s, trace, round.first);
    WonMore(s, trace, round.first, e);
    OneStep(s, a, claim, e);
    var b := a + [claim];
    var c := b + round.second + [Perform(e, round.ran)];
    WonMore(s, b, round.second, e);
    OneStep(s, b + round.second, Perform(e, round.ran), e);
    WonMore(s, c, round.third, e);
    OneStep(s, c + round.third, Close(e, round.closeOk, round.now), e);
    var d := c + round.third + [Close(e, round.closeOk, round.now)];
    assert trace + RoundTrace(here, e, round) == if Claimable(After(here, round.first), e, round.claimOk) then d else b;
  }

  // ---- whose steps ----------------------------------------------------------------------

  function Own(steps: seq<Step>, e: Exec): seq<Step> {
    if steps == [] then []
    else
      var last := steps[|steps| - 1];
      Own(steps[..|steps| - 1], e) + if By(last, e) then [last] else []
  }

  /** The claim of each round, and behind each one won its trip and its close. */
  function OwnRounds(e: Exec, rounds: seq<Round>, won: seq<bool>): seq<Step>
    requires |won| == |rounds|
  {
    if rounds == [] then []
    else
      var n := |rounds| - 1;
      OwnRounds(e, rounds[..n], won[..n]) + [Claim(e, rounds[n].claimOk)]
      + if won[n] then [Perform(e, rounds[n].ran), Close(e, rounds[n].closeOk, rounds[n].now)] else []
  }

  /** Which claims a pass wins: those whose row is still pending when they are made. */
  function Wins(s: Sys, e: Exec, rounds: seq<Round>): (won: seq<bool>)
    ensures |won| == |rounds|
  {
    if rounds == [] then []
    else
      var n := |rounds| - 1;
      var front := rounds[..n];
      Wins(s, e, front) + [Claimable(After(s, RoundsTrace(s, e, front) + rounds[n].first), e, rounds[n].claimOk)]
  }

  lemma {:induction false} OwnMore(a: seq<Step>, b: seq<Step>, e: Exec)
    ensures Own(a + b, e) == Own(a, e) + Own(b, e)
    decreases |b|
  {
    if b == [] {
      assert a + b == a;
    } else {
      assert (a + b)[..|a + b| - 1] == a + b[..|b| - 1];
      OwnMore(a, b[..|b| - 1], e);
    }
  }

  lemma {:induction false} NoneOwn(steps: seq<Step>, e: Exec)
    requires NotBy(steps, e)
    ensures Own(steps, e) == []
  {
    if steps != [] {
      NoneOwn(steps[..|steps| - 1], e);
      assert !By(steps[|steps| - 1], e);
    }
  }

  lemma OneOwn(a: seq<Step>, step: Step, e: Exec)
    requires By(step, e)
    ensures Own(a + [step], e) == Own(a, e) + [step]
  {
    assert (a + [step])[..|a|] == a;
  }

  lemma RoundOwn(s: Sys, e: Exec, round: Round)
    requires NotBy(round.first, e) && NotBy(round.second, e) && NotBy(round.third, e)
    ensures Own(RoundTrace(s, e, round), e) == [Claim(e, round.claimOk)]
      + if Claimable(After(s, round.first), e, round.claimOk)
        then [Perform(e, round.ran), Close(e, round.closeOk, round.now)] else []
  {
    hide After, Claimable, NotBy, Own;
    var asked := round.first + [Claim(e, round.claimOk)];
    NoneOwn(round.first, e);
    OneOwn(round.first, Claim(e, round.claimOk), e);
    NoneOwn(round.second, e);
    OwnMore(asked, round.second, e);
    OneOwn(asked + round.second, Perform(e, round.ran), e);
    var tripped := asked + round.second + [Perform(e, round.ran)];
    NoneOwn(round.third, e);
    OwnMore(tripped, round.third, e);
    OneOwn(tripped + round.third, Close(e, round.closeOk, round.now), e);
  }

  lemma {:induction false} RoundsOwn(s: Sys, e: Exec, rounds: seq<Round>)
    requires RoundsNotBy(rounds, e)
    ensures Own(RoundsTrace(s, e, rounds), e) == OwnRounds(e, rounds, Wins(s, e, rounds))
    decreases |rounds|
  {
    hide After, Claimable, NotBy, Own, RoundTrace, OwnRounds, Wins;
    if rounds == [] {
      NobodyNothing(e);
      NoneOwn([], e);
      OwnNoRounds(e, Wins(s, e, rounds));
    } else {
      var n := |rounds| - 1;
      var before := RoundsTrace(s, e, rounds[..n]);
      RoundsOwn(s, e, rounds[..n]);
      RoundOwn(After(s, before), e, rounds[n]);
      OwnMore(before, RoundTrace(After(s, before), e, rounds[n]), e);
      OwnOneMore(s, e, rounds);
    }
  }

  lemma OwnNoRounds(e: Exec, won: seq<bool>)
    requires won == []
    ensures OwnRounds(e, [], won) == []
  {
  }

  lemma OwnOneMore(s: Sys, e: Exec, rounds: seq<Round>)
    requires rounds != []
    ensures var n := |rounds| - 1;
      var here := After(s, RoundsTrace(s, e, rounds[..n]));
      OwnRounds(e, rounds, Wins(s, e, rounds))
      == OwnRounds(e, rounds[..n], Wins(s, e, rounds[..n])) + ([Claim(e, rounds[n].claimOk)]
         + if Claimable(After(here, rounds[n].first), e, rounds[n].claimOk)
           then [Perform(e, rounds[n].ran), Close(e, rounds[n].closeOk, rounds[n].now)] else [])
  {
    hide After, Claimable, RoundsTrace;
    var n := |rounds| - 1;
    AfterMore(s, RoundsTrace(s, e, rounds[..n]), rounds[n].first);
    assert Wins(s, e, rounds)[..n] == Wins(s, e, rounds[..n]);
  }

  lemma NobodyNothing(e: Exec)
    ensures NotBy([], e)
  {
  }

  /** An executor's own steps in a pass: it reads what is due, claims the rows
      one after another, makes the trip and the close of each claim it wins and
      of no other, and leaves. */
  lemma PassOwn(s: Sys, e: Exec, mine: set<Id>, now: real, rounds: seq<Round>)
    requires RoundsNotBy(rounds, e)
    ensures var reached := Reached(s, mine, now, rounds);
      Own(PassTrace(s, e, mine, now, rounds), e)
      == [Start(e, mine, now)] + OwnRounds(e, reached, Wins(Started(s, e, mine, now), e, reached)) + [Leave(e)]
  {
    hide Own, RoundsTrace, Started, DueOf, NotBy;
    var reached := Reached(s, mine, now, rounds);
    var start, middle := [Start(e, mine, now)], RoundsTrace(Started(s, e, mine, now), e, reached);
    RoundsOwn(Started(s, e, mine, now), e, reached);
    OwnMore(start, middle, e);
    OneOwn(start + middle, Leave(e), e);
    OneOwn([], Start(e, mine, now), e);
    assert [] + start == start;
    NobodyNothing(e);
    NoneOwn([], e);
  }

  // ---- on which rows ---------------------------------------------------------------------

  lemma ClaimMoves(s: Sys, e: Exec, job: Due, rest: seq<Due>, ok: bool)
    requires e in s.execs && s.execs[e] == Between([job] + rest)
    ensures var t := Next(s, Claim(e, ok));
      e in t.execs && t.execs[e] == if Claimable(s, e, ok) then Claimed(job, rest) else Between(rest)
    ensures Claimable(s, e, ok) <==> ok && job.id in s.rows && s.rows[job.id].status == Pending
  {
    assert ([job] + rest)[0] == job && ([job] + rest)[1..] == rest;
  }

  lemma TripMoves(s: Sys, e: Exec, job: Due, rest: seq<Due>, round: Round)
    requires e in s.execs
    ensures s.execs[e] == Claimed(job, rest) ==>
      var t := Next(s, Perform(e, round.ran)); e in t.execs && t.execs[e] == Closing(job, round.ran, rest)
    ensures s.execs[e] == Closing(job, round.ran, rest) ==>
      var t := Next(s, Close(e, round.closeOk, round.now)); e in t.execs && t.execs[e] == Between(rest)
  {
  }

  /** Others' steps and then one of its own, seen from the executor. */
  lemma AfterOthers(s: Sys, steps: seq<Step>, step: Step, e: Exec)
    requires NotBy(steps, e) && e in s.execs
    ensures e in After(s, steps).execs && After(s, steps).execs[e] == s.execs[e]
    ensures After(s, steps + [step]) == Next(After(s, steps), step)
  {
    hide After, Next;
    OthersLeaveAlone(s, steps, e);
    OneStep(s, steps, step, e);
  }

  /** A round is about the first row still due, and leaves the others due. */
  lemma RoundMoves(s: Sys, e: Exec, job: Due, rest: seq<Due>, round: Round)
    requires e in s.execs && s.execs[e] == Between([job] + rest)
    requires NotBy(round.first, e) && NotBy(round.second, e) && NotBy(round.third, e)
    ensures var t := After(s, RoundTrace(s, e, round)); e in t.execs && t.execs[e] == Between(rest)
  {
    hide After, Next, Claimable, NotBy;
    AfterOthers(s, round.first, Claim(e, round.claimOk), e);
    var a := After(s, round.first);
    ClaimMoves(a, e, job, rest, round.claimOk);
    if Claimable(a, e, round.claimOk) {
      var b := Next(a, Claim(e, round.claimOk));
      AfterOthers(b, round.second, Perform(e, round.ran), e);
      TripMoves(After(b, round.second), e, job, rest, round);
      var c := Next(After(b, round.second), Perform(e, round.ran));
      AfterOthers(c, round.third, Close(e, round.closeOk, round.now), e);
      TripMoves(After(c, round.third), e, job, rest, round);
      WholeRound(s, e, round);
    }
  }

  lemma WholeRound(s: Sys, e: Exec, round: Round)
    requires Claimable(After(s, round.first), e, round.claimOk)
    ensures var b := After(s, round.first + [Claim(e, round.claimOk)]);
      var c := After(b, round.second + [Perform(e, round.ran)]);
      After(s, RoundTrace(s, e, round)) == After(c, round.third + [Close(e, round.closeOk, round.now)])
  {
    hide After, Claimable;
    var x, y, z := round.first + [Claim(e, round.claimOk)], round.second + [Perform(e, round.ran)],
      round.third + [Close(e, round.closeOk, round.now)];
    AfterMore(s, x, y);
    AfterMore(s, x + y, z);
    assert RoundTrace(s, e, round) == x + y + z;
  }

  /** The claim of round `i` is made on the `i`th due row, in the order of their ids. */
  lemma {:induction false} ClaimsInOrder(s: Sys, e: Exec, due: seq<Due>, rounds: seq<Round>)
    requires RoundsNotBy(rounds, e) && |rounds| <= |due| && e in s.execs && s.execs[e] == Between(due)
    ensures var t := After(s, RoundsTrace(s, e, rounds)); e in t.execs && t.execs[e] == Between(due[|rounds|..])
    decreases |rounds|
  {
    hide After, RoundTrace, NotBy;
    if rounds == [] {
      NoSteps(s);
      assert due[0..] == due;
    } else {
      var n := |rounds| - 1;
      var before := RoundsTrace(s, e, rounds[..n]);
      ClaimsInOrder(s, e, due, rounds[..n]);
      assert due[n..] == [due[n]] + due[n + 1..];
      RoundMoves(After(s, before), e, due[n], due[n + 1..], rounds[n]);
      AfterMore(s, before, RoundTrace(After(s, before), e, rounds[n]));
    }
  }

  lemma NoSteps(s: Sys)
    ensures After(s, []) == s
  {
  }

  // ---- a pass nobody disturbs --------------------------------------------------------------

  predicate IsDue(rows: map<Id, Row>, mine: set<Id>, now: real, id: Id) {
    id in rows && id in mine && rows[id].status == Pending && rows[id].notBefore <= now
  }

  /** What is due, each row once, lowest id first. */
  lemma {:induction false} DueIs(rows: map<Id, Row>, mine: set<Id>, now: real, k: Id)
    ensures var due := DueBelow(rows, mine, now, k);
      && (forall i :: 0 <= i < |due| ==> IsDue(rows, mine, now, due[i].id) && due[i].id < k)
      && (forall i, j :: 0 <= i < j < |due| ==> due[i].id < due[j].id)
      && (forall id: Id :: id < k && IsDue(rows, mine, now, id) ==> DueHas(due, id))
    decreases k
  {
    if k > 0 {
      DueIs(rows, mine, now, k - 1);
      var before, due := DueBelow(rows, mine, now, k - 1), DueBelow(rows, mine, now, k);
      forall id: Id | DueHas(before, id) ensures DueHas(due, id) {
        var i :| 0 <= i < |before| && before[i].id == id;
        assert due[i].id == id;
      }
      if IsDue(rows, mine, now, k - 1) {
        assert due[|before|].id == k - 1;
      }
    }
  }

  predicate DueHas(due: seq<Due>, id: Id) {
    exists i :: 0 <= i < |due| && due[i].id == id
  }

  /** Nobody else at work and every write done. */
  predicate Undisturbed(rounds: seq<Round>) {
    forall k :: 0 <= k < |rounds| ==> Alone1(rounds[k])
  }

  predicate Alone1(round: Round) {
    round.first == [] && round.second == [] && round.third == [] && round.claimOk && round.closeOk
  }

  function Handled(row: Row, job: Due, round: Round): Row {
    ClosedRow(Taken(row), job, round.ran, round.now)
  }

  /** One row claimed, performed and closed. */
  lemma RoundAlone(s: Sys, e: Exec, job: Due, rest: seq<Due>, round: Round)
    requires e in s.execs && s.execs[e] == Between([job] + rest) && Alone1(round)
    requires job.id in s.rows && s.rows[job.id].status == Pending
    ensures Claimable(After(s, round.first), e, round.claimOk)
    ensures var t := After(s, RoundTrace(s, e, round));
      && e in t.execs && t.execs[e] == Between(rest) && t.next == s.next
      && t.rows == s.rows[job.id := Handled(s.rows[job.id], job, round)]
    ensures Won(s, RoundTrace(s, e, round), e) == 1
  {
    hide After, Next, Won, ClosedRow, Taken;
    NoSteps(s);
    ClaimMoves(s, e, job, rest, true);
    var b := Next(s, Claim(e, true));
    ClaimedRow(s, e, job, rest);
    var c := Next(b, Perform(e, round.ran));
    PerformedRow(b, e, job, rest, round);
    ClosedNext(c, e, job, rest, round);
    OneStep(s, [], Claim(e, true), e);
    OneStep(s, [Claim(e, true)], Perform(e, round.ran), e);
    OneStep(s, [Claim(e, true), Perform(e, round.ran)], Close(e, true, round.now), e);
    NoneWon(s, e);
    assert [] + [Claim(e, true)] == [Claim(e, true)];
    assert RoundTrace(s, e, round) == [Claim(e, true), Perform(e, round.ran), Close(e, true, round.now)];
    assert [Claim(e, true)] + [Perform(e, round.ran)] == [Claim(e, true), Perform(e, round.ran)];
    assert [Claim(e, true), Perform(e, round.ran)] + [Close(e, true, round.now)] == RoundTrace(s, e, round);
  }

  lemma NoneWon(s: Sys, e: Exec)
    ensures Won(s, [], e) == 0
  {
  }

  lemma ClaimedRow(s: Sys, e: Exec, job: Due, rest: seq<Due>)
    requires e in s.execs && s.execs[e] == Between([job] + rest) && job.id in s.rows && s.rows[job.id].status == Pending
    ensures var b := Next(s, Claim(e, true));
      b.rows == s.rows[job.id := Taken(s.rows[job.id])] && b.next == s.next && e in b.execs && b.execs[e] == Claimed(job, rest)
  {
    assert ([job] + rest)[0] == job && ([job] + rest)[1..] == rest;
  }

  lemma PerformedRow(b: Sys, e: Exec, job: Due, rest: seq<Due>, round: Round)
    requires e in b.execs && b.execs[e] == Claimed(job, rest)
    ensures var c := Next(b, Perform(e, round.ran));
      c.rows == b.rows && c.next == b.next && e in c.execs && c.execs[e] == Closing(job, round.ran, rest)
  {
  }

  lemma ClosedNext(c: Sys, e: Exec, job: Due, rest: seq<Due>, round: Round)
    requires e in c.execs && c.execs[e] == Closing(job, round.ran, rest) && job.id in c.rows
    ensures var d := Next(c, Close(e, true, round.now));
      && d.rows == c.rows[job.id := ClosedRow(c.rows[job.id], job, round.ran, round.now)]
      && d.next == c.next && e in d.execs && d.execs[e] == Between(rest)
  {
    hide ClosedRow;
  }

  ghost predicate RowsHandled(was: map<Id, Row>, now: map<Id, Row>, due: seq<Due>, rounds: seq<Round>)
    requires |rounds| <= |due|
  {
    && now.Keys == was.Keys
    && (forall i :: 0 <= i < |rounds| ==> due[i].id in was && now[due[i].id] == Handled(was[due[i].id], due[i], rounds[i]))
    && (forall id :: id in was && !DueHas(due[..|rounds|], id) ==> now[id] == was[id])
  }

  lemma OneMoreHandled(was: map<Id, Row>, now: map<Id, Row>, due: seq<Due>, rounds: seq<Round>)
    requires rounds != [] && |rounds| <= |due| && forall i, j :: 0 <= i < j < |due| ==> due[i].id < due[j].id
    requires RowsHandled(was, now, due, rounds[..|rounds| - 1]) && due[|rounds| - 1].id in was
    ensures var job := due[|rounds| - 1];
      && job.id in now && now[job.id] == was[job.id]
      && RowsHandled(was, now[job.id := Handled(now[job.id], job, rounds[|rounds| - 1])], due, rounds)
  {
    hide Handled, DueHas;
    var n := |rounds| - 1;
    var job := due[n];
    NotBefore(due, n);
    var next := now[job.id := Handled(now[job.id], job, rounds[n])];
    forall id | id in was && !DueHas(due[..n + 1], id) ensures next[id] == was[id] {
      NorBefore(due, n, id);
    }
  }

  lemma NotBefore(due: seq<Due>, n: nat)
    requires n < |due| && forall i, j :: 0 <= i < j < |due| ==> due[i].id < due[j].id
    ensures !DueHas(due[..n], due[n].id)
  {
  }

  lemma NorBefore(due: seq<Due>, n: nat, id: Id)
    requires n < |due| && !DueHas(due[..n + 1], id)
    ensures !DueHas(due[..n], id) && id != due[n].id
  {
    assert due[..n + 1][n] == due[n];
    assert forall i :: 0 <= i < n ==> due[..n][i] == due[..n + 1][i];
  }

  lemma {:induction false} RoundsAlone(s: Sys, e: Exec, due: seq<Due>, rounds: seq<Round>)
    requires |rounds| <= |due| && e in s.execs && s.execs[e] == Between(due) && Undisturbed(rounds)
    requires forall i :: 0 <= i < |due| ==> due[i].id in s.rows && s.rows[due[i].id].status == Pending
    requires forall i, j :: 0 <= i < j < |due| ==> due[i].id < due[j].id
    ensures var t := After(s, RoundsTrace(s, e, rounds));
      && e in t.execs && t.execs[e] == Between(due[|rounds|..]) && t.next == s.next
      && RowsHandled(s.rows, t.rows, due, rounds)
    ensures Won(s, RoundsTrace(s, e, rounds), e) == |rounds|
    decreases |rounds|
  {
    hide After, Won, RoundTrace, RowsHandled, Handled;
    if rounds == [] {
      NoSteps(s);
      NoneWon(s, e);
      NoneHandled(s.rows, due);
      assert due[0..] == due;
    } else {
      var n := |rounds| - 1;
      var before := RoundsTrace(s, e, rounds[..n]);
      RoundsAlone(s, e, due, rounds[..n]);
      var b := After(s, before);
      assert due[n..] == [due[n]] + due[n + 1..];
      OneMoreHandled(s.rows, b.rows, due, rounds);
      RoundAlone(b, e, due[n], due[n + 1..], rounds[n]);
      AfterMore(s, before, RoundTrace(b, e, rounds[n]));
      WonThen(s, before, RoundTrace(b, e, rounds[n]), e);
    }
  }

  lemma NoneHandled(rows: map<Id, Row>, due: seq<Due>)
    ensures RowsHandled(rows, rows, due, [])
  {
  }

  lemma {:induction false} WonThen(s: Sys, a: seq<Step>, b: seq<Step>, e: Exec)
    ensures Won(s, a + b, e) == Won(s, a, e) + Won(After(s, a), b, e)
    decreases |b|
  {
    hide After, Claimable;
    if b == [] {
      assert a + b == a;
    } else {
      var front := b[..|b| - 1];
      assert (a + b)[..|a + b| - 1] == a + front;
      WonThen(s, a, front, e);
      AfterMore(s, a, front);
    }
  }

  /** Undisturbed, a pass with time for all claims every job due, once, in id
      order, and leaves no row that was due as it was: each has one attempt more
      and stands as its own outcome says; no other row is touched. */
  lemma PassAlone(s: Sys, e: Exec, mine: set<Id>, now: real, rounds: seq<Round>)
    requires e !in s.execs && Inv(s) && Undisturbed(rounds) && |rounds| >= |DueOf(s, mine, now)|
    ensures var trace, due := PassTrace(s, e, mine, now, rounds), DueOf(s, mine, now);
      && Won(s, trace, e) == |due|
      && RowsHandled(s.rows, After(s, trace).rows, due, rounds[..|due|])
      && (forall id :: IsDue(s.rows, mine, now, id) ==>
            DueHas(due, id) && id in After(s, trace).rows && After(s, trace).rows[id].attempts == s.rows[id].attempts + 1)
  {
    hide After, Won, RoundsTrace, DueBelow, RowsHandled, Handled, Claimable;
    var due := DueOf(s, mine, now);
    var reached := Reached(s, mine, now, rounds);
    DueIs(s.rows, mine, now, s.next);
    var began := Started(s, e, mine, now);
    Begin(s, e, mine, now);
    assert reached == rounds[..|due|];
    RoundsAlone(began, e, due, reached);
    var start, middle := [Start(e, mine, now)], RoundsTrace(began, e, reached);
    AfterMore(s, start, middle);
    WonThen(s, start, middle, e);
    OneStep(s, start + middle, Leave(e), e);
    Left(After(s, start + middle), e);
    AllAttempted(s, After(s, start + middle).rows, mine, now, reached);
  }

  lemma AllAttempted(s: Sys, rows: map<Id, Row>, mine: set<Id>, now: real, rounds: seq<Round>)
    requires Inv(s) && |rounds| == |DueOf(s, mine, now)| && RowsHandled(s.rows, rows, DueOf(s, mine, now), rounds)
    ensures forall id :: IsDue(s.rows, mine, now, id) ==>
      DueHas(DueOf(s, mine, now), id) && id in rows && rows[id].attempts == s.rows[id].attempts + 1
  {
    hide DueBelow, LogOk, StagesOk, OneHolder, RowsHandled;
    var due := DueOf(s, mine, now);
    DueIs(s.rows, mine, now, s.next);
    forall id | IsDue(s.rows, mine, now, id)
      ensures DueHas(due, id) && id in rows && rows[id].attempts == s.rows[id].attempts + 1
    {
      assert DueHas(due, id);
      var i :| 0 <= i < |due| && due[i].id == id;
      HandledAt(s.rows, rows, due, rounds, i);
    }
  }

  lemma HandledAt(was: map<Id, Row>, now: map<Id, Row>, due: seq<Due>, rounds: seq<Round>, i: nat)
    requires i < |rounds| == |due| && RowsHandled(was, now, due, rounds)
    ensures due[i].id in was && due[i].id in now && now[due[i].id].attempts == was[due[i].id].attempts + 1
  {
    assert now[due[i].id] == Handled(was[due[i].id], due[i], rounds[i]);
  }
}
