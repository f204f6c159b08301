/** What every interleaving of executors, cancels and enqueues keeps. */
module EffectRun {
  import opened Base
  import opened EffectModel

  lemma CountOne(log: seq<Event>, more: Event, event: Event)
    ensures Count(log + [more], event) == Count(log, event) + if more == event then 1 else 0
  {
    assert (log + [more])[..|log|] == log;
  }

  // ---- rows changed while nobody holds them --------------------------------------------

  /** What a pass copied from a row stays so. */
  ghost predicate Extends(s: Sys, t: Sys) {
    forall id :: id in s.rows ==> id in t.rows && t.rows[id].idempotent == s.rows[id].idempotent
  }

  ghost predicate Untaken(s: Sys, t: Sys, id: Id)
    requires id in t.rows
  {
    if id in s.rows then
      && (s.rows[id].status == Processing ==> t.rows[id] == s.rows[id])
      && t.rows[id].attempts == s.rows[id].attempts && (t.rows[id].status == Done <==> s.rows[id].status == Done)
    else id >= s.next && t.rows[id].status != Done
  }

  lemma RowsChanged(s: Sys, t: Sys)
    requires Inv(s) && Extends(s, t) && RowsOk(t) && t.execs == s.execs && t.log == s.log && t.next >= s.next
    requires forall id :: id in t.rows ==> Untaken(s, t, id)
    ensures Inv(t)
  {
    hide RowOk, Count;
    forall e | e in t.execs ensures StageOk(t, t.execs[e]) {
      assert StageOk(s, s.execs[e]);
    }
    forall id | id in t.rows ensures Accounted(t, id) {
      NewlyAccounted(s, t, id);
    }
    forall e, f, id | Holds(t, e, id) && Holds(t, f, id) ensures e == f {
      assert Holds(s, e, id) && Holds(s, f, id);
    }
  }

  lemma NewlyAccounted(s: Sys, t: Sys, id: Id)
    requires Inv(s) && t.execs == s.execs && t.log == s.log && id in t.rows && Untaken(s, t, id)
    ensures Accounted(t, id)
  {
    hide RowOk, Count;
    forall e | Fresh(t, e, id) ensures id in s.rows && Fresh(s, e, id) {
      assert StageOk(s, s.execs[e]);
    }
    if id in s.rows {
      assert Accounted(s, id);
    }
  }

  lemma EnqueueKeeps(s: Sys, idempotent: bool, notBefore: real)
    requires Inv(s)
    ensures Inv(Next(s, Enqueue(idempotent, notBefore)))
  {
    hide LogOk, StagesOk, OneHolder;
    var t := Next(s, Enqueue(idempotent, notBefore));
    assert s.next !in s.rows;
    RowsChanged(s, t);
  }

  lemma CancelKeeps(s: Sys, id: Id)
    requires Inv(s)
    ensures Inv(Next(s, Cancel(id)))
  {
    hide LogOk, StagesOk, OneHolder;
    if id in s.rows {
      RowsChanged(s, Next(s, Cancel(id)));
    }
  }

  // ---- an executor moved where it holds nothing ---------------------------------------------

  ghost predicate OthersStay(s: Sys, t: Sys, e: Exec) {
    forall f :: f in t.execs && f != e ==> f in s.execs && t.execs[f] == s.execs[f]
  }

  lemma StageChanged(s: Sys, t: Sys, e: Exec)
    requires Inv(s) && t.rows == s.rows && t.next == s.next && t.log == s.log && OthersStay(s, t, e)
    requires e in t.execs ==> t.execs[e].Between? && StageOk(t, t.execs[e])
    ensures Inv(t)
  {
    hide RowOk, Count;
    forall f | f in t.execs ensures StageOk(t, t.execs[f]) {
      assert f != e ==> StageOk(s, s.execs[f]);
    }
    forall id | id in t.rows ensures Accounted(t, id) {
      assert Accounted(s, id);
      forall f | Fresh(t, f, id) ensures Fresh(s, f, id) {
      }
    }
    forall f, g, id | Holds(t, f, id) && Holds(t, g, id) ensures f == g {
      assert Holds(s, f, id) && Holds(s, g, id);
    }
  }

  lemma StartKeeps(s: Sys, e: Exec, mine: set<Id>, now: real)
    requires Inv(s)
    ensures Inv(StartStep(s, e, mine, now))
  {
    hide Inv, DueBelow;
    if e !in s.execs {
      StageChanged(s, StartStep(s, e, mine, now), e);
    }
  }

  lemma LeaveKeeps(s: Sys, e: Exec)
    requires Inv(s)
    ensures Inv(Next(s, Leave(e)))
  {
    hide Inv;
    StageChanged(s, Next(s, Leave(e)), e);
  }

  // ---- an executor and its job -----------------------------------------------------------------

  /** No other executor holds the job. */
  ghost predicate Alone(s: Sys, e: Exec, id: Id) {
    forall f :: Holds(s, f, id) ==> f == e
  }

  ghost predicate LogOnly(s: Sys, t: Sys, id: Id) {
    forall x: Id :: x != id ==>
      Count(t.log, Performed(x)) == Count(s.log, Performed(x)) && Count(t.log, Settled(x)) == Count(s.log, Settled(x))
  }

  /** `e` changed one row, which nobody else holds, and its own stage. */
  lemma JobStep(s: Sys, t: Sys, e: Exec, id: Id)
    requires Inv(s) && id in s.rows && Alone(s, e, id) && OthersStay(s, t, e) && t.next == s.next
    requires id in t.rows && t.rows == s.rows[id := t.rows[id]] && RowOk(t.rows[id])
    requires t.rows[id].idempotent == s.rows[id].idempotent
    requires e in t.execs && StageOk(t, t.execs[e]) && (!t.execs[e].Between? ==> t.execs[e].job.id == id)
    requires LogOnly(s, t, id) && Accounted(t, id)
    ensures Inv(t)
  {
    hide RowOk, Count;
    forall f | f in t.execs ensures StageOk(t, t.execs[f]) {
      if f != e {
        assert StageOk(s, s.execs[f]);
        assert !Holds(s, f, id);
      }
    }
    forall x | x in t.rows && x != id ensures Accounted(t, x) {
      assert Accounted(s, x);
      forall f | Fresh(t, f, x) ensures Fresh(s, f, x) {
      }
    }
    forall f, g, x | Holds(t, f, x) && Holds(t, g, x) ensures f == g {
      assert f != e ==> Holds(s, f, x);
      assert g != e ==> Holds(s, g, x);
    }
  }

  lemma NoOtherFresh(s: Sys, t: Sys, e: Exec, id: Id)
    requires Alone(s, e, id) && OthersStay(s, t, e)
    ensures forall f :: Fresh(t, f, id) ==> f == e
  {
    forall f | Fresh(t, f, id) ensures f == e {
      assert f != e ==> Holds(s, f, id);
    }
  }

  lemma HolderAlone(s: Sys, e: Exec, id: Id)
    requires Inv(s) && Holds(s, e, id)
    ensures Alone(s, e, id) && id in s.rows && s.rows[id].status == Processing && RowOk(s.rows[id]) && Accounted(s, id)
  {
    hide RowOk, Accounted;
    assert StageOk(s, s.execs[e]);
  }

  lemma PendingAlone(s: Sys, e: Exec, id: Id)
    requires Inv(s) && id in s.rows && s.rows[id].status == Pending
    ensures Alone(s, e, id) && RowOk(s.rows[id]) && Accounted(s, id)
    ensures forall f :: !Holds(s, f, id)
  {
    hide RowOk, Accounted;
    forall f ensures !Holds(s, f, id) {
      assert f in s.execs ==> StageOk(s, s.execs[f]);
    }
  }

  /** The claim: a row still pending is taken by this executor and no other. */
  lemma ClaimKeeps(s: Sys, e: Exec, ok: bool)
    requires Inv(s)
    ensures Inv(ClaimStep(s, e, ok))
  {
    hide Inv, Count;
    var t := ClaimStep(s, e, ok);
    if e in s.execs && s.execs[e].Between? && s.execs[e].due != [] {
      var job := s.execs[e].due[0];
      ExecOk(s, e);
      if ok && job.id in s.rows && s.rows[job.id].status == Pending {
        PendingAlone(s, e, job.id);
        NoOtherFresh(s, t, e, job.id);
        JobStep(s, t, e, job.id);
      } else {
        StageChanged(s, t, e);
      }
    }
  }

  lemma ExecOk(s: Sys, e: Exec)
    requires Inv(s) && e in s.execs
    ensures StageOk(s, s.execs[e])
  {
  }

  lemma PerformKeeps(s: Sys, e: Exec, ran: Ran)
    requires Inv(s)
    ensures Inv(PerformStep(s, e, ran))
  {
    hide Inv, Count, RowOk;
    var t := PerformStep(s, e, ran);
    if e in s.execs && s.execs[e].Claimed? {
      var id := s.execs[e].job.id;
      ExecOk(s, e);
      assert Holds(s, e, id) && Fresh(s, e, id);
      HolderAlone(s, e, id);
      forall x ensures Count(s.log + [Performed(id)], x) == Count(s.log, x) + if x == Performed(id) then 1 else 0 {
        CountOne(s.log, Performed(id), x);
      }
      NoOtherFresh(s, t, e, id);
      JobStep(s, t, e, id);
    }
  }

  /** The close: the row leaves processing by the executor that took it. */
  lemma CloseKeeps(s: Sys, e: Exec, ok: bool, now: real)
    requires Inv(s)
    ensures Inv(CloseStep(s, e, ok, now))
  {
    hide Inv, Count;
    var t := CloseStep(s, e, ok, now);
    if e in s.execs && s.execs[e].Closing? {
      var job := s.execs[e].job;
      var id := job.id;
      ExecOk(s, e);
      assert Holds(s, e, id);
      HolderAlone(s, e, id);
      if ok {
        forall x ensures Count(s.log + [Settled(id)], x) == Count(s.log, x) + if x == Settled(id) then 1 else 0 {
          CountOne(s.log, Settled(id), x);
        }
        NoOtherFresh(s, t, e, id);
        JobStep(s, t, e, id);
      } else {
        StageChanged(s, t, e);
      }
    }
  }

  lemma StepKeeps(s: Sys, step: Step)
    requires Inv(s)
    ensures Inv(Next(s, step))
  {
    hide Inv, StartStep, ClaimStep, PerformStep, CloseStep;
    match step {
      case Enqueue(idempotent, notBefore) => EnqueueKeeps(s, idempotent, notBefore);
      case Cancel(id) => CancelKeeps(s, id);
      case Start(e, mine, now) => StartKeeps(s, e, mine, now);
      case Claim(e, ok) => ClaimKeeps(s, e, ok);
      case Perform(e, ran) => PerformKeeps(s, e, ran);
      case Close(e, ok, now) => CloseKeeps(s, e, ok, now);
      case Leave(e) => LeaveKeeps(s, e);
    }
  }

  // ---- every run ---------------------------------------------------------------------------------

  /** In every run, however it interleaves: one performer to a job, attempts
      bounded, a round trip for at most each attempt, a settlement for exactly
      the jobs done. */
  lemma {:induction false} RunKeeps(s: Sys, steps: seq<Step>)
    requires Inv(s)
    ensures Inv(After(s, steps))
    decreases |steps|
  {
    hide Inv, Next;
    if steps != [] {
      RunKeeps(s, steps[..|steps| - 1]);
      StepKeeps(After(s, steps[..|steps| - 1]), steps[|steps| - 1]);
    }
  }

  lemma EmptyKeeps()
    ensures Inv(EMPTY)
  {
  }

  /** What the rules come to for a job, from the beginning of the process. */
  lemma EveryJob(steps: seq<Step>, id: Id)
    ensures var s := After(EMPTY, steps);
      && (forall e, f :: Holds(s, e, id) && Holds(s, f, id) ==> e == f)
      && (id in s.rows ==>
            && s.rows[id].attempts <= MAX_ATTEMPTS
            && Count(s.log, Performed(id)) <= s.rows[id].attempts
            && (!s.rows[id].idempotent ==> Count(s.log, Performed(id)) <= 1)
            && Count(s.log, Settled(id)) == if s.rows[id].status == Done then 1 else 0)
      && (id !in s.rows && id >= s.next ==> Count(s.log, Performed(id)) == 0 && Count(s.log, Settled(id)) == 0)
  {
    hide Count, After;
    EmptyKeeps();
    RunKeeps(EMPTY, steps);
    var s := After(EMPTY, steps);
    if id in s.rows {
      assert Accounted(s, id) && RowOk(s.rows[id]);
    }
  }

  /** Done, failed and obsolete are for good. */
  lemma FinalStays(s: Sys, step: Step, id: Id)
    requires Inv(s) && id in s.rows && Final(s.rows[id])
    ensures id in Next(s, step).rows && Next(s, step).rows[id] == s.rows[id]
  {
    hide LogOk, OneHolder;
    if step.Close? && step.e in s.execs && s.execs[step.e].Closing? {
      assert StageOk(s, s.execs[step.e]);
    }
  }

  lemma {:induction false} FinalForGood(s: Sys, steps: seq<Step>, id: Id)
    requires Inv(s) && id in s.rows && Final(s.rows[id])
    ensures id in After(s, steps).rows && After(s, steps).rows[id] == s.rows[id]
    decreases |steps|
  {
    hide Inv, Next;
    if steps != [] {
      var front := steps[..|steps| - 1];
      FinalForGood(s, front, id);
      RunKeeps(s, front);
      FinalStays(After(s, front), steps[|steps| - 1], id);
    }
  }

  /** A row left processing with nobody to close it, as when its close failed
      to be written, stays so for the rest of the run: no step retries it. */
  ghost predicate Stuck(s: Sys, id: Id) {
    id in s.rows && s.rows[id].status == Processing && forall e :: !Holds(s, e, id)
  }

  lemma CloseFailed(s: Sys, e: Exec, now: real)
    requires Inv(s) && e in s.execs && s.execs[e].Closing?
    ensures Stuck(Next(s, Close(e, false, now)), s.execs[e].job.id)
  {
    hide RowsOk, LogOk;
    var id := s.execs[e].job.id;
    assert StageOk(s, s.execs[e]) && Holds(s, e, id);
    var t := Next(s, Close(e, false, now));
    forall f ensures !Holds(t, f, id) {
      assert f != e && Holds(t, f, id) ==> Holds(s, f, id);
    }
  }

  lemma StuckStays(s: Sys, step: Step, id: Id)
    requires Inv(s) && Stuck(s, id)
    ensures Stuck(Next(s, step), id) && Next(s, step).rows[id] == s.rows[id]
  {
    hide LogOk, OneHolder, RowOk, StagesOk;
    var t := Next(s, step);
    if step.Close? && step.e in s.execs && s.execs[step.e].Closing? {
      assert !Holds(s, step.e, id);
    }
    forall f ensures !Holds(t, f, id) {
      assert !Holds(s, f, id);
    }
  }

  lemma {:induction false} StuckForGood(s: Sys, steps: seq<Step>, id: Id)
    requires Inv(s) && Stuck(s, id)
    ensures Stuck(After(s, steps), id) && After(s, steps).rows[id] == s.rows[id]
    decreases |steps|
  {
    hide Inv, Next, Stuck;
    if steps != [] {
      var front := steps[..|steps| - 1];
      StuckForGood(s, front, id);
      RunKeeps(s, front);
      StuckStays(After(s, front), steps[|steps| - 1], id);
    }
  }

  /** One job, one executor, and a close that is not written. */
  const LEFT: seq<Step> := [Enqueue(true, 0.0), Start(0, {1}, 0.0), Claim(0, true), Perform(0, RanDone("")), Close(0, false, 0.0)]

  lemma LeftOn(k: nat)
    requires k < |LEFT|
    ensures After(EMPTY, LEFT[..k + 1]) == Next(After(EMPTY, LEFT[..k]), LEFT[k])
  {
    assert LEFT[..k + 1][..k] == LEFT[..k];
  }

  lemma LeftClosing()
    ensures var s := After(EMPTY, LEFT[..4]);
      0 in s.execs && s.execs[0] == Closing(Due(1, true), RanDone(""), [])
  {
    hide After;
    assert After(EMPTY, LEFT[..0]) == EMPTY by { assert LEFT[..0] == []; Nothing(); }
    LeftOn(0);
    var row := NewRow(true, 0.0);
    assert After(EMPTY, LEFT[..1]) == Sys(map[1 := row], 2, map[], []);
    LeftOn(1);
    assert DueBelow(map[1 := row], {1}, 0.0, 1) == [];
    assert DueBelow(map[1 := row], {1}, 0.0, 2) == [Due(1, true)];
    LeftOn(2);
    LeftOn(3);
  }

  lemma Nothing()
    ensures After(EMPTY, []) == EMPTY && Inv(EMPTY)
  {
  }

  /** A row can be left processing for good. */
  lemma LeftStuck()
    ensures Stuck(After(EMPTY, LEFT), 1)
  {
    hide After, Stuck, Inv, Next;
    Nothing();
    LeftClosing();
    RunKeeps(EMPTY, LEFT[..4]);
    CloseFailed(After(EMPTY, LEFT[..4]), 0, 0.0);
    LeftOn(4);
    assert LEFT[..5] == LEFT;
  }
}
