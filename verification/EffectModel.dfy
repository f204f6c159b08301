/** The effect queue: rows, executors racing over them, and every step of either. */
module EffectModel {
  import opened Base

  type Id = nat
  type Exec = nat

  const MAX_ATTEMPTS := 6

  datatype Status = Pending | Processing | Done | Obsolete | Failed

  datatype Row = Row(status: Status, idempotent: bool, attempts: nat, notBefore: real,
                     reply: Option<string>, error: Option<string>)

  /** A due row as a pass read it; by the time it is claimed it may be stale. */
  datatype Due = Due(id: Id, idempotent: bool)

  /** What performing a claimed job came to. */
  datatype Ran = RanDone(reply: string) | RanObsolete | NoHandler(kind: string) | RanFailed(error: string)

  /** Where an executor is in its pass. */
  datatype Stage =
    | Between(due: seq<Due>)
    | Claimed(job: Due, rest: seq<Due>)
    | Closing(job: Due, ran: Ran, rest: seq<Due>)

  /** What has happened outside the rows: a round trip, a settlement. */
  datatype Event = Performed(id: Id) | Settled(id: Id)

  datatype Sys = Sys(rows: map<Id, Row>, next: Id, execs: map<Exec, Stage>, log: seq<Event>)

  const EMPTY := Sys(map[], 1, map[], [])

  // ---- one transaction each -------------------------------------------------------

  function NewRow(idempotent: bool, notBefore: real): Row {
    Row(Pending, idempotent, 0, notBefore, None, None)
  }

  function Cancelled(row: Row): Row {
    if row.status == Pending then row.(status := Obsolete) else row
  }

  function Taken(row: Row): Row {
    row.(status := Processing, attempts := row.attempts + 1)
  }

  function Backoff(attempts: nat): real {
    if attempts <= 1 then 5.0 else if attempts == 2 then 30.0 else if attempts == 3 then 120.0 else 600.0
  }

  /** Pending again, later, unless the failure is final or the attempts are used up. */
  function FailedRow(row: Row, error: string, terminal: bool, now: real): Row {
    if terminal || row.attempts >= MAX_ATTEMPTS then row.(status := Failed, error := Some(error))
    else row.(status := Pending, error := Some(error), notBefore := now + Backoff(row.attempts))
  }

  function ClosedRow(row: Row, job: Due, ran: Ran, now: real): Row {
    match ran
    case RanDone(reply) => row.(status := Done, reply := Some(reply), error := None)
    case RanObsolete => row.(status := Obsolete)
    case NoHandler(kind) => FailedRow(row, "no handler for kind " + kind, true, now)
    case RanFailed(error) => FailedRow(row, error, !job.idempotent, now)
  }

  /** The due rows among ids below `k`, in order, that this pass may run. */
  function DueBelow(rows: map<Id, Row>, mine: set<Id>, now: real, k: Id): (due: seq<Due>)
    ensures forall i :: 0 <= i < |due| ==> due[i].id in rows && rows[due[i].id].idempotent == due[i].idempotent
  {
    if k == 0 then []
    else
      DueBelow(rows, mine, now, k - 1)
      + if k - 1 in rows && k - 1 in mine && rows[k - 1].status == Pending && rows[k - 1].notBefore <= now
        then [Due(k - 1, rows[k - 1].idempotent)] else []
  }

  // ---- steps ----------------------------------------------------------------------------

  /** One atomic step of somebody. A write may fail, and an executor may be
      dropped wherever it waits. */
  datatype Step =
    | Enqueue(idempotent: bool, notBefore: real)
    | Cancel(id: Id)
    | Start(e: Exec, mine: set<Id>, now: real)
    | Claim(e: Exec, ok: bool)
    | Perform(e: Exec, ran: Ran)
    | Close(e: Exec, ok: bool, now: real)
    | Leave(e: Exec)

  function At(s: Sys, e: Exec, stage: Stage): Sys {
    s.(execs := s.execs[e := stage])
  }

  function StartStep(s: Sys, e: Exec, mine: set<Id>, now: real): Sys {
    if e in s.execs then s else At(s, e, Between(DueBelow(s.rows, mine, now, s.next)))
  }

  /** Takes the row if nobody has; either way the pass goes on to its next. */
  function ClaimStep(s: Sys, e: Exec, ok: bool): Sys {
    if e in s.execs && s.execs[e].Between? && s.execs[e].due != [] then
      var job, rest := s.execs[e].due[0], s.execs[e].due[1..];
      if ok && job.id in s.rows && s.rows[job.id].status == Pending then
        At(s.(rows := s.rows[job.id := Taken(s.rows[job.id])]), e, Claimed(job, rest))
      else At(s, e, Between(rest))
    else s
  }

  /** The round trip, outside every transaction. */
  function PerformStep(s: Sys, e: Exec, ran: Ran): Sys {
    if e in s.execs && s.execs[e].Claimed? then
      var job := s.execs[e].job;
      At(s.(log := if ran.RanDone? || ran.RanFailed? then s.log + [Performed(job.id)] else s.log), e, Closing(job, ran, s.execs[e].rest))
    else s
  }

  /** The close: status and settlement in one transaction, or neither. */
  function CloseStep(s: Sys, e: Exec, ok: bool, now: real): Sys {
    if e in s.execs && s.execs[e].Closing? then
      var job, ran, rest := s.execs[e].job, s.execs[e].ran, s.execs[e].rest;
      if ok && job.id in s.rows then
        At(s.(rows := s.rows[job.id := ClosedRow(s.rows[job.id], job, ran, now)],
              log := if ran.RanDone? then s.log + [Settled(job.id)] else s.log), e, Between(rest))
      else At(s, e, Between(rest))
    else s
  }

  function Next(s: Sys, step: Step): Sys {
    match step
    case Enqueue(idempotent, notBefore) => s.(rows := s.rows[s.next := NewRow(idempotent, notBefore)], next := s.next + 1)
    case Cancel(id) => if id in s.rows then s.(rows := s.rows[id := Cancelled(s.rows[id])]) else s
    case Start(e, mine, now) => StartStep(s, e, mine, now)
    case Claim(e, ok) => ClaimStep(s, e, ok)
    case Perform(e, ran) => PerformStep(s, e, ran)
    case Close(e, ok, now) => CloseStep(s, e, ok, now)
    case Leave(e) => s.(execs := s.execs - {e})
  }

  function After(s: Sys, steps: seq<Step>): Sys
    decreases |steps|
  {
    if steps == [] then s else Next(After(s, steps[..|steps| - 1]), steps[|steps| - 1])
  }

  // ---- the rules ----------------------------------------------------------------------------

  function Count(log: seq<Event>, event: Event): nat {
    if log == [] then 0 else Count(log[..|log| - 1], event) + if log[|log| - 1] == event then 1 else 0
  }

  /** This executor is performing, or about to close, the job. */
  predicate Holds(s: Sys, e: Exec, id: Id) {
    e in s.execs && !s.execs[e].Between? && s.execs[e].job.id == id
  }

  /** Claimed and not yet performed. */
  predicate Fresh(s: Sys, e: Exec, id: Id) {
    e in s.execs && s.execs[e].Claimed? && s.execs[e].job.id == id
  }

  predicate RowOk(row: Row) {
    && row.attempts <= MAX_ATTEMPTS
    && (row.status == Pending ==> row.attempts < MAX_ATTEMPTS && (row.idempotent || row.attempts == 0))
    && (row.status == Processing ==> row.attempts > 0)
    && (!row.idempotent ==> row.attempts <= 1)
  }

  /** A round trip was made for at most each attempt, and settled exactly when done. */
  ghost predicate Accounted(s: Sys, id: Id)
    requires id in s.rows
  {
    && Count(s.log, Performed(id)) <= s.rows[id].attempts
    && (forall e :: Fresh(s, e, id) ==> Count(s.log, Performed(id)) < s.rows[id].attempts)
    && Count(s.log, Settled(id)) == if s.rows[id].status == Done then 1 else 0
  }

  predicate DueOk(s: Sys, due: seq<Due>) {
    forall i :: 0 <= i < |due| ==> due[i].id in s.rows && s.rows[due[i].id].idempotent == due[i].idempotent
  }

  predicate StageOk(s: Sys, stage: Stage) {
    match stage
    case Between(due) => DueOk(s, due)
    case Claimed(job, rest) =>
      DueOk(s, rest) && job.id in s.rows && s.rows[job.id].status == Processing && s.rows[job.id].idempotent == job.idempotent
    case Closing(job, _, rest) =>
      DueOk(s, rest) && job.id in s.rows && s.rows[job.id].status == Processing && s.rows[job.id].idempotent == job.idempotent
  }

  /** No job has two performers. */
  ghost predicate OneHolder(s: Sys) {
    forall e, f, id :: Holds(s, e, id) && Holds(s, f, id) ==> e == f
  }

  ghost predicate RowsOk(s: Sys) {
    forall id :: id in s.rows ==> id < s.next && RowOk(s.rows[id])
  }

  ghost predicate LogOk(s: Sys) {
    && (forall id :: id in s.rows ==> Accounted(s, id))
    && (forall id: Id :: id >= s.next ==> Count(s.log, Performed(id)) == 0 && Count(s.log, Settled(id)) == 0)
  }

  ghost predicate StagesOk(s: Sys) {
    forall e :: e in s.execs ==> StageOk(s, s.execs[e])
  }

  ghost predicate Inv(s: Sys) {
    RowsOk(s) && LogOk(s) && StagesOk(s) && OneHolder(s)
  }

  predicate Final(row: Row) {
    row.status == Done || row.status == Failed || row.status == Obsolete
  }
}
