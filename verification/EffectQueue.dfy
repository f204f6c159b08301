/** The queue's transactions, and an executor's pass with others at work
    wherever it waits. */
module EffectQueue {
  import opened Base
  import opened EffectModel
  import opened EffectRun
  import opened EffectPass

  class Queue {
    var rows: map<Id, Row>
    var next: Id
    /** Where every executor is, and what has happened outside the rows. */
    var execs: map<Exec, Stage>
    var log: seq<Event>

    function Value(): Sys
      reads this
    {
      Sys(rows, next, execs, log)
    }

    constructor ()
      ensures Value() == EMPTY
    {
      rows, next, execs, log := map[], 1, map[], [];
    }

    // ---- one transaction each -----------------------------------------------------

    method Insert(idempotent: bool, notBefore: real) returns (id: Id)
      modifies this
      ensures Value() == Next(old(Value()), Enqueue(idempotent, notBefore)) && id == old(next)
    {
      id := next;
      rows := rows[id := NewRow(idempotent, notBefore)];
      next := next + 1;
    }

    /** Makes a pending row obsolete; says whether it was pending. */
    method CancelTx(id: Id) returns (won: bool)
      modifies this
      ensures Value() == Next(old(Value()), Cancel(id))
      ensures won <==> id in old(rows) && old(rows)[id].status == Pending
    {
      won := id in rows && rows[id].status == Pending;
      if won {
        rows := rows[id := rows[id].(status := Obsolete)];
      } else if id in rows {
        assert rows[id := rows[id]] == rows;
      }
    }

    method DueNow(mine: set<Id>, now: real) returns (due: seq<Due>)
      ensures due == DueBelow(rows, mine, now, next)
    {
      due := [];
      for id := 0 to next
        invariant due == DueBelow(rows, mine, now, id)
      {
        if id in rows && id in mine && rows[id].status == Pending && rows[id].notBefore <= now {
          due := due + [Due(id, rows[id].idempotent)];
        }
      }
    }

    /** The claim: it takes the row only while it is pending. */
    method ClaimRow(id: Id, ok: bool) returns (won: bool)
      modifies this`rows
      ensures won <==> ok && id in old(rows) && old(rows)[id].status == Pending
      ensures rows == if won then old(rows)[id := Taken(old(rows)[id])] else old(rows)
    {
      won := ok && id in rows && rows[id].status == Pending;
      if won {
        rows := rows[id := rows[id].(status := Processing, attempts := rows[id].attempts + 1)];
      }
    }

    /** `FailedRow`, in place. */
    method Fail(id: Id, error: string, terminal: bool, now: real)
      modifies this`rows
      ensures rows == if id in old(rows) then old(rows)[id := FailedRow(old(rows)[id], error, terminal, now)] else old(rows)
    {
      var attempts := if id in rows then rows[id].attempts else MAX_ATTEMPTS;
      if id in rows {
        if terminal || attempts >= MAX_ATTEMPTS {
          rows := rows[id := rows[id].(status := Failed, error := Some(error))];
        } else {
          rows := rows[id := rows[id].(status := Pending, error := Some(error), notBefore := now + Backoff(attempts))];
        }
      }
    }

    /** The close of one job, whatever came of it, in one transaction or not at all. */
    method CloseJob(job: Due, ran: Ran, ok: bool, now: real)
      modifies this`rows, this`log
      ensures rows == if ok && job.id in old(rows) then old(rows)[job.id := ClosedRow(old(rows)[job.id], job, ran, now)] else old(rows)
      ensures log == old(log) + if ok && job.id in old(rows) && ran.RanDone? then [Settled(job.id)] else []
    {
      if !ok {
        return;
      }
      match ran {
        case RanDone(reply) =>
          if job.id in rows {
            log := log + [Settled(job.id)];
            rows := rows[job.id := rows[job.id].(status := Done, reply := Some(reply), error := None)];
          }
        case RanObsolete =>
          if job.id in rows {
            rows := rows[job.id := rows[job.id].(status := Obsolete)];
          }
        case NoHandler(kind) => Fail(job.id, "no handler for kind " + kind, true, now);
        case RanFailed(error) => Fail(job.id, error, !job.idempotent, now);
      }
    }

    // ---- a pass ----------------------------------------------------------------------

    /** Others at work while this executor waits. */
    method Others(steps: seq<Step>)
      modifies this
      ensures Value() == After(old(Value()), steps)
    {
      for k := 0 to |steps|
        invariant Value() == After(old(Value()), steps[..k])
      {
        assert steps[..k + 1][..k] == steps[..k];
        var s := Next(Value(), steps[k]);
        rows, next, execs, log := s.rows, s.next, s.execs, s.log;
      }
      assert steps[..|steps|] == steps;
    }

    method ClaimNext(e: Exec, job: Due, rest: seq<Due>, ok: bool) returns (won: bool)
      requires e in execs && execs[e] == Between([job] + rest)
      modifies this
      ensures Value() == Next(old(Value()), Claim(e, ok)) && won == Claimable(old(Value()), e, ok)
      ensures e in execs && execs[e] == if won then Claimed(job, rest) else Between(rest)
    {
      assert ([job] + rest)[0] == job && ([job] + rest)[1..] == rest;
      won := ClaimRow(job.id, ok);
      execs := execs[e := if won then Claimed(job, rest) else Between(rest)];
    }

    /** The round trip, outside every transaction. */
    method PerformJob(e: Exec, job: Due, rest: seq<Due>, ran: Ran)
      requires e in execs && execs[e] == Claimed(job, rest)
      modifies this
      ensures Value() == Next(old(Value()), Perform(e, ran)) && e in execs && execs[e] == Closing(job, ran, rest)
    {
      if ran.RanDone? || ran.RanFailed? {
        log := log + [Performed(job.id)];
      }
      execs := execs[e := Closing(job, ran, rest)];
    }

    method CloseNext(e: Exec, job: Due, rest: seq<Due>, ran: Ran, ok: bool, now: real)
      requires e in execs && execs[e] == Closing(job, ran, rest)
      modifies this
      ensures Value() == Next(old(Value()), Close(e, ok, now)) && e in execs && execs[e] == Between(rest)
    {
      CloseJob(job, ran, ok, now);
      execs := execs[e := Between(rest)];
    }

    /** One due row: the claim, and if it is won the round trip and the close. */
    method RunRound(e: Exec, job: Due, rest: seq<Due>, round: Round) returns (won: bool)
      requires e in execs && execs[e] == Between([job] + rest)
      requires NotBy(round.first, e) && NotBy(round.second, e) && NotBy(round.third, e)
      modifies this
      ensures Value() == After(old(Value()), RoundTrace(old(Value()), e, round))
      ensures won == Claimable(After(old(Value()), round.first), e, round.claimOk)
      ensures e in execs && execs[e] == Between(rest)
    {
      hide After, Next, Claimable, NotBy;
      ghost var s := Value();
      OneStep(s, round.first, Claim(e, round.claimOk), e);
      Meanwhile(e, round.first);
      won := ClaimNext(e, job, rest, round.claimOk);
      if !won {
        return;
      }
      WholeRound(s, e, round);
      OneStep(Value(), round.second, Perform(e, round.ran), e);
      Meanwhile(e, round.second);
      PerformJob(e, job, rest, round.ran);

      OneStep(Value(), round.third, Close(e, round.closeOk, round.now), e);
      Meanwhile(e, round.third);
      CloseNext(e, job, rest, round.ran, round.closeOk, round.now);
    }

    /** An executor's pass over the rows due when it begins, one round each. With
        fewer rounds than rows it is dropped between two of them. */
    method RunEffectsWhere(e: Exec, mine: set<Id>, now: real, rounds: seq<Round>) returns (claimed: nat, ghost trace: seq<Step>)
      requires e !in execs && RoundsNotBy(rounds, e)
      modifies this
      ensures trace == PassTrace(old(Value()), e, mine, now, rounds)
      ensures Value() == After(old(Value()), trace) && e !in execs
      ensures claimed == Won(old(Value()), trace, e)
    {
      hide After, Won, Next, DueBelow, Claimable, NotBy, RoundTrace, RoundsTrace;
      ghost var s := Value();
      claimed := 0;
      var due := DueNow(mine, now);
      execs := execs[e := Between(due)];
      Begin(s, e, mine, now);
      PassBegins(s, e, mine, now);
      var i := 0;
      assert due[0..] == due && rounds[..0] == [];
      while i < |due| && i < |rounds|
        invariant i <= |due| && i <= |rounds| && e in execs && execs[e] == Between(due[i..])
        invariant Value() == After(s, FirstRounds(s, e, mine, now, rounds[..i]))
        invariant claimed == Won(s, FirstRounds(s, e, mine, now, rounds[..i]), e)
      {
        assert due[i..] == [due[i]] + due[i + 1..];
        PassGoesOn(s, e, mine, now, rounds, i);
        var won := RunRound(e, due[i], due[i + 1..], rounds[i]);
        claimed := claimed + if won then 1 else 0;
        i := i + 1;
      }
      trace := FirstRounds(s, e, mine, now, rounds[..i]);
      Left(Value(), e);
      Stepped(s, trace, Leave(e), e, Value());
      trace := trace + [Leave(e)];
      execs := execs - {e};
    }

    /** Others' steps, seen from the executor. */
    method Meanwhile(e: Exec, steps: seq<Step>)
      requires NotBy(steps, e) && e in execs
      modifies this
      ensures Value() == After(old(Value()), steps) && e in execs && execs[e] == old(execs[e])
    {
      hide After;
      OthersLeaveAlone(Value(), steps, e);
      Others(steps);
    }
  }
}
