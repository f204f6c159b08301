/** `supervise` as the code runs it, with instances coming and going wherever
    it waits or lets go of the lock. */
module Supervisor {
  import opened Base
  import opened SupervisorModel
  import opened SupervisorRun
  import opened SupervisorLoop

  lemma KeptAndLeaving(s: Sup, names: set<Name>, kept: map<Name, Inst>, leaving: map<Name, Inst>)
    requires kept == map name | name in s.live && name in names && s.live[name] < |s.workers| && s.workers[s.live[name]].phase == Running :: s.live[name]
    requires leaving == map name | name in s.live && name !in kept :: s.live[name]
    ensures kept == Retained(s, names) && leaving == Retirees(s, names)
  {
  }

  /** Joining takes nothing but completions, as they come. */
  predicate Joins(steps: seq<Step>) {
    forall k :: 0 <= k < |steps| ==> Instances(steps[k]) || steps[k].Joined?
  }

  /** From where everybody was let go, joins and nothing else; then the
      return, or else an instance is held that has nothing left to do. */
  ghost predicate EndsFrom(from: Go, to: Go, returned: bool) {
    var n := |to.trace| - if returned then 1 else 0;
    && |from.trace| <= n && from.trace == to.trace[..|from.trace|] && Joins(to.trace[|from.trace|..n])
    && (if returned then to.trace[n] == Return && to.s.stage == Returned
        else to.s.stage == Joining && to.s.retired != map[] && to.script == [])
  }

  class Supervisor {
    var workers: seq<Worker>
    var live: map<Name, Inst>
    var retired: map<Name, Inst>
    ghost var stage: Stage
    /** What instances will do, each list while the supervisor waits once. */
    var script: seq<seq<Step>>
    /** Everything that has happened. */
    ghost var trace: seq<Step>

    ghost function Value(): Go
      reads this
    {
      Go(Sup(workers, live, retired, stage), script, trace)
    }

    constructor (script: seq<seq<Step>>)
      ensures Value() == Go(IDLE, script, [])
    {
      workers, live, retired, stage, this.script, trace := [], map[], map[], Waiting, script, [];
    }

    method Meanwhile()
      requires Scripted(script)
      modifies this
      ensures Value() == Waited(old(Value())) && Scripted(script)
      ensures live == old(live) && retired == old(retired) && stage == old(stage)
      ensures script == if old(script) == [] then [] else old(script)[1..]
    {
      hide After;
      if script == [] {
        return;
      }
      var steps := script[0];
      ghost var s := Value().s;
      assert ByInstances(steps);
      NoSteps(s);
      script := script[1..];
      for k := 0 to |steps|
        invariant live == old(live) && retired == old(retired) && stage == old(stage) && script == old(script)[1..]
        invariant Value().s == After(s, steps[..k]) && trace == old(trace) + steps[..k]
      {
        MoreSteps(s, steps, k);
        match steps[k] {
          case Exit(i) =>
            if i < |workers| && workers[i].phase == Running {
              workers := workers[i := workers[i].(phase := Closing)];
            }
          case Finish(i) =>
            if i < |workers| && workers[i].phase == Closing {
              workers := workers[i := workers[i].(phase := Complete)];
            }
        }
        trace := trace + [steps[k]];
      }
      assert steps[..|steps|] == steps;
    }

    method Completed(i: Inst) returns (yes: bool)
      ensures yes == (PhaseOf(Value().s, i) == Complete)
    {
      yes := i >= |workers| || workers[i].phase == Complete;
    }

    method HasRunning(name: Name) returns (yes: bool)
      ensures yes == Has(Value().s, name)
    {
      yes := name in live && live[name] < |workers| && workers[live[name]].phase == Running;
    }

    /** The wait: a request, or a completion that has arrived; otherwise nothing. */
    method Wait(wake: Wake) returns (woken: bool)
      requires stage == Waiting
      modifies this
      ensures woken == Wakes(old(Value().s), wake)
      ensures Value() == if woken then Took(old(Value()), WakeStep(wake)) else old(Value())
      ensures stage == if !woken then Waiting else if wake == Gone then Ending else Discovering
    {
      woken := true;
      match wake {
        case Request => stage, trace := Discovering, trace + [Woken];
        case Gone => stage, trace := Ending, trace + [HungUp];
        case LiveFinished(name) =>
          if name in live {
            woken := Completed(live[name]);
            if woken {
              live := live - {name};
              stage, trace := Discovering, trace + [LiveDone(name)];
            }
          } else {
            woken := false;
          }
        case RetiredFinished(name) =>
          if name in retired {
            woken := Completed(retired[name]);
            if woken {
              retired := retired - {name};
              stage, trace := Discovering, trace + [RetiredDone(name)];
            }
          } else {
            woken := false;
          }
      }
    }

    /** Requests retirement for everyone outside `names`, and for those who have
        closed already; their completions go beside. */
    method RetainIn(names: set<Name>)
      requires stage.Retiring? || stage == Ending
      requires names == if stage.Retiring? then NamesOf(stage.want) else {}
      modifies this
      ensures Value() == Took(old(Value()), if old(stage).Retiring? then RetainStep else EndStep)
      ensures stage == if old(stage).Retiring? then Sweeping(old(stage).want) else Joining
    {
      hide Retained, Retirees;
      var kept := map name | name in live && name in names && live[name] < |workers| && workers[live[name]].phase == Running :: live[name];
      var leaving := map name | name in live && name !in kept :: live[name];
      KeptAndLeaving(Value().s, names, kept, leaving);
      live, retired := kept, retired + leaving;
      ghost var step := if stage.Retiring? then RetainStep else EndStep;
      stage, trace := if stage.Retiring? then Sweeping(stage.want) else Joining, trace + [step];
    }

    /** Lets go of the completions met that have arrived. */
    method SweepRetired(swept: set<Name>)
      requires stage.Sweeping?
      modifies this
      ensures Value() == Took(old(Value()), Sweep(swept)) && stage == Spawning(old(stage).want)
    {
      var s := retired;
      ghost var was := Value().s;
      retired := retired - (set name | name in s && name in swept && (s[name] >= |workers| || workers[s[name]].phase == Complete));
      assert retired == s - (set name | name in s && name in swept && HeldDone(was, s, name));
      stage, trace := Spawning(stage.want), trace + [Sweep(swept)];
    }

    /** Spawns under a name nobody runs or is still leaving. */
    method SpawnUnlessHeld(name: Name)
      requires stage.Spawning? && stage.want != [] && stage.want[0] == name
      modifies this
      ensures Value() == Took(old(Value()), SpawnStep) && stage == Spawning(old(stage).want[1..])
    {
      var has := HasRunning(name);
      if !(has || name in retired) {
        live := live[name := |workers|];
        workers := workers + [Worker(name, Running)];
      }
      stage, trace := Spawning(stage.want[1..]), trace + [SpawnStep];
    }

    /** Retires everybody not wanted, and sweeps. */
    method ClearOut(want: seq<Name>, swept: set<Name>)
      requires Scripted(script) && stage == Discovering
      modifies this
      ensures Value() == Swept(old(Value()), want, swept) && Scripted(script) && stage == Spawning(want)
    {
      hide After, Retain, SpawnNext, HeldDone;
      ghost var s := Value().s;
      stage, trace := Retiring(want), trace + [Found(want)];
      assert Value().s == Next(s, Found(want));
      hide Next, Waited;
      Meanwhile();
      RetainIn(NamesOf(want));
      Meanwhile();
      SweepRetired(swept);
    }

    /** Looks at one wanted name after another. */
    method LookAll(want: seq<Name>)
      requires Scripted(script) && stage == Spawning(want)
      modifies this
      ensures Value() == Looked(old(Value()), |want|) && Scripted(script) && stage == Spawning([])
    {
      hide Next, Waited, After;
      assert want[0..] == want;
      for k := 0 to |want|
        invariant Scripted(script) && stage == Spawning(want[k..]) && Value() == Looked(old(Value()), k)
      {
        Meanwhile();
        assert want[k..][0] == want[k] && want[k..][1..] == want[k + 1..];
        SpawnUnlessHeld(want[k]);
      }
    }

    /** One discovery, and what it retires and spawns; whether to go on. */
    method Discover(discovery: Discovery) returns (on: bool)
      requires Scripted(script) && stage == Discovering
      modifies this
      ensures Value() == Discovered(old(Value()), discovery) && Scripted(script)
      ensures on == (discovery != Shut) && stage == if on then Waiting else Ending
    {
      hide After, Swept, Looked;
      match discovery {
        case Shut =>
          stage, trace := Ending, trace + [ClosedMeanwhile];
          return false;
        case Failed =>
          stage, trace := Waiting, trace + [NotFound];
          return true;
        case Workers(want, swept) =>
          ClearOut(want, swept);
          LookAll(want);
          stage, trace := Waiting, trace + [SpawnStep];
          return true;
      }
    }

    method LetGo(name: Name)
      requires Traced(Value()) && stage == Joining && name in retired && PhaseOf(Value().s, retired[name]) == Complete
      modifies this
      ensures Traced(Value()) && Value() == Took(old(Value()), Joined(name)) && stage == Joining && script == old(script)
    {
      hide Traced;
      TookTraced(Value(), Joined(name));
      retired := retired - {name};
      trace := trace + [Joined(name)];
    }

    /** Waits for every completion still held; says whether it outlived them. */
    method JoinAll() returns (joined: bool)
      requires Traced(Value()) && stage == Joining
      modifies this
      ensures Traced(Value()) && EndsFrom(old(Value()), Value(), joined) && joined == (stage == Returned)
    {
      hide After, Traced, HeldDone;
      while retired != map[] && script != []
        invariant Traced(Value()) && stage == Joining && old(trace) <= trace && Joins(trace[|old(trace)|..])
        decreases |script|
      {
        ghost var was, steps := trace, script[0];
        TracedScript(Value());
        assert ByInstances(steps);
        WaitedTraced(Value());
        Meanwhile();
        assert trace[|old(trace)|..] == was[|old(trace)|..] + steps;
        var name :| name in retired;
        var done := Completed(retired[name]);
        if done {
          LetGo(name);
          assert trace[|old(trace)|..] == was[|old(trace)|..] + steps + [Joined(name)];
        }
      }
      if retired != map[] {
        return false;
      }
      TookTraced(Value(), Return);
      stage, trace := Returned, trace + [Return];
      return true;
    }

    /** Takes the turns; once told to end, lets go of everybody and joins them.
        When it returns, every instance it ever spawned has stopped running, and
        all have completed save those a spawn dropped the completion of. It does
        not return before it is told to end, nor while it holds an instance that
        never completes. */
    method Supervise(turns: seq<Turn>) returns (returned: bool)
      requires Scripted(script) && Value() == Go(IDLE, script, [])
      modifies this
      ensures var turned := Turns(old(Value()), turns);
        if turned.s.stage != Ending then Value() == turned && !returned
        else EndsFrom(Took(Waited(turned), EndStep), Value(), returned)
      ensures Traced(Value())
      ensures returned ==> forall i: Inst :: i < |workers| ==>
        workers[i].phase != Running && (workers[i].phase == Complete || i in Lost(IDLE, trace))
    {
      hide After, Lost, Next, Discovered, Wakes;
      ghost var g := Value();
      var k, on := 0, true;
      NoSteps(IDLE);
      assert turns[..0] == [];
      while k < |turns| && on
        invariant k <= |turns| && Scripted(script) && stage == if on then Waiting else Ending
        invariant Value() == Turns(g, turns[..k])
      {
        NextTurn(g, turns, k);
        Meanwhile();
        var woken := Wait(turns[k].wake);
        if woken {
          Meanwhile();
          if turns[k].wake == Gone {
            on := false;
          } else {
            on := Discover(turns[k].discovery);
          }
        }
        k := k + 1;
      }
      TurnsKeep(g, turns[..k]);
      TurnsOver(g, turns, k);
      if on {
        return false;
      }
      WaitedTraced(Value());
      Meanwhile();
      TookTraced(Value(), EndStep);
      RetainIn({});
      returned := JoinAll();
      if returned {
        ReturnsLast(trace);
      }
    }
  }
}
