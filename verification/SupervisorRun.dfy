/** What every run of the supervisor keeps, and what it can lose. */
module SupervisorRun {
  import opened Base
  import opened SupervisorModel

  /** One running instance to a name, and in one set only. */
  lemma OneRunning(s: Sup, i: Inst, j: Inst)
    requires Inv(s) && i < |s.workers| && j < |s.workers|
    requires s.workers[i].phase == Running && s.workers[j].phase == Running && s.workers[i].name == s.workers[j].name
    ensures i == j
    ensures Tracked(s, i, s.live) != Tracked(s, i, s.retired)
  {
    assert Tracked(s, i, s.live) || Tracked(s, i, s.retired);
    assert Tracked(s, j, s.live) || Tracked(s, j, s.retired);
  }

  lemma RetainKeeps(s: Sup, names: set<Name>)
    requires Held(s)
    ensures Held(Retain(s, names))
    ensures forall i: Inst :: i < |s.workers| && (Tracked(s, i, s.live) || Tracked(s, i, s.retired)) ==>
      Tracked(Retain(s, names), i, Retain(s, names).live) || Tracked(Retain(s, names), i, Retain(s, names).retired)
    ensures names == {} ==> Retain(s, names).live == map[]
  {
    hide Leaves;
    var t := Retain(s, names);
    forall i: Inst | i < |s.workers| && (Tracked(s, i, s.live) || Tracked(s, i, s.retired))
      ensures Tracked(t, i, t.live) || Tracked(t, i, t.retired)
    {
      var name := s.workers[i].name;
      if name in s.live {
        assert name in t.live || name in Retirees(s, names);
      }
    }
    if names == {} {
      forall name | name in s.live ensures Leaves(s, names, name) {
        assert Leaves(s, names, name) by { LeavesEmpty(s, name); }
      }
      assert t.live == map[];
    }
  }

  lemma LeavesEmpty(s: Sup, name: Name)
    requires name in s.live
    ensures Leaves(s, {}, name)
  {
  }

  lemma MovedKeeps(s: Sup, i: Inst, phase: Phase, lost: set<Inst>)
    requires Inv(s) && AllButLost(s, lost) && i < |s.workers| && phase != Running && s.workers[i].phase != Complete
    ensures Inv(Moved(s, i, phase)) && AllButLost(Moved(s, i, phase), lost)
  {
    var t := Moved(s, i, phase);
    forall j: Inst | j < |t.workers| && t.workers[j].phase == Running ensures Tracked(t, j, t.live) || Tracked(t, j, t.retired) {
      assert Tracked(s, j, s.live) || Tracked(s, j, s.retired);
    }
    forall j: Inst | j < |t.workers| && j !in lost && t.workers[j].phase != Complete
      ensures Tracked(t, j, t.live) || Tracked(t, j, t.retired)
    {
      assert Tracked(s, j, s.live) || Tracked(s, j, s.retired);
    }
  }

  /** Letting go of a completion that has arrived. */
  lemma LetGo(s: Sup, t: Sup, lost: set<Inst>)
    requires Inv(s) && AllButLost(s, lost) && t.workers == s.workers
    requires forall name :: name in t.live ==> name in s.live && t.live[name] == s.live[name]
    requires forall name :: name in t.retired ==> name in s.retired && t.retired[name] == s.retired[name]
    requires forall name :: name in s.live && name !in t.live ==> HeldDone(s, s.live, name)
    requires forall name :: name in s.retired && name !in t.retired ==> HeldDone(s, s.retired, name)
    requires t.stage == s.stage || !(t.stage == Joining || t.stage == Returned)
    ensures Inv(t) && AllButLost(t, lost)
  {
    forall i: Inst | i < |t.workers| && t.workers[i].phase != Complete && (Tracked(s, i, s.live) || Tracked(s, i, s.retired))
      ensures Tracked(t, i, t.live) || Tracked(t, i, t.retired)
    {
    }
    assert s.stage == Joining || s.stage == Returned ==> t.live == map[] || t.stage != s.stage by {
      assert s.live == map[] ==> t.live == map[];
    }
    assert s.stage == Returned ==> t.retired == map[] || t.stage != s.stage by {
      assert s.retired == map[] ==> t.retired == map[];
    }
  }

  lemma SpawnedKeeps(s: Sup, lost: set<Inst>)
    requires Inv(s) && AllButLost(s, lost) && s.stage.Spawning? && s.stage.want != []
    ensures Inv(SpawnNext(s)) && AllButLost(SpawnNext(s), lost + LostBy(s, SpawnStep))
  {
    var t, name := SpawnNext(s), s.stage.want[0];
    if Has(s, name) || name in s.retired {
      LetGo(s, t, lost);
      assert lost + LostBy(s, SpawnStep) == lost;
    } else {
      forall i: Inst | i < |t.workers| && (t.workers[i].phase == Running
                       || (i !in lost + LostBy(s, SpawnStep) && t.workers[i].phase != Complete))
        ensures Tracked(t, i, t.live) || Tracked(t, i, t.retired)
      {
        if i < |s.workers| {
          assert Tracked(s, i, s.live) || Tracked(s, i, s.retired);
          assert t.workers[i] == s.workers[i];
        }
      }
    }
  }

  lemma RetainStepKeeps(s: Sup, names: set<Name>, stage: Stage, lost: set<Inst>)
    requires Inv(s) && AllButLost(s, lost)
    requires stage.Sweeping? || (stage == Joining && names == {})
    ensures Inv(Retain(s, names).(stage := stage)) && AllButLost(Retain(s, names).(stage := stage), lost)
  {
    hide Retain;
    RetainKeeps(s, names);
    var r := Retain(s, names);
    RetainWorkers(s, names);
    var t := r.(stage := stage);
    forall i: Inst | i < |s.workers| && (Tracked(s, i, s.live) || Tracked(s, i, s.retired))
      ensures Tracked(t, i, t.live) || Tracked(t, i, t.retired)
    {
      assert Tracked(r, i, r.live) || Tracked(r, i, r.retired);
    }
  }

  lemma RetainWorkers(s: Sup, names: set<Name>)
    ensures Retain(s, names).workers == s.workers
  {
  }

  lemma StepKeeps(s: Sup, step: Step, lost: set<Inst>)
    requires Inv(s) && AllButLost(s, lost)
    ensures Inv(Next(s, step)) && AllButLost(Next(s, step), lost + LostBy(s, step))
  {
    hide Inv, AllButLost, Retain, SpawnNext, HeldDone, Moved;
    match step {
      case Exit(i) =>
        if i < |s.workers| && s.workers[i].phase == Running {
          MovedKeeps(s, i, Closing, lost);
        }
      case Finish(i) =>
        if i < |s.workers| && s.workers[i].phase == Closing {
          MovedKeeps(s, i, Complete, lost);
        }
      case RetainStep =>
        if s.stage.Retiring? {
          RetainStepKeeps(s, NamesOf(s.stage.want), Sweeping(s.stage.want), lost);
        }
      case EndStep =>
        if s.stage == Ending {
          RetainStepKeeps(s, {}, Joining, lost);
        }
      case SpawnStep =>
        if s.stage.Spawning? && s.stage.want != [] {
          SpawnedKeeps(s, lost);
        } else {
          LetGo(s, Next(s, step), lost);
        }
      case Return =>
        if s.stage == Joining && s.retired == map[] {
          ReturnKeeps(s, lost);
        }
      case _ =>
        LetGo(s, Next(s, step), lost);
    }
    NothingLost(s, step, lost);
  }

  lemma NothingLost(s: Sup, step: Step, lost: set<Inst>)
    ensures step != SpawnStep ==> lost + LostBy(s, step) == lost
    ensures step == SpawnStep && !(s.stage.Spawning? && s.stage.want != []) ==> lost + LostBy(s, step) == lost
  {
  }

  lemma ReturnKeeps(s: Sup, lost: set<Inst>)
    requires Inv(s) && AllButLost(s, lost) && s.stage == Joining && s.retired == map[]
    ensures Inv(s.(stage := Returned)) && AllButLost(s.(stage := Returned), lost)
  {
    var t := s.(stage := Returned);
    forall i: Inst | i < |s.workers| ensures Tracked(t, i, t.live) == Tracked(s, i, s.live) && Tracked(t, i, t.retired) == Tracked(s, i, s.retired) {
    }
  }

  /** In every run each running instance's completion is held, in exactly one
      of the two sets, under a name no other running instance has; and every
      completion neither arrived nor held was lost to a spawn. */
  lemma {:induction false} RunKeeps(steps: seq<Step>)
    ensures Inv(After(IDLE, steps)) && AllButLost(After(IDLE, steps), Lost(IDLE, steps))
    decreases |steps|
  {
    hide Inv, AllButLost, Next, LostBy;
    if steps == [] {
      IdleKeeps();
    } else {
      var front := steps[..|steps| - 1];
      RunKeeps(front);
      StepKeeps(After(IDLE, front), steps[|steps| - 1], Lost(IDLE, front));
    }
  }

  lemma IdleKeeps()
    ensures Inv(IDLE) && AllButLost(IDLE, {})
  {
  }

  /** `supervise` returns only when no instance it ever spawned still runs. All
      of them have completed, save those whose completion a spawn dropped. */
  lemma ReturnsLast(steps: seq<Step>)
    requires After(IDLE, steps).stage == Returned
    ensures var s := After(IDLE, steps);
      forall i: Inst :: i < |s.workers| ==>
        s.workers[i].phase != Running && (s.workers[i].phase == Complete || i in Lost(IDLE, steps))
  {
    hide After, Lost;
    RunKeeps(steps);
    var s := After(IDLE, steps);
    forall i: Inst | i < |s.workers| ensures s.workers[i].phase != Running && (s.workers[i].phase == Complete || i in Lost(IDLE, steps)) {
      assert !Tracked(s, i, s.live) && !Tracked(s, i, s.retired);
    }
  }

  // ---- a completion lost --------------------------------------------------------------------

  /** The instance closes after the sweep of closed ones and before the spawn
      looks; the spawn takes its place in the set. */
  const CLOSED_BETWEEN: seq<Step> := [
    Woken, Found(["w"]), RetainStep, Sweep({}), SpawnStep, SpawnStep,
    Woken, Found(["w"]), RetainStep, Sweep({}), Exit(0), SpawnStep, SpawnStep,
    Exit(1), Finish(1), HungUp, EndStep, Joined("w"), Return]

  lemma RunOf(steps: seq<Step>, k: nat)
    requires k < |steps|
    ensures After(IDLE, steps[..k + 1]) == Next(After(IDLE, steps[..k]), steps[k])
  {
    assert steps[..k + 1][..k] == steps[..k];
  }

  const ONE: seq<Worker> := [Worker("w", Running)]
  const SHUT: seq<Worker> := [Worker("w", Closing)]
  const HELD: map<Name, Inst> := map["w" := 0]

  lemma EarlyFirst()
    ensures After(IDLE, CLOSED_BETWEEN[..6]) == Sup(ONE, HELD, map[], Waiting)
  {
    hide After;
    var c := CLOSED_BETWEEN;
    StartsIdle(c[..0]);
    RunOf(c, 0); RunOf(c, 1);
    assert After(IDLE, c[..2]) == Sup([], map[], map[], Retiring(["w"]));
    RunOf(c, 2);
    assert After(IDLE, c[..3]) == Sup([], map[], map[], Sweeping(["w"]));
    RunOf(c, 3); RunOf(c, 4); RunOf(c, 5);
  }

  lemma EarlyFound()
    ensures After(IDLE, CLOSED_BETWEEN[..8]) == Sup(ONE, HELD, map[], Retiring(["w"]))
  {
    hide After;
    EarlyFirst();
    RunOf(CLOSED_BETWEEN, 6); RunOf(CLOSED_BETWEEN, 7);
  }

  lemma EarlyKept()
    ensures After(IDLE, CLOSED_BETWEEN[..9]) == Sup(ONE, HELD, map[], Sweeping(["w"]))
  {
    hide After;
    EarlyFound();
    RunOf(CLOSED_BETWEEN, 8);
    assert NamesOf(["w"]) == {"w"};
  }

  lemma EarlySecond()
    ensures After(IDLE, CLOSED_BETWEEN[..11]) == Sup(SHUT, HELD, map[], Spawning(["w"]))
  {
    hide After;
    EarlyKept();
    RunOf(CLOSED_BETWEEN, 9); RunOf(CLOSED_BETWEEN, 10);
  }

  lemma EarlyThird()
    ensures After(IDLE, CLOSED_BETWEEN[..15])
         == Sup(BOTH, map["w" := 1], map[], Waiting)
  {
    hide After;
    var c := CLOSED_BETWEEN;
    EarlySecond();
    RunOf(c, 11); RunOf(c, 12);
    assert After(IDLE, c[..13]) == Sup([Worker("w", Closing), Worker("w", Running)], map["w" := 1], map[], Waiting);
    RunOf(c, 13); RunOf(c, 14);
  }

  const BOTH: seq<Worker> := [Worker("w", Closing), Worker("w", Complete)]

  lemma EarlyFourth()
    ensures After(IDLE, CLOSED_BETWEEN[..17]) == Sup(BOTH, map[], map["w" := 1], Joining)
  {
    hide After;
    EarlyThird();
    RunOf(CLOSED_BETWEEN, 15);
    assert After(IDLE, CLOSED_BETWEEN[..16]) == Sup(BOTH, map["w" := 1], map[], Ending);
    RunOf(CLOSED_BETWEEN, 16);
  }

  /** So `supervise` can return with a completion it spawned for not yet sent. */
  lemma ReturnsEarly()
    ensures var s := After(IDLE, CLOSED_BETWEEN);
      s.stage == Returned && |s.workers| == 2 && s.workers[0].phase == Closing
  {
    hide After;
    EarlyFourth();
    RunOf(CLOSED_BETWEEN, 17);
    assert After(IDLE, CLOSED_BETWEEN[..18]) == Sup(BOTH, map[], map[], Joining);
    RunOf(CLOSED_BETWEEN, 18);
    assert CLOSED_BETWEEN[..19] == CLOSED_BETWEEN;
  }

  lemma StartsIdle(steps: seq<Step>)
    requires steps == []
    ensures After(IDLE, steps) == IDLE
  {
  }

  // ---- whenever one is lost ------------------------------------------------------------------

  /** The same but for how far one instance is, whose completion nobody holds. */
  ghost predicate Twin(s: Sup, t: Sup, i: Inst) {
    && |s.workers| == |t.workers| && i < |s.workers| && s.live == t.live && s.retired == t.retired && s.stage == t.stage
    && t.workers[i].phase == Closing && s.workers[i].phase != Running
    && (forall j: Inst :: j < |s.workers| ==> s.workers[j].name == t.workers[j].name)
    && (forall j: Inst :: j < |s.workers| && j != i ==> s.workers[j] == t.workers[j])
    && (forall name :: name in s.live ==> s.live[name] != i)
    && (forall name :: name in s.retired ==> s.retired[name] != i)
  }

  lemma TwinHeld(s: Sup, t: Sup, i: Inst)
    requires Twin(s, t, i)
    ensures forall name :: Has(s, name) == Has(t, name)
    ensures forall names, name :: Leaves(s, names, name) == Leaves(t, names, name)
    ensures forall name :: HeldDone(s, s.live, name) == HeldDone(t, t.live, name)
    ensures forall name :: HeldDone(s, s.retired, name) == HeldDone(t, t.retired, name)
  {
  }

  lemma TwinStep(s: Sup, t: Sup, i: Inst, step: Step)
    requires Twin(s, t, i) && step != Finish(i)
    ensures Twin(Next(s, step), Next(t, step), i)
  {
    hide Twin, Retain, SpawnNext;
    match step {
      case SpawnStep =>
        if s.stage.Spawning? && s.stage.want != [] {
          TwinSpawns(s, t, i);
        } else {
          TwinOther(s, t, i, step);
        }
      case RetainStep => TwinRetires(s, t, i, step, if s.stage.Retiring? then NamesOf(s.stage.want) else {});
      case EndStep => TwinRetires(s, t, i, step, {});
      case Exit(_) => TwinMoves(s, t, i, step);
      case Finish(_) => TwinMoves(s, t, i, step);
      case _ => TwinOther(s, t, i, step);
    }
  }

  lemma TwinSpawns(s: Sup, t: Sup, i: Inst)
    requires Twin(s, t, i) && s.stage.Spawning? && s.stage.want != []
    ensures Twin(Next(s, SpawnStep), Next(t, SpawnStep), i)
  {
    hide SpawnNext;
    TwinSpawn(s, t, i);
  }

  lemma TwinMoves(s: Sup, t: Sup, i: Inst, step: Step)
    requires Twin(s, t, i) && step != Finish(i) && (step.Exit? || step.Finish?)
    ensures Twin(Next(s, step), Next(t, step), i)
  {
  }

  lemma TwinRetires(s: Sup, t: Sup, i: Inst, step: Step, names: set<Name>)
    requires Twin(s, t, i)
    requires (step == RetainStep && names == if s.stage.Retiring? then NamesOf(s.stage.want) else {}) || (step == EndStep && names == {})
    ensures Twin(Next(s, step), Next(t, step), i)
  {
    hide Retain;
    TwinRetain(s, t, i, names);
  }

  lemma TwinOther(s: Sup, t: Sup, i: Inst, step: Step)
    requires Twin(s, t, i) && !step.Exit? && !step.Finish? && step != RetainStep && step != EndStep
    requires step == SpawnStep ==> !s.stage.Spawning? || s.stage.want == []
    ensures Twin(Next(s, step), Next(t, step), i)
  {
    hide Has, Leaves, HeldDone, Retain, SpawnNext;
    TwinHeld(s, t, i);
    assert step.Sweep? ==>
      (set name | name in s.retired && name in step.gone && HeldDone(s, s.retired, name))
      == (set name | name in t.retired && name in step.gone && HeldDone(t, t.retired, name));
  }

  lemma TwinSpawn(s: Sup, t: Sup, i: Inst)
    requires Twin(s, t, i) && s.stage.Spawning? && s.stage.want != []
    ensures Twin(SpawnNext(s), SpawnNext(t), i)
  {
    hide Has;
    TwinHeld(s, t, i);
  }

  lemma TwinRetain(s: Sup, t: Sup, i: Inst, names: set<Name>)
    requires Twin(s, t, i)
    ensures Retain(s, names).live == Retain(t, names).live && Retain(s, names).retired == Retain(t, names).retired
    ensures Twin(Retain(s, names), Retain(t, names), i)
  {
    TwinHeld(s, t, i);
    hide Leaves;
    assert Retained(s, names) == Retained(t, names);
    assert Retirees(s, names) == Retirees(t, names);
  }

  /** The same steps without this instance's last. */
  function Without(steps: seq<Step>, i: Inst): seq<Step> {
    if steps == [] then []
    else
      var last := steps[|steps| - 1];
      Without(steps[..|steps| - 1], i) + if last == Finish(i) then [] else [last]
  }

  lemma {:induction false} TwinRun(s: Sup, t: Sup, i: Inst, steps: seq<Step>)
    requires Twin(s, t, i)
    ensures Twin(After(s, steps), After(t, Without(steps, i)), i)
    decreases |steps|
  {
    hide Twin, Next;
    if steps != [] {
      var front, last := steps[..|steps| - 1], steps[|steps| - 1];
      TwinRun(s, t, i, front);
      var rest := Without(front, i);
      if last == Finish(i) {
        TwinFinishes(After(s, front), After(t, rest), i);
        assert rest + [] == rest;
      } else {
        TwinStep(After(s, front), After(t, rest), i, last);
        assert (rest + [last])[..|rest|] == rest;
      }
    }
  }

  lemma TwinFinishes(s: Sup, t: Sup, i: Inst)
    requires Twin(s, t, i)
    ensures Twin(Next(s, Finish(i)), t, i)
  {
  }

  /** Only a spawn that drops a completion lets `supervise` return early, and
      every such spawn does: any run that returns after it also returns with
      that instance's completion still to come. */
  lemma LostMayBeLate(s: Sup, i: Inst, rest: seq<Step>)
    requires Inv(s) && i in LostBy(s, SpawnStep) && After(Next(s, SpawnStep), rest).stage == Returned
    ensures var late := After(Next(s, SpawnStep), Without(rest, i));
      late.stage == Returned && i < |late.workers| && late.workers[i].phase == Closing
  {
    hide Next, After;
    SpawnLoses(s, i);
    TwinRun(Next(s, SpawnStep), Next(s, SpawnStep), i, rest);
  }

  lemma SpawnLoses(s: Sup, i: Inst)
    requires Inv(s) && i in LostBy(s, SpawnStep)
    ensures Twin(Next(s, SpawnStep), Next(s, SpawnStep), i)
  {
  }
}
