/** What `supervise` does with the turns it gets, as a function of them: which
    acts it takes, and what each discovery leaves behind. */
module SupervisorLoop {
  import opened Base
  import opened SupervisorModel
  import opened SupervisorRun

  /** What a wait answers with. */
  datatype Wake = Request | Gone | LiveFinished(name: Name) | RetiredFinished(name: Name)

  /** What discovery comes to; and which retired completions the sweep meets. */
  datatype Discovery = Workers(want: seq<Name>, swept: set<Name>) | Failed | Shut

  datatype Turn = Turn(wake: Wake, discovery: Discovery)

  /** The set, what instances have yet to do, and all that has happened. */
  datatype Go = Go(s: Sup, script: seq<seq<Step>>, trace: seq<Step>)

  /** Only instances move while the supervisor does not. */
  predicate ByInstances(steps: seq<Step>) {
    forall k :: 0 <= k < |steps| ==> steps[k].Exit? || steps[k].Finish?
  }

  predicate Scripted(script: seq<seq<Step>>) {
    forall k :: 0 <= k < |script| ==> ByInstances(script[k])
  }

  function Took(g: Go, step: Step): Go {
    Go(Next(g.s, step), g.script, g.trace + [step])
  }

  /** Instances exit and complete. */
  function Waited(g: Go): Go {
    if g.script == [] then g else Go(After(g.s, g.script[0]), g.script[1..], g.trace + g.script[0])
  }

  /** A wait ends with a request, with the last sender gone, or with a completion that has arrived. */
  predicate Wakes(s: Sup, wake: Wake) {
    match wake
    case Request => true
    case Gone => true
    case LiveFinished(name) => HeldDone(s, s.live, name)
    case RetiredFinished(name) => HeldDone(s, s.retired, name)
  }

  function WakeStep(wake: Wake): Step {
    match wake
    case Request => Woken
    case Gone => HungUp
    case LiveFinished(name) => LiveDone(name)
    case RetiredFinished(name) => RetiredDone(name)
  }

  /** Every wanted name looked at, one after another. */
  function Looked(g: Go, n: nat): Go {
    if n == 0 then g else Took(Waited(Looked(g, n - 1)), SpawnStep)
  }

  function Swept(g: Go, want: seq<Name>, swept: set<Name>): Go {
    Took(Waited(Took(Waited(Took(g, Found(want))), RetainStep)), Sweep(swept))
  }

  function Discovered(g: Go, discovery: Discovery): Go {
    match discovery
    case Shut => Took(g, ClosedMeanwhile)
    case Failed => Took(g, NotFound)
    case Workers(want, swept) => Took(Looked(Swept(g, want, swept), |want|), SpawnStep)
  }

  function Turned(g: Go, turn: Turn): Go {
    var w := Waited(g);
    if !Wakes(w.s, turn.wake) then w
    else
      var d := Waited(Took(w, WakeStep(turn.wake)));
      if turn.wake == Gone then d else Discovered(d, turn.discovery)
  }

  /** Turn after turn, until a request channel is found closed. */
  function Turns(g: Go, turns: seq<Turn>): Go
    decreases |turns|
  {
    if turns == [] then g
    else
      var before := Turns(g, turns[..|turns| - 1]);
      if before.s.stage == Ending then before else Turned(before, turns[|turns| - 1])
  }

  lemma NextTurn(g: Go, turns: seq<Turn>, k: nat)
    requires k < |turns| && Turns(g, turns[..k]).s.stage != Ending
    ensures Turns(g, turns[..k + 1]) == Turned(Turns(g, turns[..k]), turns[k])
  {
    hide Turned;
    assert turns[..k + 1][..k] == turns[..k];
  }

  lemma {:induction false} TurnsOver(g: Go, turns: seq<Turn>, k: nat)
    requires k == |turns| || (k < |turns| && Turns(g, turns[..k]).s.stage == Ending)
    ensures Turns(g, turns) == Turns(g, turns[..k])
    decreases |turns| - k
  {
    hide Turned;
    if k == |turns| {
      assert turns[..k] == turns;
    } else {
      assert turns[..k + 1][..k] == turns[..k];
      TurnsOver(g, turns, k + 1);
    }
  }

  // ---- the acts of a run ---------------------------------------------------------------

  ghost predicate Traced(g: Go) {
    g.s == After(IDLE, g.trace) && Scripted(g.script)
  }

  lemma {:induction false} AfterMore(s: Sup, a: seq<Step>, b: seq<Step>)
    ensures After(s, a + b) == After(After(s, a), b)
    decreases |b|
  {
    if b == [] {
      assert a + b == a;
    } else {
      assert (a + b)[..|a + b| - 1] == a + b[..|b| - 1];
      AfterMore(s, a, b[..|b| - 1]);
    }
  }

  lemma TookTraced(g: Go, step: Step)
    requires Traced(g)
    ensures Traced(Took(g, step))
  {
    assert (g.trace + [step])[..|g.trace|] == g.trace;
  }

  lemma TracedScript(g: Go)
    requires Traced(g)
    ensures Scripted(g.script)
  {
  }

  lemma WaitedTraced(g: Go)
    requires Traced(g)
    ensures Traced(Waited(g))
  {
    hide After;
    if g.script != [] {
      AfterMore(IDLE, g.trace, g.script[0]);
    }
  }

  /** Instances only ever go on: from running to closing to complete. */
  ghost predicate Older(s: Sup, t: Sup) {
    && |s.workers| <= |t.workers|
    && (forall i: Inst :: i < |s.workers| ==> t.workers[i].name == s.workers[i].name && On(s.workers[i].phase, t.workers[i].phase))
  }

  predicate On(p: Phase, q: Phase) {
    p == Running || q == Complete || p == q
  }

  lemma StepOlder(s: Sup, step: Step)
    ensures Older(s, Next(s, step))
  {
    hide Has, HeldDone;
  }

  lemma OlderOn(s: Sup, t: Sup, u: Sup)
    requires Older(s, t) && Older(t, u)
    ensures Older(s, u)
  {
    forall i: Inst | i < |s.workers| ensures u.workers[i].name == s.workers[i].name && On(s.workers[i].phase, u.workers[i].phase) {
      assert t.workers[i].name == s.workers[i].name;
    }
  }

  lemma {:induction false} InstancesMove(s: Sup, steps: seq<Step>)
    requires ByInstances(steps)
    ensures var t := After(s, steps);
      Older(s, t) && |t.workers| == |s.workers| && t.live == s.live && t.retired == s.retired && t.stage == s.stage
    decreases |steps|
  {
    hide Next;
    if steps == [] {
      NoSteps(s);
    } else {
      var front, last := steps[..|steps| - 1], steps[|steps| - 1];
      InstancesMove(s, front);
      assert last.Exit? || last.Finish?;
      StepOlder(After(s, front), last);
      OneInstance(After(s, front), last);
      OlderOn(s, After(s, front), After(s, steps));
    }
  }

  lemma NoSteps(s: Sup)
    ensures After(s, []) == s && Older(s, s)
  {
  }

  lemma MoreSteps(s: Sup, steps: seq<Step>, k: nat)
    requires k < |steps|
    ensures After(s, steps[..k + 1]) == Next(After(s, steps[..k]), steps[k]) && steps[..k + 1] == steps[..k] + [steps[k]]
  {
    assert steps[..k + 1][..k] == steps[..k];
  }

  lemma OneInstance(s: Sup, step: Step)
    requires step.Exit? || step.Finish?
    ensures var t := Next(s, step); |t.workers| == |s.workers| && t.live == s.live && t.retired == s.retired && t.stage == s.stage
  {
  }

  lemma WaitedMoves(g: Go)
    requires Traced(g)
    ensures var t := Waited(g);
      && Traced(t) && Older(g.s, t.s) && |t.s.workers| == |g.s.workers|
      && t.s.live == g.s.live && t.s.retired == g.s.retired && t.s.stage == g.s.stage
  {
    hide After, Older;
    WaitedTraced(g);
    NoSteps(g.s);
    if g.script != [] {
      InstancesMove(g.s, g.script[0]);
    }
  }

  // ---- what one discovery leaves -------------------------------------------------------

  /** Of the names in live, those left; and what stays held. */
  ghost predicate Looking(s: Sup, t: Sup, seen: set<Name>) {
    && Older(s, t)
    && (forall name :: name in t.live ==> name in s.live || name in seen)
    && (forall name :: name in seen ==> name in t.live || name in t.retired)
    && t.retired == s.retired
    && (forall name :: name in s.live && (name !in t.live || t.live[name] != s.live[name]) ==> PhaseOf(t, s.live[name]) != Running)
    && (forall i: Inst :: |s.workers| <= i < |t.workers| ==> t.workers[i].name in seen)
  }

  lemma LookingMore(s: Sup, t: Sup, u: Sup, seen: set<Name>)
    requires Looking(s, t, seen) && Older(t, u) && |u.workers| == |t.workers| && u.live == t.live && u.retired == t.retired
    requires Held(s)
    ensures Looking(s, u, seen)
  {
    OlderOn(s, t, u);
    forall name | name in s.live && (name !in u.live || u.live[name] != s.live[name]) ensures PhaseOf(u, s.live[name]) != Running {
      assert On(t.workers[s.live[name]].phase, u.workers[s.live[name]].phase);
    }
  }

  lemma LookingSpawn(s: Sup, t: Sup, seen: set<Name>)
    requires Looking(s, t, seen) && t.stage.Spawning? && t.stage.want != [] && Held(s)
    ensures Looking(s, Next(t, SpawnStep), seen + {t.stage.want[0]})
    ensures Next(t, SpawnStep).stage == Spawning(t.stage.want[1..])
  {
    var u := Next(t, SpawnStep);
    StepOlder(t, SpawnStep);
    OlderOn(s, t, u);
  }

  lemma {:induction false} LookedLooks(g: Go, n: nat)
    requires Traced(g) && g.s.stage.Spawning? && n <= |g.s.stage.want| && Held(g.s)
    ensures var t := Looked(g, n);
      && Traced(t) && t.s.stage == Spawning(g.s.stage.want[n..])
      && Looking(g.s, t.s, NamesOf(g.s.stage.want[..n]))
  {
    hide After, Next, Looking, Older, Held;
    var want := g.s.stage.want;
    if n == 0 {
      NoneLooked(g.s);
      assert want[0..] == want && want[..0] == [];
    } else {
      LookedLooks(g, n - 1);
      var b := Looked(g, n - 1);
      WaitedMoves(b);
      var w := Waited(b);
      LookingMore(g.s, b.s, w.s, NamesOf(want[..n - 1]));
      LookingSpawn(g.s, w.s, NamesOf(want[..n - 1]));
      TookTraced(w, SpawnStep);
      assert want[n - 1..][0] == want[n - 1] && want[n - 1..][1..] == want[n..];
      assert want[..n] == want[..n - 1] + [want[n - 1]];
      assert NamesOf(want[..n]) == NamesOf(want[..n - 1]) + {want[n - 1]};
    }
  }

  lemma NoneLooked(s: Sup)
    ensures Looking(s, s, NamesOf([]))
  {
  }

  /** After a discovery the running set holds wanted names only, and each
      wanted name is in it or still held by an instance on its way out. A
      wanted instance that is still running is the one that ran before; an
      unwanted one is held until it has completed; new ones have wanted names. */
  ghost predicate Provided(s: Sup, t: Sup, want: seq<Name>) {
    && t.stage == Waiting && Older(s, t)
    && (forall name :: name in t.live ==> name in want)
    && (forall name :: name in want ==> name in t.live || name in t.retired)
    && (forall name :: name in s.live && name in want && PhaseOf(t, s.live[name]) == Running ==>
          name in t.live && t.live[name] == s.live[name])
    && (forall name :: name in s.live && name !in want && PhaseOf(t, s.live[name]) != Complete ==>
          name in t.retired && t.retired[name] == s.live[name])
    && (forall name :: name in s.retired && PhaseOf(t, s.retired[name]) != Complete ==>
          name in t.retired && t.retired[name] == s.retired[name])
    && (forall i: Inst :: |s.workers| <= i < |t.workers| ==> t.workers[i].name in want)
  }

  /** Between the sweep and the first look. */
  ghost predicate Cleared(s: Sup, t: Sup, want: seq<Name>) {
    && t.stage == Spawning(want) && Older(s, t) && |t.workers| == |s.workers| && Held(t)
    && (forall name :: name in t.live ==> name in want && name in s.live && t.live[name] == s.live[name])
    && (forall name :: name in s.live && name in want && PhaseOf(t, s.live[name]) == Running ==> name in t.live)
    && (forall name :: name in s.live && name !in want && PhaseOf(t, s.live[name]) != Complete ==>
          name in t.retired && t.retired[name] == s.live[name])
    && (forall name :: name in s.retired && PhaseOf(t, s.retired[name]) != Complete ==>
          name in t.retired && t.retired[name] == s.retired[name])
  }

  ghost predicate LeftOut(s: Sup, t: Sup, want: seq<Name>) {
    && t.stage == Sweeping(want) && Older(s, t) && |t.workers| == |s.workers|
    && (forall name :: name in t.live ==> name in want && name in s.live && t.live[name] == s.live[name])
    && (forall name :: name in s.live && name in want && PhaseOf(t, s.live[name]) == Running ==> name in t.live)
    && (forall name :: name in s.live && name !in want ==> name in t.retired && t.retired[name] == s.live[name])
    && (forall name :: name in s.retired ==> name in t.retired && t.retired[name] == s.retired[name])
  }

  lemma LeavesOut(s: Sup, t: Sup, want: seq<Name>)
    requires Older(s, t) && |t.workers| == |s.workers| && t.live == s.live && t.retired == s.retired && t.stage == Retiring(want)
    requires Held(s)
    ensures LeftOut(s, Next(t, RetainStep), want)
  {
    hide Retain, On, PhaseOf;
    RetainSorts(t, NamesOf(want));
    var u := Next(t, RetainStep);
    SamePhases(t, u);
    forall name | name in s.retired ensures name !in s.live {
    }
  }

  lemma SamePhases(t: Sup, u: Sup)
    requires u.workers == t.workers
    ensures forall i :: PhaseOf(u, i) == PhaseOf(t, i)
  {
  }

  lemma RetainSorts(t: Sup, names: set<Name>)
    ensures var u := Retain(t, names);
      && u.workers == t.workers
      && (forall name :: name in u.live ==> name in names && name in t.live && u.live[name] == t.live[name])
      && (forall name :: name in t.live && name in names && PhaseOf(t, t.live[name]) == Running ==> name in u.live)
      && (forall name :: name in t.live && name !in names ==> name in u.retired && u.retired[name] == t.live[name])
      && (forall name :: name in t.retired && name !in t.live ==> name in u.retired && u.retired[name] == t.retired[name])
  {
    hide PhaseOf;
  }

  lemma StillLeftOut(s: Sup, t: Sup, u: Sup, want: seq<Name>)
    requires LeftOut(s, t, want) && Held(s)
    requires Older(t, u) && |u.workers| == |t.workers| && u.live == t.live && u.retired == t.retired && u.stage == t.stage
    ensures LeftOut(s, u, want)
  {
    OlderOn(s, t, u);
    forall name | name in s.live && name in want && PhaseOf(u, s.live[name]) == Running ensures name in u.live {
      assert On(t.workers[s.live[name]].phase, u.workers[s.live[name]].phase);
    }
  }

  lemma Clears(s: Sup, t: Sup, want: seq<Name>, swept: set<Name>)
    requires LeftOut(s, t, want) && Held(s) && Held(Next(t, Sweep(swept)))
    ensures Cleared(s, Next(t, Sweep(swept)), want)
  {
  }

  lemma Provides(s: Sup, t: Sup, u: Sup, want: seq<Name>)
    requires Cleared(s, t, want) && Looking(t, u, NamesOf(want)) && u.stage == Spawning([]) && Held(s)
    ensures Provided(s, Next(u, SpawnStep), want)
  {
    hide Next, Older, Held;
    var v := Next(u, SpawnStep);
    LooksEnd(u);
    OlderOn(s, t, u);
    OlderOn(s, u, v);
    forall name | name in s.live && name in want && PhaseOf(v, s.live[name]) == Running
      ensures name in v.live && v.live[name] == s.live[name]
    {
      StaysRunning(s, t, u, want, name);
    }
    forall name | name in s.live && name !in want && PhaseOf(v, s.live[name]) != Complete
      ensures name in v.retired && v.retired[name] == s.live[name]
    {
      HeldIn(s, name);
      NotYet(t, u, s.live[name]);
    }
    forall name | name in s.retired && PhaseOf(v, s.retired[name]) != Complete
      ensures name in v.retired && v.retired[name] == s.retired[name]
    {
      HeldIn(s, name);
      NotYet(t, u, s.retired[name]);
    }
  }

  lemma LooksEnd(u: Sup)
    requires u.stage == Spawning([])
    ensures Next(u, SpawnStep) == u.(stage := Waiting) && Older(u, Next(u, SpawnStep))
  {
  }

  lemma HeldIn(s: Sup, name: Name)
    requires Held(s)
    ensures name in s.live ==> s.live[name] < |s.workers|
    ensures name in s.retired ==> s.retired[name] < |s.workers|
  {
  }

  lemma NotYet(t: Sup, u: Sup, i: Inst)
    requires Older(t, u) && PhaseOf(u, i) != Complete && i < |t.workers|
    ensures PhaseOf(t, i) != Complete && (PhaseOf(u, i) == Running ==> PhaseOf(t, i) == Running)
  {
    assert On(t.workers[i].phase, u.workers[i].phase);
  }

  lemma StaysRunning(s: Sup, t: Sup, u: Sup, want: seq<Name>, name: Name)
    requires Cleared(s, t, want) && Looking(t, u, NamesOf(want)) && Held(s)
    requires name in s.live && name in want && PhaseOf(u, s.live[name]) == Running
    ensures name in u.live && u.live[name] == s.live[name]
  {
    hide Older;
    HeldIn(s, name);
    assert |t.workers| == |s.workers|;
    NotYet(t, u, s.live[name]);
  }

  lemma TracedHeld(g: Go)
    requires Traced(g)
    ensures Held(g.s)
  {
    hide After;
    RunKeeps(g.trace);
  }

  lemma SweptClears(g: Go, want: seq<Name>, swept: set<Name>)
    requires Traced(g) && g.s.stage == Discovering
    ensures var t := Swept(g, want, swept); Traced(t) && Cleared(g.s, t.s, want)
  {
    hide After, Next, Older, LeftOut, Cleared, Held;
    var a := Took(g, Found(want));
    TookTraced(g, Found(want));
    FoundOnly(g.s, want);
    var b := Waited(a);
    WaitedMoves(a);
    OlderOn(g.s, a.s, b.s);
    TracedHeld(g);
    LeavesOut(g.s, b.s, want);
    var c := Took(b, RetainStep);
    TookTraced(b, RetainStep);
    var d := Waited(c);
    WaitedMoves(c);
    StillLeftOut(g.s, c.s, d.s, want);
    TookTraced(d, Sweep(swept));
    TracedHeld(Took(d, Sweep(swept)));
    Clears(g.s, d.s, want, swept);
  }

  lemma FoundOnly(s: Sup, want: seq<Name>)
    requires s.stage == Discovering
    ensures Next(s, Found(want)) == s.(stage := Retiring(want)) && Older(s, Next(s, Found(want)))
  {
  }

  lemma DiscoveryProvides(g: Go, want: seq<Name>, swept: set<Name>)
    requires Traced(g) && g.s.stage == Discovering
    ensures var t := Discovered(g, Workers(want, swept)); Traced(t) && Provided(g.s, t.s, want)
  {
    hide After, Next, Looking, Provided, Held, Older, Swept, Looked;
    SweptClears(g, want, swept);
    var b := Swept(g, want, swept);
    LookedLooks(b, |want|);
    var c := Looked(b, |want|);
    assert want[|want|..] == [] && want[..|want|] == want;
    TracedHeld(g);
    Provides(g.s, b.s, c.s, want);
    TookTraced(c, SpawnStep);
  }

  // ---- whole runs ------------------------------------------------------------------------

  lemma WakeMoves(s: Sup, wake: Wake)
    requires s.stage == Waiting && Wakes(s, wake)
    ensures Next(s, WakeStep(wake)).stage == if wake == Gone then Ending else Discovering
  {
    hide HeldDone;
  }

  lemma DiscoveredStage(g: Go, discovery: Discovery)
    requires Traced(g) && g.s.stage == Discovering
    ensures Traced(Discovered(g, discovery)) && Older(g.s, Discovered(g, discovery).s)
    ensures Discovered(g, discovery).s.stage == if discovery == Shut then Ending else Waiting
  {
    hide After, Older, Looked, Swept;
    match discovery {
      case Shut => TookTraced(g, ClosedMeanwhile); StepOlder(g.s, ClosedMeanwhile);
      case Failed => TookTraced(g, NotFound); StepOlder(g.s, NotFound);
      case Workers(want, swept) => DiscoveryProvides(g, want, swept);
    }
  }

  lemma TurnKeeps(g: Go, turn: Turn)
    requires Traced(g) && g.s.stage == Waiting
    ensures var t := Turned(g, turn);
      Traced(t) && Older(g.s, t.s) && (t.s.stage == Waiting || t.s.stage == Ending)
  {
    hide After, Next, Older, Discovered, Wakes;
    var w := Waited(g);
    WaitedMoves(g);
    if Wakes(w.s, turn.wake) {
      var a := Took(w, WakeStep(turn.wake));
      TookTraced(w, WakeStep(turn.wake));
      StepOlder(w.s, WakeStep(turn.wake));
      WakeMoves(w.s, turn.wake);
      var d := Waited(a);
      WaitedMoves(a);
      OlderOn(g.s, w.s, a.s);
      OlderOn(g.s, a.s, d.s);
      if turn.wake != Gone {
        DiscoveredStage(d, turn.discovery);
        OlderOn(g.s, d.s, Discovered(d, turn.discovery).s);
      }
    }
  }

  /** Whatever the turns, no instance ever spawned is forgotten: it is in the
      list, under its name, no less far than before. */
  lemma {:induction false} TurnsKeep(g: Go, turns: seq<Turn>)
    requires Traced(g) && g.s.stage == Waiting
    ensures var t := Turns(g, turns);
      Traced(t) && Older(g.s, t.s) && (t.s.stage == Waiting || t.s.stage == Ending)
    decreases |turns|
  {
    hide After, Older, Turned;
    if turns == [] {
      NoSteps(g.s);
    } else {
      var before := Turns(g, turns[..|turns| - 1]);
      TurnsKeep(g, turns[..|turns| - 1]);
      if before.s.stage != Ending {
        TurnKeeps(before, turns[|turns| - 1]);
        OlderOn(g.s, before.s, Turns(g, turns).s);
      }
    }
  }

  /** Every turn that finds workers provides for them, wherever it comes in a run. */
  lemma TurnProvides(g: Go, turns: seq<Turn>, wake: Wake, want: seq<Name>, swept: set<Name>)
    requires Traced(g) && g.s.stage == Waiting && Turns(g, turns).s.stage == Waiting && wake != Gone
    requires Wakes(Waited(Turns(g, turns)).s, wake)
    ensures var found := Waited(Took(Waited(Turns(g, turns)), WakeStep(wake)));
      Provided(found.s, Turns(g, turns + [Turn(wake, Workers(want, swept))]).s, want)
  {
    hide After, Next, Older, Discovered, Wakes, Provided;
    var turn := Turn(wake, Workers(want, swept));
    assert (turns + [turn])[..|turns|] == turns;
    var before := Turns(g, turns);
    TurnsKeep(g, turns);
    var w := Waited(before);
    WaitedMoves(before);
    TookTraced(w, WakeStep(wake));
    WakeMoves(w.s, wake);
    WaitedMoves(Took(w, WakeStep(wake)));
    DiscoveryProvides(Waited(Took(w, WakeStep(wake))), want, swept);
  }

  // ---- whose acts --------------------------------------------------------------------------

  predicate Instances(step: Step) {
    step.Exit? || step.Finish?
  }

  /** The supervisor's own acts in a run. */
  function Own(steps: seq<Step>): seq<Step> {
    if steps == [] then []
    else
      var last := steps[|steps| - 1];
      Own(steps[..|steps| - 1]) + if Instances(last) then [] else [last]
  }

  function Looks(n: nat): (looks: seq<Step>) {
    seq(n, _ => SpawnStep)
  }

  /** What a turn has the supervisor do, once it is woken. */
  function Acts(turn: Turn): seq<Step> {
    [WakeStep(turn.wake)]
    + if turn.wake == Gone then []
      else
        match turn.discovery
        case Shut => [ClosedMeanwhile]
        case Failed => [NotFound]
        case Workers(want, swept) => [Found(want), RetainStep, Sweep(swept)] + Looks(|want| + 1)
  }

  lemma TookOwn(g: Go, step: Step)
    requires !Instances(step)
    ensures Own(Took(g, step).trace) == Own(g.trace) + [step]
  {
    assert (g.trace + [step])[..|g.trace|] == g.trace;
  }

  lemma {:induction false} InstancesOwn(trace: seq<Step>, steps: seq<Step>)
    requires ByInstances(steps)
    ensures Own(trace + steps) == Own(trace)
    decreases |steps|
  {
    if steps == [] {
      assert trace + steps == trace;
    } else {
      var front := steps[..|steps| - 1];
      assert (trace + steps)[..|trace + steps| - 1] == trace + front;
      InstancesOwn(trace, front);
      assert Instances(steps[|steps| - 1]);
    }
  }

  lemma WaitedOwn(g: Go)
    requires Scripted(g.script)
    ensures Own(Waited(g).trace) == Own(g.trace) && Scripted(Waited(g).script)
  {
    hide After, Own;
    if g.script != [] {
      InstancesOwn(g.trace, g.script[0]);
    }
  }

  lemma {:induction false} LookedOwn(g: Go, n: nat)
    requires Scripted(g.script)
    ensures Own(Looked(g, n).trace) == Own(g.trace) + Looks(n) && Scripted(Looked(g, n).script)
  {
    hide After, Own, Next;
    if n > 0 {
      LookedOwn(g, n - 1);
      WaitedOwn(Looked(g, n - 1));
      TookOwn(Waited(Looked(g, n - 1)), SpawnStep);
      assert Looks(n) == Looks(n - 1) + [SpawnStep];
    }
  }

  lemma SweptOwn(g: Go, want: seq<Name>, swept: set<Name>)
    requires Scripted(g.script)
    ensures var t := Swept(g, want, swept);
      Own(t.trace) == Own(g.trace) + [Found(want), RetainStep, Sweep(swept)] && Scripted(t.script)
  {
    hide After, Own, Next;
    var a := Took(g, Found(want));
    TookOwn(g, Found(want));
    WaitedOwn(a);
    TookOwn(Waited(a), RetainStep);
    var c := Took(Waited(a), RetainStep);
    WaitedOwn(c);
    TookOwn(Waited(c), Sweep(swept));
  }

  lemma DiscoveredOwn(g: Go, discovery: Discovery)
    requires Scripted(g.script)
    ensures Own(Discovered(g, discovery).trace) == Own(g.trace) + Acts(Turn(Request, discovery))[1..]
  {
    hide After, Own, Next, Swept, Looked;
    match discovery {
      case Shut => TookOwn(g, ClosedMeanwhile);
      case Failed => TookOwn(g, NotFound);
      case Workers(want, swept) =>
        SweptOwn(g, want, swept);
        var b := Swept(g, want, swept);
        LookedOwn(b, |want|);
        TookOwn(Looked(b, |want|), SpawnStep);
        assert Looks(|want| + 1) == Looks(|want|) + [SpawnStep];
    }
  }

  /** A turn adds to the supervisor's own acts exactly those it calls for: none,
      if it does not wake. */
  lemma TurnOwn(g: Go, turn: Turn)
    requires Scripted(g.script)
    ensures Own(Turned(g, turn).trace) == Own(g.trace) + if Wakes(Waited(g).s, turn.wake) then Acts(turn) else []
  {
    hide After, Own, Next, Discovered, Wakes, Waited;
    var w := Waited(g);
    WaitedOwn(g);
    if Wakes(w.s, turn.wake) {
      var step := WakeStep(turn.wake);
      TookOwn(w, step);
      var d := Waited(Took(w, step));
      WaitedOwn(Took(w, step));
      if turn.wake != Gone {
        DiscoveredOwn(d, turn.discovery);
        assert Acts(turn) == [step] + Acts(Turn(Request, turn.discovery))[1..];
      }
    }
  }
}
