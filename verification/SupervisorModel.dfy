/** Worker supervision: discovery, spawn, retirement and join, and the worker
    instances that come and go meanwhile. */
module SupervisorModel {
  import opened Base

  type Name = string
  type Inst = nat

  /** An instance runs; its last act but one is to drop its end of the kick
      channel, everything else released; its last is to send its completion. */
  datatype Phase = Running | Closing | Complete

  datatype Worker = Worker(name: Name, phase: Phase)

  /** Where `supervise` stands between two of its atomic acts. */
  datatype Stage =
    | Waiting
    | Discovering
    | Retiring(want: seq<Name>)
    | Sweeping(want: seq<Name>)
    | Spawning(want: seq<Name>)
    | Ending
    | Joining
    | Returned

  /** Every instance ever spawned, by number, and the completions still held. */
  datatype Sup = Sup(workers: seq<Worker>, live: map<Name, Inst>, retired: map<Name, Inst>, stage: Stage)

  const IDLE := Sup([], map[], map[], Waiting)

  predicate Tracked(s: Sup, i: Inst, m: map<Name, Inst>)
    requires i < |s.workers|
  {
    s.workers[i].name in m && m[s.workers[i].name] == i
  }

  function PhaseOf(s: Sup, i: Inst): Phase {
    if i < |s.workers| then s.workers[i].phase else Complete
  }

  function Moved(s: Sup, i: Inst, phase: Phase): Sup
    requires i < |s.workers|
  {
    s.(workers := s.workers[i := s.workers[i].(phase := phase)])
  }

  // ---- the set of live workers -------------------------------------------------------

  /** Running, as the set can tell: the kick channel is open. */
  predicate Has(s: Sup, name: Name) {
    name in s.live && PhaseOf(s, s.live[name]) == Running
  }

  /** Not wanted, or closed already. */
  predicate Leaves(s: Sup, names: set<Name>, name: Name) {
    name in s.live && (name !in names || PhaseOf(s, s.live[name]) != Running)
  }

  function Retained(s: Sup, names: set<Name>): map<Name, Inst> {
    map name | name in s.live && !Leaves(s, names, name) :: s.live[name]
  }

  function Retirees(s: Sup, names: set<Name>): map<Name, Inst> {
    map name | name in s.live && Leaves(s, names, name) :: s.live[name]
  }

  function Retain(s: Sup, names: set<Name>): Sup {
    s.(live := Retained(s, names), retired := s.retired + Retirees(s, names))
  }

  function NamesOf(want: seq<Name>): set<Name> {
    set name | name in want
  }

  function Spawned(s: Sup, name: Name): Sup {
    s.(workers := s.workers + [Worker(name, Running)], live := s.live[name := |s.workers|])
  }

  // ---- steps ---------------------------------------------------------------------------

  datatype Step =
    | Exit(i: Inst)
    | Finish(i: Inst)
    | Woken
    | HungUp
    | LiveDone(name: Name)
    | RetiredDone(name: Name)
    | Found(want: seq<Name>)
    | NotFound
    | ClosedMeanwhile
    | RetainStep
    | Sweep(gone: set<Name>)
    | SpawnStep
    | EndStep
    | Joined(name: Name)
    | Return

  predicate HeldDone(s: Sup, m: map<Name, Inst>, name: Name) {
    name in m && PhaseOf(s, m[name]) == Complete
  }

  function SpawnNext(s: Sup): Sup
    requires s.stage.Spawning? && s.stage.want != []
  {
    var name, rest := s.stage.want[0], s.stage.want[1..];
    if Has(s, name) || name in s.retired then s.(stage := Spawning(rest)) else Spawned(s, name).(stage := Spawning(rest))
  }

  /** One atomic act of the supervisor or of an instance; nothing, where it
      cannot be taken. */
  function Next(s: Sup, step: Step): Sup {
    match step
    case Exit(i) => if i < |s.workers| && s.workers[i].phase == Running then Moved(s, i, Closing) else s
    case Finish(i) => if i < |s.workers| && s.workers[i].phase == Closing then Moved(s, i, Complete) else s
    case Woken => if s.stage == Waiting then s.(stage := Discovering) else s
    case HungUp => if s.stage == Waiting then s.(stage := Ending) else s
    case LiveDone(name) =>
      if s.stage == Waiting && HeldDone(s, s.live, name) then s.(live := s.live - {name}, stage := Discovering) else s
    case RetiredDone(name) =>
      if s.stage == Waiting && HeldDone(s, s.retired, name) then s.(retired := s.retired - {name}, stage := Discovering) else s
    case Found(want) => if s.stage == Discovering then s.(stage := Retiring(want)) else s
    case NotFound => if s.stage == Discovering then s.(stage := Waiting) else s
    case ClosedMeanwhile => if s.stage == Discovering then s.(stage := Ending) else s
    case RetainStep =>
      if s.stage.Retiring? then Retain(s, NamesOf(s.stage.want)).(stage := Sweeping(s.stage.want)) else s
    case Sweep(gone) =>
      if s.stage.Sweeping? then
        s.(retired := s.retired - (set name | name in s.retired && name in gone && HeldDone(s, s.retired, name)),
           stage := Spawning(s.stage.want))
      else s
    case SpawnStep =>
      if !s.stage.Spawning? then s
      else if s.stage.want == [] then s.(stage := Waiting)
      else SpawnNext(s)
    case EndStep => if s.stage == Ending then Retain(s, {}).(stage := Joining) else s
    case Joined(name) =>
      if s.stage == Joining && HeldDone(s, s.retired, name) then s.(retired := s.retired - {name}) else s
    case Return => if s.stage == Joining && s.retired == map[] then s.(stage := Returned) else s
  }

  function After(s: Sup, steps: seq<Step>): Sup
    decreases |steps|
  {
    if steps == [] then s else Next(After(s, steps[..|steps| - 1]), steps[|steps| - 1])
  }

  // ---- the rules -------------------------------------------------------------------------

  ghost predicate Held(s: Sup) {
    && (forall name :: name in s.live ==> s.live[name] < |s.workers| && s.workers[s.live[name]].name == name)
    && (forall name :: name in s.retired ==> s.retired[name] < |s.workers| && s.workers[s.retired[name]].name == name)
    && (forall name :: name in s.live ==> name !in s.retired)
  }

  /** A running instance's completion is held, in one set or the other. */
  ghost predicate NoneLoose(s: Sup) {
    forall i: Inst :: i < |s.workers| && s.workers[i].phase == Running ==> Tracked(s, i, s.live) || Tracked(s, i, s.retired)
  }

  ghost predicate Inv(s: Sup) {
    && Held(s) && NoneLoose(s)
    && (s.stage == Joining || s.stage == Returned ==> s.live == map[])
    && (s.stage == Returned ==> s.retired == map[])
  }

  /** The completions not held are of instances that have sent them, save the lost. */
  ghost predicate AllButLost(s: Sup, lost: set<Inst>) {
    forall i: Inst :: i < |s.workers| && i !in lost && s.workers[i].phase != Complete ==>
      Tracked(s, i, s.live) || Tracked(s, i, s.retired)
  }

  /** A spawn writes over an instance that has closed and not completed: its
      completion is dropped unawaited. */
  function LostBy(s: Sup, step: Step): set<Inst> {
    if step == SpawnStep && s.stage.Spawning? && s.stage.want != []
       && !Has(s, s.stage.want[0]) && s.stage.want[0] !in s.retired && s.stage.want[0] in s.live
       && PhaseOf(s, s.live[s.stage.want[0]]) == Closing
    then {s.live[s.stage.want[0]]} else {}
  }

  function Lost(s: Sup, steps: seq<Step>): set<Inst>
    decreases |steps|
  {
    if steps == [] then {}
    else
      var front := steps[..|steps| - 1];
      Lost(s, front) + LostBy(After(s, front), steps[|steps| - 1])
  }
}
