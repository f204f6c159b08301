/** Every run of the undo tree, and what one walk undoes of another. */
module HistoryRun {
  import opened Base
  import opened HistoryModel
  import opened HistoryTree
  import opened HistoryTravel
  import opened HistoryLog

  datatype Op =
    | Record(a: Action)
    | Fold(a: Action)
    | AddClaim
    | AttachTo(id: Id, n: nat)
    | ExpireHead
    | Back(w: World)
    | Forth(w: World)
    | GoTo(w: World, target: Id)

  datatype Past = Past(tree: Tree, log: seq<Event>)

  function Act(p: Past, op: Op): (q: Past)
    requires Shaped(p.tree)
  {
    match op
    case Record(a) => Past(Apply(p.tree, a), p.log)
    case Fold(a) => Past(Amend(p.tree, a), p.log)
    case AddClaim => Past(ClaimOne(p.tree), p.log)
    case AttachTo(id, n) => Past(ClaimAt(p.tree, id, n), p.log)
    case ExpireHead => Past(ExpireCurrent(p.tree), p.log)
    case Back(w) => Past(Undo(p.tree, p.log, w).tree, Undo(p.tree, p.log, w).log)
    case Forth(w) => Past(Redo(p.tree, p.log, w).tree, Redo(p.tree, p.log, w).log)
    case GoTo(w, target) => Past(Travel(p.tree, p.log, w, target).tree, Travel(p.tree, p.log, w, target).log)
  }

  /** A travel whose way up ends where the paths part, or that has nowhere to
      come down to from there; any other operation. */
  predicate Arriving(p: Past, op: Op)
    requires Shaped(p.tree)
  {
    op.GoTo? && Bound(p.tree, op.target) && Lca(p.tree, op.target).Some? ==>
      var lca := Lca(p.tree, op.target).value;
      op.target == lca || Climb(Leg(p.tree, p.log, [], []), op.w, lca).tree.head == lca
  }

  /** What to look at before a travel, in a world that does not change its mind. */
  lemma ArrivingExactly(p: Past, w: World, target: Id)
    requires Sound(p.tree) && Bound(p.tree, target) && Steady(w)
    ensures Lca(p.tree, target).Some?
    ensures var lca := Lca(p.tree, target).value;
      Arriving(p, GoTo(w, target)) <==> target == lca || Arrives(p.tree, w, lca)
  {
    hide Steady, Climb, Arrives, FirstCommon, Chain, Sound;
    SoundShaped(p.tree);
    LcaExists(p.tree, target);
    ArrivesOrMisses(p.tree, p.log, w, Lca(p.tree, target).value);
  }

  /** A travel to where the paths part keeps the tree whole even when its way up
      goes past. */
  lemma UpwardSound(t: Tree, log: seq<Event>, w: World, target: Id)
    requires Sound(t) && Bound(t, target) && Lca(t, target) == Some(target)
    ensures Sound(Travel(t, log, w, target).tree)
  {
    hide Climb, FirstCommon, Sound, Descend, Earliest, LastApplied;
    SoundShaped(t);
    var leg := Leg(t, log, [], []);
    ClimbSound(leg, w, target);
    assert Until(Chain(t.nodes, target), target) == [];
    DescendNowhere(Climb(leg, w, target), w);
    if target == 0 {
      ClimbEnds(leg, w, 0);
    }
  }

  /** The way up ends where it is going or at the beginning. */
  lemma {:induction false} ClimbEnds(leg: Leg, w: World, lca: Id)
    requires Shaped(leg.tree)
    ensures Climb(leg, w, lca).tree.head == lca || Climb(leg, w, lca).tree.head == 0
    decreases leg.tree.head
  {
    hide Undo, Shaped;
    if leg.tree.head != lca {
      var walk := Undo(leg.tree, leg.log, w);
      UndoFacts(leg.tree, leg.log, w);
      match walk.step {
        case Some(step) =>
          ClimbEnds(Leg(walk.tree, walk.log, leg.visits + step.visits, leg.failed + step.failed), w, lca);
        case None =>
          if walk.tree.head != leg.tree.head {
            ClimbEnds(leg.(tree := walk.tree, log := walk.log), w, lca);
          }
      }
    }
  }

  /** A travel that arrives; claims attached to a node that is not undone; or
      any other operation. */
  predicate InOrder(p: Past, op: Op)
    requires Shaped(p.tree)
  {
    Arriving(p, op) && (op.AttachTo? ==> Attachable(p.tree, op.id, op.n))
  }

  lemma ActKeeps(p: Past, op: Op)
    requires Sound(p.tree) && LogOk(p.tree, p.log) && InOrder(p, op)
    ensures Sound(Act(p, op).tree) && LogOk(Act(p, op).tree, Act(p, op).log)
  {
    hide Sound, LogOk, Apply, Amend, Undo, Redo, Climb, Travel, ClaimAt;
    SoundShaped(p.tree);
    match op {
      case Record(a) =>
        ApplySound(p.tree, a);
        ApplyLogOk(p.tree, p.log, a);
      case Fold(a) =>
        AmendSound(p.tree, a);
        AmendLogOk(p.tree, p.log, a);
      case AddClaim =>
        ClaimSound(p.tree);
        ClaimLogOk(p.tree, p.log);
      case AttachTo(id, n) =>
        ClaimAtSound(p.tree, id, n);
        ClaimAtLogOk(p.tree, p.log, id, n);
      case ExpireHead =>
        ExpireSound(p.tree);
        ExpireLogOk(p.tree, p.log);
      case Back(w) =>
        UndoSound(p.tree, p.log, w);
        UndoLogOk(p.tree, p.log, w);
      case Forth(w) =>
        RedoSound(p.tree, p.log, w);
        RedoLogOk(p.tree, p.log, w);
      case GoTo(w, target) =>
        TravelLogOk(p.tree, p.log, w, target);
        if Bound(p.tree, target) {
          TravelSound(p.tree, p.log, w, target);
          if Lca(p.tree, target) == Some(target) {
            UpwardSound(p.tree, p.log, w, target);
          }
        } else {
          TravelNowhere(p.tree, p.log, w, target);
        }
    }
  }

  lemma TravelNowhere(t: Tree, log: seq<Event>, w: World, target: Id)
    requires Shaped(t) && !Bound(t, target)
    ensures Travel(t, log, w, target) == Walk(t, log, None)
  {
  }

  /** A run of operations, each of them in order, and where it ends. */
  ghost predicate Runs(p: Past, ops: seq<Op>, end: Past)
    decreases |ops|
  {
    if ops == [] then p == end
    else Shaped(p.tree) && InOrder(p, ops[0]) && Runs(Act(p, ops[0]), ops[1..], end)
  }

  /** In every run: the cursor's path is applied or expired and all else undone
      or expired, parents are present and smaller, at most `KEEP` nodes remain,
      and each claim is given back and made again strictly in turn. */
  lemma {:induction false} RunKeeps(p: Past, ops: seq<Op>, end: Past)
    requires Sound(p.tree) && LogOk(p.tree, p.log) && Runs(p, ops, end)
    ensures Sound(end.tree) && LogOk(end.tree, end.log)
    decreases |ops|
  {
    hide Sound, LogOk, Act, InOrder;
    if ops != [] {
      ActKeeps(p, ops[0]);
      RunKeeps(Act(p, ops[0]), ops[1..], end);
    }
  }

  lemma NewIsSound()
    ensures Sound(NOTHING) && LogOk(NOTHING, [])
  {
  }

  /** From a history in which nothing has happened, in particular. */
  lemma NewRunKeeps(ops: seq<Op>, end: Past)
    requires Runs(Past(NOTHING, []), ops, end)
    ensures Sound(end.tree) && LogOk(end.tree, end.log)
  {
    hide Sound, LogOk, Runs;
    NewIsSound();
    RunKeeps(Past(NOTHING, []), ops, end);
  }

  // ---- what came before stays ------------------------------------------------------------

  ghost predicate Later1(t: Tree, u: Tree, id: Id)
    requires id in u.nodes
  {
    if id in t.nodes then t.nodes[id].state == Expired ==> u.nodes[id].state == Expired else id >= t.next
  }

  /** No id is used twice, and what expired stays expired. */
  ghost predicate Later(t: Tree, u: Tree) {
    t.next <= u.next && forall id :: id in u.nodes ==> Later1(t, u, id)
  }

  lemma LaterOn(t: Tree, u: Tree, v: Tree)
    requires Later(t, u) && Later(u, v) && forall id :: id in t.nodes ==> NodeOk(t, id)
    ensures Later(t, v)
  {
    forall id | id in v.nodes ensures Later1(t, v, id) {
      assert Later1(u, v, id);
      assert id in t.nodes ==> NodeOk(t, id);
      if id in u.nodes {
        assert Later1(t, u, id);
      }
    }
  }

  lemma {:induction false} TrimLater(t: Tree)
    requires Shaped(t)
    ensures Later(t, Trim(t))
    decreases |t.nodes|
  {
    hide NodeOk;
    if |t.nodes| > KEEP {
      SomeNode(t);
      var oldest := Oldest(t.nodes, 0, t.next);
      var d := Drop(t, oldest);
      DropSmaller(t, oldest);
      DropShaped(t, oldest);
      TrimLater(d);
      assert forall id :: id in d.nodes ==> Later1(t, d, id);
      LaterOn(t, d, Trim(d));
    }
  }

  lemma ApplyLater(t: Tree, a: Action)
    requires Shaped(t)
    ensures Later(t, Apply(t, a)) && Later(t, Amend(t, a))
  {
    hide Trim, NodeOk;
    GrownShaped(t, a);
    TrimLater(Grown(t, a));
    GrownLater(t, a);
    LaterOn(t, Grown(t, a), Trim(Grown(t, a)));
  }

  lemma GrownLater(t: Tree, a: Action)
    requires Shaped(t)
    ensures Later(t, Grown(t, a))
  {
    assert t.next in t.nodes ==> !NodeOk(t, t.next);
  }

  lemma {:induction false} UndoLater(t: Tree, log: seq<Event>, w: World)
    requires Shaped(t)
    ensures Later(t, Undo(t, log, w).tree)
    decreases t.head
  {
    hide Blocked, Done, NodeOk;
    if t.head != 0 {
      ParentLower(t, t.head);
      PastShaped(t, t.head);
      if Dead(t.nodes[t.head], t.head, w, |log|) {
        var p := HistoryModel.Past(t, t.head);
        UndoLater(p, log, w);
        assert Later(t, p);
        LaterOn(t, p, Undo(p, log, w).tree);
      }
    }
  }

  lemma {:induction false} ClimbLater(leg: Leg, w: World, lca: Id)
    requires Shaped(leg.tree)
    ensures Later(leg.tree, Climb(leg, w, lca).tree)
    decreases leg.tree.head
  {
    hide Undo, Later;
    var walk := Undo(leg.tree, leg.log, w);
    UndoLater(leg.tree, leg.log, w);
    UndoFacts(leg.tree, leg.log, w);
    if leg.tree.head == lca {
      SameLater(leg.tree);
    } else if walk.step.Some? || walk.tree.head != leg.tree.head {
      var next := if walk.step.Some?
        then Leg(walk.tree, walk.log, leg.visits + walk.step.value.visits, leg.failed + walk.step.value.failed)
        else leg.(tree := walk.tree, log := walk.log);
      ClimbLater(next, w, lca);
      LaterOn(leg.tree, walk.tree, Climb(next, w, lca).tree);
    }
  }

  lemma SameLater(t: Tree)
    ensures Later(t, t)
  {
  }

  lemma {:induction false} DescendLater(leg: Leg, w: World, down: seq<Id>)
    requires Shaped(leg.tree)
    ensures Later(leg.tree, Descend(leg, w, down).tree)
    decreases |down|
  {
    hide StepDown, Later;
    if down == [] {
      SameLater(leg.tree);
    } else {
      var next := StepDown(leg, w, down[|down| - 1]);
      StepDownLater(leg, w, down[|down| - 1]);
      DescendLater(next, w, down[..|down| - 1]);
      LaterOn(leg.tree, next.tree, Descend(next, w, down[..|down| - 1]).tree);
    }
  }

  lemma StepDownLater(leg: Leg, w: World, id: Id)
    requires Shaped(leg.tree)
    ensures Shaped(StepDown(leg, w, id).tree)
    ensures Later(leg.tree, StepDown(leg, w, id).tree)
  {
    hide NodeOk, Done;
  }

  /** Whatever is done, travelling anywhere included. */
  lemma ActLater(p: Past, op: Op)
    requires Shaped(p.tree)
    ensures Later(p.tree, Act(p, op).tree)
  {
    hide Apply, Amend, Undo, Climb, Descend, Done, NodeOk, FirstCommon, Chain, Until, Earliest, LastApplied;
    var t, log := p.tree, p.log;
    match op {
      case Record(a) => ApplyLater(t, a);
      case Fold(a) => ApplyLater(t, a);
      case AddClaim =>
      case AttachTo(_, _) =>
      case ExpireHead =>
      case Back(w) => UndoLater(t, log, w);
      case Forth(w) =>
      case GoTo(w, target) =>
        if Bound(t, target) && Lca(t, target).Some? {
          var lca := Lca(t, target).value;
          var leg := Leg(t, log, [], []);
          var up := Climb(leg, w, lca);
          ClimbLater(leg, w, lca);
          DescendLater(up, w, Until(Chain(t.nodes, target), lca));
          LaterOn(t, up.tree, Journey(t, log, w, target, lca).tree);
        } else {
          SameLater(t);
        }
    }
  }

  // ---- one walk against another ------------------------------------------------------------

  /** Redo takes back an undo exactly when no newer child of the same parent
      stands undone: the redo goes to the newest. */
  lemma RedoUndoes(t: Tree, log: seq<Event>, w: World, v: World)
    requires Sound(t) && t.head != 0 && !Dead(t.nodes[t.head], t.head, w, |log|) && Willing(w) && Willing(v)
    ensures var u := Undo(t, log, w);
      Redo(u.tree, u.log, v).tree == t
      <==> forall other: Id :: other in t.nodes && Redoable(t.nodes, t.nodes[t.head].parent, other) ==> other < t.head
  {
    hide Willing, Blocked, PathOk, Done;
    var id, node := t.head, t.nodes[t.head];
    var u := Undo(t, log, w);
    HeadNotUndone(t);
    assert NodeOk(t, id);
    WillingDone(w, |log|, id, node.claims, true);
    assert u.tree == WithState(t, id, Undone).(head := node.parent);
    assert Redoable(u.tree.nodes, node.parent, id);
    forall other: Id | other != id ensures Redoable(u.tree.nodes, node.parent, other) == Redoable(t.nodes, node.parent, other) {
    }
    var newest := NewestUndone(u.tree.nodes, node.parent, t.next).value;
    WillingDone(v, |u.log|, newest, u.tree.nodes[newest].claims, false);
    if newest == id {
      assert Redo(u.tree, u.log, v).tree.nodes == t.nodes;
    } else {
      assert Redo(u.tree, u.log, v).tree.head == newest;
      assert Redoable(t.nodes, node.parent, newest);
    }
  }

  /** An undo takes back a redo exactly when the world takes back the node. */
  lemma UndoUndoes(t: Tree, log: seq<Event>, w: World, v: World)
    requires Sound(t) && NewestUndone(t.nodes, t.head, t.next).Some? && Willing(w) && Willing(v)
    ensures var id, r := NewestUndone(t.nodes, t.head, t.next).value, Redo(t, log, w);
      Undo(r.tree, r.log, v).tree == t <==> !Blocked(v, |r.log|, id, t.nodes[id].claims)
  {
    hide Willing, Blocked, PathOk, Done;
    var id := NewestUndone(t.nodes, t.head, t.next).value;
    var r := Redo(t, log, w);
    assert NodeOk(t, id);
    WillingDone(w, |log|, id, t.nodes[id].claims, false);
    assert r.tree == WithState(t, id, Applied).(head := id);
    WillingDone(v, |r.log|, id, t.nodes[id].claims, true);
    if Blocked(v, |r.log|, id, t.nodes[id].claims) {
      UndoLater(HistoryModel.Past(r.tree, id), r.log, v);
      UndoSameShape(HistoryModel.Past(r.tree, id), r.log, v);
      var u := Undo(r.tree, r.log, v).tree;
      assert Later1(HistoryModel.Past(r.tree, id), u, id);
    } else {
      assert Undo(r.tree, r.log, v).tree.nodes == t.nodes;
    }
  }

  // ---- a travel that goes too far -------------------------------------------------------------

  const SNAP := EMPTY_SNAP

  function Plain(parent: Id, state: State): Node {
    Node(parent, "act", "", None, 0.0, SNAP, SNAP, 0, state)
  }

  /** The beginning, one action, and two after it: the cursor on an expired one. */
  function Forked(): Tree {
    Tree(map[1 := Plain(0, Applied), 2 := Plain(1, Expired), 3 := Plain(1, Undone)], 2, 4)
  }

  const ACT := Action("act", "", None, 0.0, SNAP, SNAP, 0)

  /** How it comes about: back from the second action, another, to the second
      again, and that one expires. */
  function ForkOps(w: World): seq<Op> {
    [Record(ACT), Record(ACT), Back(w), Record(ACT), GoTo(w, 2), ExpireHead]
  }

  function Grove(two: State, three: State, head: Id): Tree {
    Tree(map[1 := Plain(0, Applied), 2 := Plain(1, two), 3 := Plain(1, three)], head, 4)
  }

  lemma FirstTwo()
    ensures var t := Tree(map[1 := Plain(0, Applied)], 1, 2); Shaped(t) && Apply(NOTHING, ACT) == t
    ensures var t := Tree(map[1 := Plain(0, Applied)], 1, 2);
      Apply(t, ACT) == Tree(map[1 := Plain(0, Applied), 2 := Plain(1, Applied)], 2, 3)
  {
    var t := Tree(map[1 := Plain(0, Applied)], 1, 2);
    assert Grown(NOTHING, ACT) == t && |t.nodes| == 1;
    var u := Tree(map[1 := Plain(0, Applied), 2 := Plain(1, Applied)], 2, 3);
    assert Grown(t, ACT) == u && |u.nodes| == 2;
  }

  lemma BackOne(w: World)
    ensures var t := Tree(map[1 := Plain(0, Applied), 2 := Plain(1, Applied)], 2, 3);
      Shaped(t) && Undo(t, [], w).tree == Tree(map[1 := Plain(0, Applied), 2 := Plain(1, Undone)], 1, 3) && Undo(t, [], w).log == []
  {
    var t := Tree(map[1 := Plain(0, Applied), 2 := Plain(1, Applied)], 2, 3);
    assert Done(w, 0, 2, 0, true) == [] && Failures([]) == [];
    assert WithState(t, 2, Undone).nodes == map[1 := Plain(0, Applied), 2 := Plain(1, Undone)];
  }

  lemma Third()
    ensures var t := Tree(map[1 := Plain(0, Applied), 2 := Plain(1, Undone)], 1, 3);
      Shaped(t) && Apply(t, ACT) == Grove(Undone, Applied, 3)
  {
    var t := Tree(map[1 := Plain(0, Applied), 2 := Plain(1, Undone)], 1, 3);
    assert Grown(t, ACT) == Grove(Undone, Applied, 3) && |Grove(Undone, Applied, 3).nodes| == 3;
  }

  lemma AcrossUp(w: World)
    ensures var t := Grove(Undone, Applied, 3);
      Shaped(t) && Undo(t, [], w).tree == Grove(Undone, Undone, 1) && Undo(t, [], w).log == [] && Undo(t, [], w).step.Some?
      && Lca(t, 2) == Some(1) && Chain(t.nodes, 2) == [2, 1, 0]
  {
    var t := Grove(Undone, Applied, 3);
    assert Done(w, 0, 3, 0, true) == [] && Failures([]) == [];
    assert WithState(t, 3, Undone).nodes == Grove(Undone, Undone, 1).nodes;
    assert Chain(t.nodes, 0) == [0];
    assert Chain(t.nodes, 1) == [1, 0];
    assert Chain(t.nodes, 2) == [2, 1, 0];
    assert Chain(t.nodes, 3) == [3, 1, 0];
    assert [3, 1, 0][1..] == [1, 0];
  }

  lemma AcrossDown(leg: Leg, w: World)
    requires leg.tree == Grove(Undone, Undone, 1) && leg.log == []
    ensures Descend(leg, w, [2]).tree == Grove(Applied, Undone, 2) && Descend(leg, w, [2]).log == []
  {
    assert Done(w, 0, 2, 0, false) == [] && Failures([]) == [];
    assert WithState(leg.tree, 2, Applied).nodes == Grove(Applied, Undone, 2).nodes;
    assert [2][..0] == [];
    DescendNowhere(StepDown(leg, w, 2), w);
  }

  /** The second action again: up from the third, and down. */
  lemma Across(w: World)
    ensures var t := Grove(Undone, Applied, 3);
      && Shaped(t) && Arriving(Past(t, []), GoTo(w, 2))
      && Travel(t, [], w, 2).tree == Grove(Applied, Undone, 2) && Travel(t, [], w, 2).log == []
  {
    hide Undo, Descend, Lca, Chain, StepDown;
    var t := Grove(Undone, Applied, 3);
    AcrossUp(w);
    var up := Climb(Leg(t, [], [], []), w, 1);
    assert up.tree == Grove(Undone, Undone, 1) && up.log == [] by {
      var step := Undo(t, [], w).step.value;
      ClimbStays(Leg(Grove(Undone, Undone, 1), [], [] + step.visits, [] + step.failed), w, 1);
    }
    assert Until([1, 0], 1) == [];
    assert [2, 1, 0][1..] == [1, 0];
    assert Until([2, 1, 0], 1) == [2];
    AcrossDown(up, w);
    assert Grove(Applied, Undone, 2).head == 2;
  }

  lemma OneFirst(p: Past, op: Op, ops: seq<Op>, end: Past)
    requires Shaped(p.tree) && InOrder(p, op) && Runs(Act(p, op), ops, end)
    ensures Runs(p, [op] + ops, end)
  {
    hide Act, InOrder;
    assert ([op] + ops)[1..] == ops;
  }

  lemma ForkExpires()
    ensures Runs(Past(Grove(Applied, Undone, 2), []), [ExpireHead], Past(Forked(), []))
  {
    hide Runs;
    var e, f := Past(Grove(Applied, Undone, 2), []), Past(Forked(), []);
    assert Act(e, ExpireHead) == f && Shaped(e.tree);
    RunsNowhere(f);
    OneFirst(e, ExpireHead, [], f);
    assert [ExpireHead] + [] == [ExpireHead];
  }

  lemma ForkEnd(w: World)
    ensures Runs(Past(Grove(Undone, Applied, 3), []), [GoTo(w, 2), ExpireHead], Past(Forked(), []))
  {
    hide Travel, Runs, Shaped, Lca, Climb, Forked, Grove;
    Across(w);
    ForkExpires();
    OneFirst(Past(Grove(Undone, Applied, 3), []), GoTo(w, 2), [ExpireHead], Past(Forked(), []));
    assert [GoTo(w, 2)] + [ExpireHead] == [GoTo(w, 2), ExpireHead];
  }

  lemma ForkMiddle(w: World)
    ensures Runs(Past(Tree(map[1 := Plain(0, Applied), 2 := Plain(1, Applied)], 2, 3), []),
                 [Back(w), Record(ACT), GoTo(w, 2), ExpireHead], Past(Forked(), []))
  {
    hide Apply, Undo, Travel, Runs;
    var b := Past(Tree(map[1 := Plain(0, Applied), 2 := Plain(1, Applied)], 2, 3), []);
    var c := Past(Tree(map[1 := Plain(0, Applied), 2 := Plain(1, Undone)], 1, 3), []);
    ForkEnd(w);
    BackOne(w);
    Third();
    OneFirst(c, Record(ACT), [GoTo(w, 2), ExpireHead], Past(Forked(), []));
    assert [Record(ACT)] + [GoTo(w, 2), ExpireHead] == [Record(ACT), GoTo(w, 2), ExpireHead];
    OneFirst(b, Back(w), [Record(ACT), GoTo(w, 2), ExpireHead], Past(Forked(), []));
    assert [Back(w)] + [Record(ACT), GoTo(w, 2), ExpireHead] == [Back(w), Record(ACT), GoTo(w, 2), ExpireHead];
  }

  /** A history comes to stand like this, in any world. */
  lemma ForkedReached(w: World)
    ensures Runs(Past(NOTHING, []), ForkOps(w), Past(Forked(), []))
  {
    hide Apply, Runs;
    var a := Past(Tree(map[1 := Plain(0, Applied)], 1, 2), []);
    var more := [Back(w), Record(ACT), GoTo(w, 2), ExpireHead];
    ForkMiddle(w);
    FirstTwo();
    OneFirst(a, Record(ACT), more, Past(Forked(), []));
    OneFirst(Past(NOTHING, []), Record(ACT), [Record(ACT)] + more, Past(Forked(), []));
    assert ForkOps(w) == [Record(ACT)] + ([Record(ACT)] + more);
  }

  lemma RunsNowhere(p: Past)
    ensures Runs(p, [], p)
  {
  }

  lemma ForkedSound()
    ensures Sound(Forked())
  {
    var t := Forked();
    assert |t.nodes| == 3;
    assert OnPath(t.nodes, 2, 2) && OnPath(t.nodes, 2, 1) && OnPath(t.nodes, 1, 1);
    PathBelowThree(t);
  }

  lemma PathBelowThree(t: Tree)
    ensures !OnPath(t.nodes, 2, 3)
  {
    if OnPath(t.nodes, 2, 3) {
      PathBelow(t.nodes, 2, 3);
    }
  }

  /** Undo walks past the expired node and undoes the one below it, which is on
      the target's own path: the cursor ends on a node whose parent is undone. */
  lemma TravelCanBreak(w: World)
    requires Steady(w) && Willing(w)
    ensures Sound(Forked()) && Bound(Forked(), 3)
    ensures var end := Travel(Forked(), [], w, 3).tree; end.head == 3 && !Sound(end)
  {
    hide Steady, Willing, Sound, Travel;
    var t := Forked();
    ForkedSound();
    assert Chain(t.nodes, 0) == [0];
    assert Chain(t.nodes, 1) == [1, 0];
    assert Chain(t.nodes, 2) == [2, 1, 0];
    assert Chain(t.nodes, 3) == [3, 1, 0];
    assert [2, 1, 0][1..] == [1, 0];
    assert Lca(t, 3) == Some(1);
    assert Gone(t, w, 2) && !Gone(t, w, 1);
    assert OnPath(t.nodes, 1, 1);
    PathBelowThree(t);
    TravelExactly(t, [], w, 3);
  }
}
