/** The undo tree as the code keeps it: nodes edited in place, loops that walk
    the cursor, each operation tied to what it does to the tree's value. */
module History {
  import opened Base
  import opened HistoryModel
  import M = HistoryModel
  import LayoutSet
  import opened HistoryTree
  import opened HistoryTravel

  class History {
    var nodes: map<Id, Node>
    var head: Id
    var next: Id
    /** What has been done to the world. */
    var log: seq<Event>

    ghost function Value(): Tree
      reads this
    {
      Tree(nodes, head, next)
    }

    constructor ()
      ensures Value() == NOTHING && log == []
    {
      nodes, head, next, log := map[], 0, 1, [];
    }

    method CanUndoNow() returns (can: bool)
      requires Shaped(Value())
      ensures can == CanUndo(nodes, head)
    {
      var cur := head;
      while cur != 0
        invariant cur == 0 || cur in nodes
        invariant CanUndo(nodes, head) == CanUndo(nodes, cur)
        decreases cur
      {
        if nodes[cur].state != Expired {
          return true;
        }
        assert NodeOk(Value(), cur);
        cur := nodes[cur].parent;
      }
      NoZero(Value());
      return false;
    }

    // ---- recording ---------------------------------------------------------------

    method Record(a: Action) returns (id: Id)
      requires Shaped(Value())
      modifies this
      ensures Value() == Apply(old(Value()), a) && log == old(log)
      ensures id == if old(head) in old(nodes) && Coalesces(old(nodes)[old(head)], a) then old(head) else old(next)
    {
      hide M.Trim;
      if head in nodes && Coalesces(nodes[head], a) {
        nodes := nodes[head := Amended(nodes[head], a)];
        return head;
      }
      GrownShaped(Value(), a);
      id := next;
      next := next + 1;
      nodes := nodes[id := NewNode(head, a)];
      head := id;
      Trim();
    }

    method Amend(a: Action) returns (id: Id)
      requires Shaped(Value())
      modifies this
      ensures Value() == M.Amend(old(Value()), a) && log == old(log)
    {
      hide Apply;
      if head in nodes && nodes[head].state == Applied {
        nodes := nodes[head := Amended(nodes[head], a)];
        return head;
      }
      id := Record(a);
    }

    method Claim()
      modifies this
      ensures Value() == ClaimOne(old(Value())) && log == old(log)
    {
      if head in nodes {
        nodes := nodes[head := nodes[head].(claims := nodes[head].claims + 1)];
      }
    }

    method ClaimAt(id: Id, n: nat)
      modifies this
      ensures Value() == M.ClaimAt(old(Value()), id, n) && log == old(log)
    {
      if id in nodes {
        nodes := nodes[id := nodes[id].(claims := nodes[id].claims + n)];
      }
    }

    method ExpireCurrent()
      modifies this
      ensures Value() == M.ExpireCurrent(old(Value())) && log == old(log)
    {
      if head in nodes {
        nodes := nodes[head := nodes[head].(state := Expired)];
      }
    }

    /** Drops the lowest numbers until `KEEP` remain. */
    method Trim()
      requires Shaped(Value())
      modifies this
      ensures Value() == M.Trim(old(Value())) && log == old(log)
    {
      hide Shaped, M.Trim, Orphaned, Drop;
      while |nodes| > KEEP
        invariant Shaped(Value()) && log == old(log)
        invariant M.Trim(Value()) == M.Trim(old(Value()))
        decreases |nodes|
      {
        SomeNode(Value());
        var oldest := FirstKey();
        TrimStep(Value());
        DropInPlace(Value(), oldest);
        nodes := nodes - {oldest};
        nodes := map id | id in nodes :: Orphaned(nodes[id], oldest);
        if head == oldest {
          head := 0;
        }
      }
      TrimStays(Value());
    }

    method FirstKey() returns (oldest: Id)
      requires Shaped(Value()) && exists id :: id in nodes && 0 <= id < next
      ensures oldest == Oldest(nodes, 0, next)
      ensures oldest in nodes && forall id :: id in nodes ==> oldest <= id
    {
      oldest := 0;
      while oldest !in nodes
        invariant exists id :: id in nodes && oldest <= id < next
        invariant Oldest(nodes, oldest, next) == Oldest(nodes, 0, next)
        decreases next - oldest
      {
        oldest := oldest + 1;
      }
    }

    // ---- walking ----------------------------------------------------------------------

    method Refused(w: World, id: Id) returns (blocked: bool)
      requires id in nodes
      ensures blocked == Blocked(w, |log|, id, nodes[id].claims)
    {
      for k := 0 to nodes[id].claims
        invariant forall j: nat :: j < k ==> !w.blocked(|log|, M.Claim(id, j))
      {
        if w.blocked(|log|, M.Claim(id, k)) {
          return true;
        }
      }
      return false;
    }

    /** All of a node's claims, each tried whatever became of the others. */
    method TryAll(w: World, id: Id, back: bool) returns (failed: seq<M.Claim>)
      requires id in nodes
      modifies this`log
      ensures log == old(log) + Done(w, |old(log)|, id, nodes[id].claims, back)
      ensures failed == Failures(Done(w, |old(log)|, id, nodes[id].claims, back))
    {
      failed := [];
      for k := 0 to nodes[id].claims
        invariant log == old(log) + Done(w, |old(log)|, id, k, back)
        invariant failed == Failures(Done(w, |old(log)|, id, k, back))
      {
        var claim := M.Claim(id, k);
        var ok := !w.refuses(|log|, claim);
        ghost var was := Done(w, |old(log)|, id, k, back);
        var event := if back then Reversed(claim, ok) else Reapplied(claim, ok);
        log := log + [event];
        Assoc(old(log), was, [event]);
        assert (was + [event])[..|was|] == was;
        if !ok {
          failed := failed + [claim];
        }
      }
    }

    /** Expires its way down to a node the world accepts, and gives that back. */
    method Undo(w: World) returns (step: Option<Step>)
      requires Shaped(Value())
      modifies this
      ensures Shaped(Value()) && Walk(Value(), log, step) == M.Undo(old(Value()), old(log), w)
    {
      hide M.Undo, Blocked, Done, NodeOk;
      ghost var all := M.Undo(Value(), log, w);
      while true
        invariant Shaped(Value()) && log == old(log)
        invariant M.Undo(Value(), log, w) == all
        decreases head
      {
        UndoCases(Value(), log, w);
        if head == 0 {
          return None;
        }
        var id := head;
        var parent, state := nodes[id].parent, nodes[id].state;
        ParentLower(Value(), id);
        PastShaped(Value(), id);
        if state == Expired {
          assert nodes[id := nodes[id].(state := Expired)] == nodes;
          head := parent;
          continue;
        }
        var blocked := Refused(w, id);
        if blocked {
          nodes := nodes[id := nodes[id].(state := Expired)];
          head := parent;
          continue;
        }
        var failed := TryAll(w, id, true);
        nodes := nodes[id := nodes[id].(state := if failed == [] then Undone else Expired)];
        step := Some(Step([(id, true)], nodes[id].text, nodes[id].before, true, failed));
        head := parent;
        return step;
      }
    }

    method NewestUndoneChild() returns (newest: Option<Id>)
      requires Shaped(Value())
      ensures newest == NewestUndone(nodes, head, next)
    {
      newest := None;
      for id := 0 to next
        invariant newest == NewestUndone(nodes, head, id)
      {
        if id in nodes && nodes[id].parent == head && nodes[id].state == Undone {
          newest := Some(id);
        }
      }
    }

    /** Goes forward to the highest-numbered undone child. */
    method Redo(w: World) returns (step: Option<Step>)
      requires Shaped(Value())
      modifies this
      ensures Shaped(Value()) && Walk(Value(), log, step) == M.Redo(old(Value()), old(log), w)
    {
      hide Done, NodeOk, Failures;
      var newest := NewestUndoneChild();
      if newest.None? {
        return None;
      }
      step := Reapply(w, newest.value);
    }

    /** Makes a node's claims again and puts the cursor on it. */
    method Reapply(w: World, id: Id) returns (step: Option<Step>)
      requires Shaped(Value()) && id in nodes
      modifies this
      ensures Shaped(Value()) && Walk(Value(), log, step) == Forward(old(Value()), old(log), w, id)
    {
      hide Done, NodeOk, Failures, Shaped;
      ghost var was := Value();
      var failed := TryAll(w, id, false);
      nodes := nodes[id := nodes[id].(state := if failed == [] then Applied else Expired)];
      head := id;
      step := Some(Step([(id, false)], nodes[id].text, nodes[id].after, false, failed));
      ForwardIs(was, old(log), w, id);
    }

    // ---- travelling ---------------------------------------------------------------------

    method ChainFrom(from: Id) returns (v: seq<Id>)
      requires Shaped(Value())
      ensures v == Chain(nodes, from)
    {
      v := [from];
      var cur := from;
      while cur != 0
        invariant v != [] && v[|v| - 1] == cur
        invariant v[..|v| - 1] + Chain(nodes, cur) == Chain(nodes, from)
        decreases cur
      {
        if cur !in nodes {
          break;
        }
        ParentLower(Value(), cur);
        ghost var front, was := v[..|v| - 1], cur;
        cur := nodes[cur].parent;
        v := v + [cur];
        Assoc(front, [was], Chain(nodes, cur));
        assert v[..|v| - 1] == front + [was];
      }
      NoZero(Value());
      assert v == v[..|v| - 1] + [cur];
    }

    method Meeting(hc: seq<Id>, tc: seq<Id>) returns (lca: Option<Id>)
      ensures lca == FirstCommon(hc, tc)
    {
      for k := 0 to |hc|
        invariant FirstCommon(hc, tc) == FirstCommon(hc[k..], tc)
      {
        assert hc[k..][0] == hc[k] && hc[k..][1..] == hc[k + 1..];
        if hc[k] in tc {
          return Some(hc[k]);
        }
      }
      return None;
    }

    method WalkUp(w: World, lca: Id) returns (visits: seq<(Id, bool)>, walked: seq<M.Claim>)
      requires Shaped(Value())
      modifies this
      ensures Shaped(Value()) && Leg(Value(), log, visits, walked) == Climb(Leg(old(Value()), old(log), [], []), w, lca)
      ensures LastApplied(visits).None?
    {
      hide M.Undo, Climb, NodeOk, Shaped;
      ghost var up := Climb(Leg(Value(), log, [], []), w, lca);
      visits, walked := [], [];
      while head != lca
        invariant Shaped(Value()) && Climb(Leg(Value(), log, visits, walked), w, lca) == up
        invariant LastApplied(visits).None?
        decreases head
      {
        var before := head;
        ghost var was := Leg(Value(), log, visits, walked);
        ClimbCases(was, w, lca);
        UndoFacts(Value(), log, w);
        var step := Undo(w);
        match step {
          case Some(s) =>
            walked := walked + s.failed;
            UndoVisits(was.tree, was.log, w);
            visits := visits + s.visits;
          case None =>
            if head == before {
              return;
            }
        }
      }
      ClimbStays(Leg(Value(), log, visits, walked), w, lca);
    }

    method BranchTo(tc: seq<Id>, lca: Id) returns (down: seq<Id>)
      ensures down == Until(tc, lca)
    {
      down := [];
      for k := 0 to |tc|
        invariant Until(tc, lca) == down + Until(tc[k..], lca)
      {
        assert tc[k..][0] == tc[k] && tc[k..][1..] == tc[k + 1..];
        if tc[k] == lca {
          return;
        }
        Assoc(down, [tc[k]], Until(tc[k + 1..], lca));
        down := down + [tc[k]];
      }
    }

    /** The last node applied on the way, as the step that reports it. */
    ghost predicate Reports(last: Option<Step>, visits: seq<(Id, bool)>)
      reads this
    {
      match LastApplied(visits)
      case None => last == None
      case Some(id) => id in nodes && last == Some(Step([], nodes[id].text, nodes[id].after, false, []))
    }

    method WalkDown(w: World, down: seq<Id>, visits0: seq<(Id, bool)>, walked0: seq<M.Claim>)
      returns (visits: seq<(Id, bool)>, walked: seq<M.Claim>, last: Option<Step>)
      requires Shaped(Value()) && LastApplied(visits0).None?
      modifies this
      ensures Shaped(Value()) && Leg(Value(), log, visits, walked) == Descend(Leg(old(Value()), old(log), visits0, walked0), w, down)
      ensures Reports(last, visits)
    {
      hide Forward, NodeOk, Shaped, Descend;
      ghost var end := Descend(Leg(Value(), log, visits0, walked0), w, down);
      visits, walked, last := visits0, walked0, None;
      assert down[..|down|] == down;
      for k := |down| downto 0
        invariant Shaped(Value()) && Descend(Leg(Value(), log, visits, walked), w, down[..k]) == end
        invariant Reports(last, visits)
      {
        var id := down[k];
        ghost var leg := Leg(Value(), log, visits, walked);
        assert down[..k + 1][..k] == down[..k];
        DescendCases(leg, w, down[..k + 1]);
        if id in nodes {
          if nodes[id].state == Expired {
            head := id;
          } else {
            ForwardKeepsText(Value(), log, w, id);
            var step := Reapply(w, id);
            walked := walked + step.value.failed;
            visits := visits + step.value.visits;
            last := Some(Step([], step.value.text, step.value.snap, false, []));
          }
        }
      }
      DescendNowhere(Leg(Value(), log, visits, walked), w);
      assert down[..0] == [];
    }

    method OldestBefore() returns (snap: LayoutSet.Snap)
      requires Shaped(Value())
      ensures snap == Beginning(Value())
    {
      var best: Option<Id> := None;
      for id := 0 to next
        invariant best == Earliest(nodes, id)
      {
        if id in nodes && (best.None? || Whole(nodes[id].ts) < Whole(nodes[best.value].ts)) {
          best := Some(id);
        }
      }
      match best {
        case Some(id) => return nodes[id].before;
        case None => return EMPTY_SNAP;
      }
    }

    /** Goes from the cursor to `target` by way of where their paths part. */
    method Travel(w: World, target: Id) returns (step: Option<Step>)
      requires Shaped(Value())
      modifies this
      ensures Shaped(Value()) && Walk(Value(), log, step) == M.Travel(old(Value()), old(log), w, target)
    {
      hide Climb, Descend, Chain, Until, FirstCommon, NodeOk, Beginning, LastApplied;
      if target == head {
        return None;
      }
      if target != 0 && target !in nodes {
        return None;
      }
      var hc := ChainFrom(head);
      var tc := ChainFrom(target);
      var lca := Meeting(hc, tc);
      if lca.None? {
        return None;
      }
      var visits, walked := WalkUp(w, lca.value);
      var down := BranchTo(tc, lca.value);
      var last;
      visits, walked, last := WalkDown(w, down, visits, walked);
      if target == 0 {
        var snap := OldestBefore();
        HeadShaped(Value());
        head := 0;
        return Some(Step(visits, "the beginning", snap, true, walked));
      }
      if last.None? {
        if head !in nodes {
          return None;
        }
        last := Some(Step([], nodes[head].text, nodes[head].after, false, []));
      }
      return Some(Step(visits, last.value.text, last.value.snap, last.value.undone, walked));
    }
  }

  lemma TrimStep(t: Tree)
    requires Shaped(t) && |t.nodes| > KEEP
    ensures exists id :: id in t.nodes && 0 <= id < t.next
    ensures var d := Drop(t, Oldest(t.nodes, 0, t.next));
      Shaped(d) && |d.nodes| < |t.nodes| && M.Trim(t) == M.Trim(d)
  {
    SomeNode(t);
    DropSmaller(t, Oldest(t.nodes, 0, t.next));
    DropShaped(t, Oldest(t.nodes, 0, t.next));
  }

  lemma DropInPlace(t: Tree, oldest: Id)
    ensures var rest := t.nodes - {oldest};
      Drop(t, oldest) == t.(nodes := map id | id in rest :: Orphaned(rest[id], oldest), head := if t.head == oldest then 0 else t.head)
  {
    hide Orphaned;
  }

  lemma TrimStays(t: Tree)
    requires Shaped(t) && |t.nodes| <= KEEP
    ensures M.Trim(t) == t
  {
  }

  lemma HeadShaped(t: Tree)
    requires Shaped(t)
    ensures Shaped(t.(head := 0))
  {
    forall id | id in t.nodes ensures NodeOk(t.(head := 0), id) {
      assert NodeOk(t, id);
    }
  }

  // ---- the walks, case by case -----------------------------------------------------------

  lemma UndoCases(t: Tree, log: seq<Event>, w: World)
    requires Shaped(t)
    ensures t.head == 0 ==> M.Undo(t, log, w) == Walk(t, log, None)
    ensures t.head != 0 ==> t.head in t.nodes && Shaped(Past(t, t.head))
    ensures t.head != 0 && Dead(t.nodes[t.head], t.head, w, |log|) ==> M.Undo(t, log, w) == M.Undo(Past(t, t.head), log, w)
    ensures t.head != 0 && !Dead(t.nodes[t.head], t.head, w, |log|) ==>
      var node := t.nodes[t.head];
      var events := Done(w, |log|, t.head, node.claims, true);
      M.Undo(t, log, w) == Walk(WithState(t, t.head, StateAfter(events, Undone)).(head := node.parent), log + events,
                                Some(Step([(t.head, true)], node.text, node.before, true, Failures(events))))
      && Shaped(M.Undo(t, log, w).tree)
  {
    hide Dead, Done, Failures;
    if t.head != 0 {
      PastShaped(t, t.head);
    }
  }

  lemma ForwardIs(t: Tree, log: seq<Event>, w: World, id: Id)
    requires Shaped(t) && id in t.nodes
    ensures var node, walk := t.nodes[id], Forward(t, log, w, id);
      var events := Done(w, |log|, id, node.claims, false);
      && walk == Walk(WithState(t, id, StateAfter(events, Applied)).(head := id), log + events,
                      Some(Step([(id, false)], node.text, node.after, false, Failures(events))))
      && Shaped(walk.tree)
  {
    hide Done, Failures, NodeOk;
  }

  lemma ClimbCases(leg: Leg, w: World, lca: Id)
    requires Shaped(leg.tree) && leg.tree.head != lca
    ensures var walk := M.Undo(leg.tree, leg.log, w);
      Climb(leg, w, lca) ==
      match walk.step
      case Some(step) => Climb(Leg(walk.tree, walk.log, leg.visits + step.visits, leg.failed + step.failed), w, lca)
      case None =>
        if walk.tree.head == leg.tree.head then leg.(tree := walk.tree, log := walk.log)
        else Climb(leg.(tree := walk.tree, log := walk.log), w, lca)
  {
    hide M.Undo, Shaped;
    UndoFacts(leg.tree, leg.log, w);
  }

  lemma {:induction false} UndoVisits(t: Tree, log: seq<Event>, w: World)
    requires Shaped(t)
    ensures M.Undo(t, log, w).step.Some? ==> |M.Undo(t, log, w).step.value.visits| == 1 && M.Undo(t, log, w).step.value.visits[0].1
    decreases t.head
  {
    hide Dead, Done, NodeOk;
    UndoCases(t, log, w);
    if t.head != 0 {
      ParentLower(t, t.head);
      if Dead(t.nodes[t.head], t.head, w, |log|) {
        UndoVisits(Past(t, t.head), log, w);
      }
    }
  }

  lemma DescendCases(leg: Leg, w: World, down: seq<Id>)
    requires Shaped(leg.tree) && down != []
    ensures var id := down[|down| - 1];
      && Descend(leg, w, down) == Descend(StepDown(leg, w, id), w, down[..|down| - 1])
      && (id in leg.tree.nodes && leg.tree.nodes[id].state == Expired ==> Shaped(leg.tree.(head := id)))
  {
    hide Forward;
  }

  lemma ForwardKeepsText(t: Tree, log: seq<Event>, w: World, id: Id)
    requires Shaped(t) && id in t.nodes
    ensures var walk := Forward(t, log, w, id);
      && walk.step.Some? && walk.step.value.visits == [(id, false)]
      && walk.step.value.text == t.nodes[id].text && walk.step.value.snap == t.nodes[id].after
      && id in walk.tree.nodes && walk.tree.nodes[id].text == t.nodes[id].text && walk.tree.nodes[id].after == t.nodes[id].after
  {
  }
}
