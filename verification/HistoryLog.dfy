/** The discipline of the log: claims are given back and made again in turn. */
module HistoryLog {
  import opened Base
  import opened HistoryModel
  import opened HistoryTree
  import opened HistoryTravel

  /** The claim was last given back. */
  predicate IsBack(log: seq<Event>, claim: Claim) {
    log != [] && var last := log[|log| - 1];
    if last.claim == claim then last.Reversed? else IsBack(log[..|log| - 1], claim)
  }

  predicate HasFailed(log: seq<Event>, claim: Claim) {
    log != [] && var last := log[|log| - 1];
    (last.claim == claim && !last.ok) || HasFailed(log[..|log| - 1], claim)
  }

  predicate Untouched(log: seq<Event>, claim: Claim) {
    log == [] || (log[|log| - 1].claim != claim && Untouched(log[..|log| - 1], claim))
  }

  /** Each claim is reversed and re-applied strictly in turn, reversed first,
      and never tried again once it has failed. */
  predicate InTurn(log: seq<Event>) {
    log == [] ||
    var last, rest := log[|log| - 1], log[..|log| - 1];
    InTurn(rest) && !HasFailed(rest, last.claim) && (last.Reversed? <==> !IsBack(rest, last.claim))
  }

  /** What the log says of a node's claims, by its state. */
  ghost predicate ClaimsOk(t: Tree, log: seq<Event>, id: Id)
    requires id in t.nodes
  {
    && (t.nodes[id].state != Expired ==> forall k: nat :: k < t.nodes[id].claims ==> InHand(log, Claim(id, k), t.nodes[id].state))
    && (forall k: nat :: k >= t.nodes[id].claims ==> Untouched(log, Claim(id, k)))
  }

  predicate InHand(log: seq<Event>, claim: Claim, state: State) {
    !HasFailed(log, claim) && (IsBack(log, claim) <==> state == Undone)
  }

  ghost predicate LogOk(t: Tree, log: seq<Event>) {
    && InTurn(log)
    && (forall id :: id in t.nodes ==> ClaimsOk(t, log, id))
    && (forall id: Id, k: nat :: id >= t.next ==> Untouched(log, Claim(id, k)))
  }

  lemma {:induction false} UntouchedIs(log: seq<Event>, claim: Claim)
    requires Untouched(log, claim)
    ensures !HasFailed(log, claim) && !IsBack(log, claim)
  {
    if log != [] {
      UntouchedIs(log[..|log| - 1], claim);
    }
  }

  // ---- a node's claims, all at once -------------------------------------------------------

  lemma OneMore(log: seq<Event>, e: Event, claim: Claim)
    ensures IsBack(log + [e], claim) == if e.claim == claim then e.Reversed? else IsBack(log, claim)
    ensures HasFailed(log + [e], claim) == ((e.claim == claim && !e.ok) || HasFailed(log, claim))
  {
    assert (log + [e])[..|log|] == log;
  }

  lemma Snoc(log: seq<Event>, events: seq<Event>, e: Event)
    ensures (log + (events + [e]))[..|log + events|] == log + events
    ensures (log + (events + [e]))[|log + events|] == e
    ensures log + (events + [e]) == log + events + [e]
  {
  }

  predicate SameFor(log: seq<Event>, after: seq<Event>, claim: Claim) {
    && IsBack(after, claim) == IsBack(log, claim) && HasFailed(after, claim) == HasFailed(log, claim)
    && Untouched(after, claim) == Untouched(log, claim)
  }

  lemma {:induction false} DoneElsewhere(log: seq<Event>, w: World, time: nat, id: Id, n: nat, back: bool, claim: Claim)
    requires claim.node != id || claim.index >= n
    ensures SameFor(log, log + Done(w, time, id, n, back), claim)
  {
    if n == 0 {
      assert log + [] == log;
    } else {
      var events := Done(w, time, id, n, back);
      Snoc(log, Done(w, time, id, n - 1, back), events[n - 1]);
      DoneElsewhere(log, w, time, id, n - 1, back, claim);
    }
  }

  lemma {:induction false} DoneInTurn(log: seq<Event>, w: World, time: nat, id: Id, n: nat, back: bool)
    requires InTurn(log)
    requires forall k: nat :: k < n ==> InHand(log, Claim(id, k), if back then Applied else Undone)
    ensures InTurn(log + Done(w, time, id, n, back))
  {
    hide HasFailed, IsBack;
    if n == 0 {
      assert log + [] == log;
    } else {
      var events := Done(w, time, id, n, back);
      Snoc(log, Done(w, time, id, n - 1, back), events[n - 1]);
      DoneInTurn(log, w, time, id, n - 1, back);
      DoneElsewhere(log, w, time, id, n - 1, back, Claim(id, n - 1));
      assert InHand(log, Claim(id, n - 1), if back then Applied else Undone);
    }
  }

  /** With none refused, every claim is where the walk put it. */
  lemma {:induction false} DoneInHand(log: seq<Event>, w: World, time: nat, id: Id, n: nat, back: bool, k: nat)
    requires k < n && InHand(log, Claim(id, k), if back then Applied else Undone)
    requires Failures(Done(w, time, id, n, back)) == []
    ensures InHand(log + Done(w, time, id, n, back), Claim(id, k), if back then Undone else Applied)
  {
    hide IsBack, HasFailed;
    var events, front := Done(w, time, id, n, back), Done(w, time, id, n - 1, back);
    assert events[..n - 1] == front;
    Snoc(log, front, events[n - 1]);
    OneMore(log + front, events[n - 1], Claim(id, k));
    if k < n - 1 {
      DoneInHand(log, w, time, id, n - 1, back, k);
    } else {
      DoneElsewhere(log, w, time, id, n - 1, back, Claim(id, k));
    }
  }

  // ---- recording -------------------------------------------------------------------------

  lemma TouchedLogOk(t: Tree, log: seq<Event>, node: Node)
    requires LogOk(t, log) && t.head in t.nodes && t.nodes[t.head].state != Undone
    requires node.claims >= t.nodes[t.head].claims && (node.state == t.nodes[t.head].state || node.state == Expired)
    ensures LogOk(t.(nodes := t.nodes[t.head := node]), log)
  {
    hide HasFailed, IsBack, Untouched, InTurn;
    var u := t.(nodes := t.nodes[t.head := node]);
    forall id | id in u.nodes ensures ClaimsOk(u, log, id) {
      assert ClaimsOk(t, log, id);
      if id == t.head && node.state != Expired {
        forall k: nat | k < node.claims ensures InHand(log, Claim(id, k), node.state) {
          if k >= t.nodes[id].claims {
            UntouchedIs(log, Claim(id, k));
          }
        }
      }
    }
  }

  lemma GrownLogOk(t: Tree, log: seq<Event>, a: Action)
    requires Shaped(t) && LogOk(t, log)
    ensures LogOk(Grown(t, a), log)
  {
    hide HasFailed, IsBack, Untouched, InTurn;
    var g := Grown(t, a);
    forall id | id in g.nodes ensures ClaimsOk(g, log, id) {
      if id == t.next {
        forall k: nat ensures InHand(log, Claim(id, k), Applied) {
          UntouchedIs(log, Claim(id, k));
        }
      } else {
        assert ClaimsOk(t, log, id);
      }
    }
  }

  lemma DropLogOk(t: Tree, log: seq<Event>, oldest: Id)
    requires LogOk(t, log) && oldest in t.nodes
    ensures LogOk(Drop(t, oldest), log)
  {
    hide InHand, Untouched, InTurn;
    var d := Drop(t, oldest);
    forall id | id in d.nodes ensures ClaimsOk(d, log, id) {
      assert ClaimsOk(t, log, id);
    }
  }

  lemma {:induction false} TrimLogOk(t: Tree, log: seq<Event>)
    requires Shaped(t) && LogOk(t, log)
    ensures LogOk(Trim(t), log)
    decreases |t.nodes|
  {
    hide LogOk, NodeOk;
    if |t.nodes| > KEEP {
      SomeNode(t);
      var oldest := Oldest(t.nodes, 0, t.next);
      DropSmaller(t, oldest);
      DropShaped(t, oldest);
      DropLogOk(t, log, oldest);
      TrimLogOk(Drop(t, oldest), log);
    }
  }

  lemma HeadNotUndone(t: Tree)
    requires Sound(t) && t.head in t.nodes
    ensures t.nodes[t.head].state != Undone
  {
    assert StateOk(t, t.head);
  }

  lemma ApplyLogOk(t: Tree, log: seq<Event>, a: Action)
    requires Sound(t) && LogOk(t, log)
    ensures LogOk(Apply(t, a), log)
  {
    hide LogOk, PathOk, Trim;
    if t.head in t.nodes && Coalesces(t.nodes[t.head], a) {
      HeadNotUndone(t);
      TouchedLogOk(t, log, Amended(t.nodes[t.head], a));
    } else {
      GrownLogOk(t, log, a);
      GrownShaped(t, a);
      TrimLogOk(Grown(t, a), log);
    }
  }

  lemma AmendLogOk(t: Tree, log: seq<Event>, a: Action)
    requires Sound(t) && LogOk(t, log)
    ensures LogOk(Amend(t, a), log)
  {
    hide LogOk, Apply;
    if t.head in t.nodes && t.nodes[t.head].state == Applied {
      TouchedLogOk(t, log, Amended(t.nodes[t.head], a));
    } else {
      ApplyLogOk(t, log, a);
    }
  }

  lemma ClaimLogOk(t: Tree, log: seq<Event>)
    requires Sound(t) && LogOk(t, log)
    ensures LogOk(ClaimOne(t), log)
  {
    hide LogOk;
    if t.head in t.nodes {
      HeadNotUndone(t);
      TouchedLogOk(t, log, t.nodes[t.head].(claims := t.nodes[t.head].claims + 1));
    }
  }

  /** Claims put on an undone node would have to be given back first; on any
      other node they start where they should. */
  predicate Attachable(t: Tree, id: Id, n: nat) {
    id !in t.nodes || n == 0 || t.nodes[id].state != Undone
  }

  /** Attaching claims to a node keeps the log in order exactly when the node is
      not undone, or none are attached. */
  lemma ClaimAtLogOk(t: Tree, log: seq<Event>, id: Id, n: nat)
    requires LogOk(t, log)
    ensures LogOk(ClaimAt(t, id, n), log) <==> Attachable(t, id, n)
  {
    hide HasFailed, IsBack, Untouched, InTurn;
    var u := ClaimAt(t, id, n);
    if Attachable(t, id, n) {
      forall x | x in u.nodes ensures ClaimsOk(u, log, x) {
        assert ClaimsOk(t, log, x);
        if x == id && u.nodes[x].state != Expired {
          forall k: nat | k < u.nodes[x].claims ensures InHand(log, Claim(x, k), u.nodes[x].state) {
            if k >= t.nodes[x].claims {
              UntouchedIs(log, Claim(x, k));
            }
          }
        }
      }
    } else {
      assert ClaimsOk(t, log, id);
      var claim := Claim(id, t.nodes[id].claims);
      UntouchedIs(log, claim);
      assert !InHand(log, claim, Undone);
      assert LogOk(u, log) ==> ClaimsOk(u, log, id);
      assert ClaimsOk(u, log, id) ==> InHand(log, claim, Undone);
    }
  }

  lemma ExpireLogOk(t: Tree, log: seq<Event>)
    requires Sound(t) && LogOk(t, log)
    ensures LogOk(ExpireCurrent(t), log)
  {
    hide LogOk;
    if t.head in t.nodes {
      HeadNotUndone(t);
      TouchedLogOk(t, log, t.nodes[t.head].(state := Expired));
    }
  }

  // ---- walking --------------------------------------------------------------------------------

  /** One node's claims all reversed, or all made again. */
  lemma DoneLogOk(t: Tree, log: seq<Event>, w: World, id: Id, back: bool, head: Id)
    requires LogOk(t, log) && id in t.nodes && id < t.next && t.nodes[id].state == (if back then Applied else Undone)
    ensures var events := Done(w, |log|, id, t.nodes[id].claims, back);
      LogOk(WithState(t, id, StateAfter(events, if back then Undone else Applied)).(head := head), log + events)
  {
    hide HasFailed, IsBack, Untouched, InTurn, InHand;
    var n := t.nodes[id].claims;
    var events := Done(w, |log|, id, n, back);
    var u := WithState(t, id, StateAfter(events, if back then Undone else Applied)).(head := head);
    assert ClaimsOk(t, log, id);
    DoneInTurn(log, w, |log|, id, n, back);
    forall x: Id, k: nat | x != id || k >= n ensures SameFor(log, log + events, Claim(x, k)) {
      DoneElsewhere(log, w, |log|, id, n, back, Claim(x, k));
    }
    forall x | x in u.nodes ensures ClaimsOk(u, log + events, x) {
      assert ClaimsOk(t, log, x);
      if x == id {
        if u.nodes[id].state != Expired {
          forall k: nat | k < n ensures InHand(log + events, Claim(id, k), u.nodes[id].state) {
            DoneInHand(log, w, |log|, id, n, back, k);
          }
        }
      } else {
        OthersInHand(t, log, log + events, x);
        assert u.nodes[x] == t.nodes[x];
      }
    }
  }

  lemma OthersInHand(t: Tree, log: seq<Event>, after: seq<Event>, x: Id)
    requires x in t.nodes && ClaimsOk(t, log, x)
    requires forall k: nat :: SameFor(log, after, Claim(x, k))
    ensures ClaimsOk(t, after, x)
  {
    hide HasFailed, IsBack, Untouched;
  }

  lemma PastLogOk(t: Tree, log: seq<Event>, head: Id)
    requires LogOk(t, log) && Sound(t) && t.head in t.nodes
    ensures LogOk(WithState(t, t.head, Expired).(head := head), log)
  {
    hide InHand, Untouched, InTurn;
    var u := WithState(t, t.head, Expired).(head := head);
    forall id | id in u.nodes ensures ClaimsOk(u, log, id) {
      assert ClaimsOk(t, log, id);
    }
  }

  lemma {:induction false} UndoLogOk(t: Tree, log: seq<Event>, w: World)
    requires Sound(t) && LogOk(t, log)
    ensures LogOk(Undo(t, log, w).tree, Undo(t, log, w).log)
    decreases t.head
  {
    hide LogOk, PathOk, Blocked;
    if t.head != 0 {
      var id := t.head;
      assert NodeOk(t, id);
      HeadNotUndone(t);
      if Dead(t.nodes[id], id, w, |log|) {
        PastLogOk(t, log, t.nodes[id].parent);
        BackSound(t, Expired);
        UndoLogOk(Past(t, id), log, w);
      } else {
        DoneLogOk(t, log, w, id, true, t.nodes[id].parent);
      }
    }
  }

  /** An undo reverses one node, all of whose claims it asked first; or none. */
  lemma {:induction false} UndoReverses(t: Tree, log: seq<Event>, w: World)
    requires Shaped(t)
    ensures var walk := Undo(t, log, w);
      match walk.step
      case None => walk.log == log
      case Some(step) =>
        exists id :: id in t.nodes && OnPath(t.nodes, t.head, id) && Reverses(t, log, w, walk, step, id)
    decreases t.head
  {
    hide Blocked;
    if t.head != 0 {
      var id := t.head;
      ParentLower(t, id);
      PastShaped(t, id);
      if Dead(t.nodes[id], id, w, |log|) {
        var p := Past(t, id);
        UndoReverses(p, log, w);
        if Undo(p, log, w).step.Some? {
          var x :| x in p.nodes && OnPath(p.nodes, p.head, x) && Reverses(p, log, w, Undo(p, log, w), Undo(p, log, w).step.value, x);
          ReversesBelow(t, log, w, Undo(p, log, w), x);
        }
      } else {
        PathHead(t);
        assert Reverses(t, log, w, Undo(t, log, w), Undo(t, log, w).step.value, id);
      }
    }
  }

  lemma ReversesBelow(t: Tree, log: seq<Event>, w: World, walk: Walk, x: Id)
    requires Shaped(t) && t.head in t.nodes && walk.step.Some?
    requires var p := Past(t, t.head);
      x in p.nodes && OnPath(p.nodes, p.head, x) && Reverses(p, log, w, walk, walk.step.value, x)
    ensures x in t.nodes && OnPath(t.nodes, t.head, x) && Reverses(t, log, w, walk, walk.step.value, x)
  {
    hide Blocked, OnPath;
    var p := Past(t, t.head);
    ParentLower(t, t.head);
    PathSame(t.nodes, p.nodes, p.head, x);
    PathStep(t.nodes, t.head, x);
    PathBelow(p.nodes, p.head, x);
  }

  ghost predicate Reverses(t: Tree, log: seq<Event>, w: World, walk: Walk, step: Step, id: Id)
    requires id in t.nodes
  {
    var node := t.nodes[id];
    && node.state != Expired && !Blocked(w, |log|, id, node.claims)
    && walk.log == log + Done(w, |log|, id, node.claims, true)
    && walk.tree.head == node.parent
    && step == Step([(id, true)], node.text, node.before, true, Failures(Done(w, |log|, id, node.claims, true)))
    && id in walk.tree.nodes && walk.tree.nodes[id].state == (if step.failed == [] then Undone else Expired)
  }

  lemma RedoLogOk(t: Tree, log: seq<Event>, w: World)
    requires Sound(t) && LogOk(t, log)
    ensures LogOk(Redo(t, log, w).tree, Redo(t, log, w).log)
  {
    hide LogOk, PathOk;
    var id := NewestUndone(t.nodes, t.head, t.next);
    if id.Some? {
      assert NodeOk(t, id.value);
      DoneLogOk(t, log, w, id.value, false, id.value);
    }
  }

  // ---- travelling ------------------------------------------------------------------------------

  lemma {:induction false} ClimbLogOk(leg: Leg, w: World, lca: Id)
    requires Sound(leg.tree) && LogOk(leg.tree, leg.log)
    ensures LogOk(Climb(leg, w, lca).tree, Climb(leg, w, lca).log)
    ensures Climb(leg, w, lca).tree.head == lca || Climb(leg, w, lca).tree.head == 0
    decreases leg.tree.head
  {
    hide LogOk, Undo, Sound;
    SoundShaped(leg.tree);
    if leg.tree.head != lca {
      var walk := Undo(leg.tree, leg.log, w);
      UndoSound(leg.tree, leg.log, w);
      UndoLogOk(leg.tree, leg.log, w);
      UndoFacts(leg.tree, leg.log, w);
      match walk.step {
        case Some(step) =>
          ClimbLogOk(Leg(walk.tree, walk.log, leg.visits + step.visits, leg.failed + step.failed), w, lca);
        case None =>
          if walk.tree.head != leg.tree.head {
            ClimbLogOk(leg.(tree := walk.tree, log := walk.log), w, lca);
          }
      }
    }
  }

  predicate Descending(down: seq<Id>) {
    forall i, j :: 0 <= i < j < |down| ==> down[j] < down[i]
  }

  lemma {:induction false} DescendLogOk(leg: Leg, w: World, down: seq<Id>)
    requires Shaped(leg.tree) && LogOk(leg.tree, leg.log) && Descending(down)
    requires forall k :: 0 <= k < |down| ==> down[k] in leg.tree.nodes && leg.tree.nodes[down[k]].state != Applied
    ensures LogOk(Descend(leg, w, down).tree, Descend(leg, w, down).log)
    decreases |down|
  {
    hide LogOk, StepDown, Shaped;
    if down != [] {
      var id, rest := down[|down| - 1], down[..|down| - 1];
      var next := StepDown(leg, w, id);
      StepDownDoes(leg, w, id);
      StepDownLogOk(leg, w, id);
      DescendLogOk(next, w, rest);
    }
  }

  lemma StepDownLogOk(leg: Leg, w: World, id: Id)
    requires Shaped(leg.tree) && LogOk(leg.tree, leg.log) && id in leg.tree.nodes && leg.tree.nodes[id].state != Applied
    ensures Shaped(StepDown(leg, w, id).tree)
    ensures LogOk(StepDown(leg, w, id).tree, StepDown(leg, w, id).log)
  {
    hide LogOk;
    var t := leg.tree;
    assert NodeOk(t, id);
    if t.nodes[id].state == Expired {
      HeadLogOk(t, leg.log, id);
    } else {
      DoneLogOk(t, leg.log, w, id, false, id);
    }
  }

  lemma HeadLogOk(t: Tree, log: seq<Event>, head: Id)
    requires LogOk(t, log)
    ensures LogOk(t.(head := head), log)
  {
    hide InHand, Untouched, InTurn;
    var u := t.(head := head);
    forall id | id in u.nodes ensures ClaimsOk(u, log, id) {
      assert ClaimsOk(t, log, id);
    }
  }

  lemma LinkedRest(nodes: map<Id, Node>, down: seq<Id>, top: Id)
    requires Linked(nodes, down, top) && down != []
    ensures Linked(nodes, down[1..], top)
  {
    var rest := down[1..];
    forall k: nat | k < |rest| ensures LinkOk(nodes, rest, top, k) {
      assert LinkOk(nodes, down, top, k + 1);
    }
  }

  lemma {:induction false} LinkedDescending(t: Tree, down: seq<Id>, top: Id)
    requires Shaped(t) && Linked(t.nodes, down, top)
    ensures Descending(down)
  {
    if |down| > 1 {
      ParentLower(t, down[0]);
      var rest := down[1..];
      assert LinkOk(t.nodes, down, top, 0);
      LinkedRest(t.nodes, down, top);
      LinkedDescending(t, rest, top);
      forall i, j | 0 <= i < j < |down| ensures down[j] < down[i] {
        assert down[j] == rest[j - 1] && (i > 0 ==> down[i] == rest[i - 1]);
        assert rest[0] == down[1];
      }
    }
  }

  /** Travelling keeps the discipline too, wherever it lands. */
  lemma TravelLogOk(t: Tree, log: seq<Event>, w: World, target: Id)
    requires Sound(t) && LogOk(t, log)
    ensures LogOk(Travel(t, log, w, target).tree, Travel(t, log, w, target).log)
  {
    hide LogOk, Sound, Climb, Descend, Chain, FirstCommon, Until, Earliest, LastApplied;
    SoundShaped(t);
    if Bound(t, target) {
      LcaExists(t, target);
      var lca := Lca(t, target).value;
      var leg := Leg(t, log, [], []);
      var up := Climb(leg, w, lca);
      ClimbSound(leg, w, lca);
      ClimbLogOk(leg, w, lca);
      DownLogOk(t, up, w, target, lca);
      HeadLogOk(Journey(t, log, w, target, lca).tree, Journey(t, log, w, target, lca).log, 0);
    }
  }

  lemma DownLogOk(t: Tree, up: Leg, w: World, target: Id, lca: Id)
    requires Shaped(t) && Sound(up.tree) && LogOk(up.tree, up.log) && SameShape(t.nodes, up.tree.nodes)
    requires up.tree.head == lca || up.tree.head == 0
    requires (target == 0 || target in t.nodes) && lca in Chain(t.nodes, target)
    ensures var end := Descend(up, w, Until(Chain(t.nodes, target), lca)); LogOk(end.tree, end.log)
  {
    hide LogOk, OnPath, Chain, Until, Descend;
    ChainSame(t.nodes, up.tree.nodes, target);
    UntilLinked(up.tree, target, lca);
    var down := Until(Chain(t.nodes, target), lca);
    LinkedDescending(up.tree, down, lca);
    forall k | 0 <= k < |down| ensures down[k] in up.tree.nodes && up.tree.nodes[down[k]].state != Applied {
      assert LinkOk(up.tree.nodes, down, lca, k);
      assert StateOk(up.tree, down[k]);
      ZeroPath(up.tree, down[k]);
      if OnPath(up.tree.nodes, lca, down[k]) {
        PathBelow(up.tree.nodes, lca, down[k]);
      }
    }
    DescendLogOk(up, w, down);
  }
}
