/** Travelling to any node of the tree: when it keeps the tree whole, and when not. */
module HistoryTravel {
  import opened Base
  import opened HistoryModel
  import opened HistoryTree

  // ---- chains -----------------------------------------------------------------------

  /** Each node of `down` hangs from the next, the last from `top`. */
  predicate Linked(nodes: map<Id, Node>, down: seq<Id>, top: Id) {
    && (forall k :: 0 <= k < |down| ==> down[k] in nodes && top < down[k])
    && (forall k: nat :: k < |down| ==> LinkOk(nodes, down, top, k))
  }

  predicate LinkOk(nodes: map<Id, Node>, down: seq<Id>, top: Id, k: nat)
    requires k < |down|
  {
    down[k] in nodes && nodes[down[k]].parent == if k + 1 < |down| then down[k + 1] else top
  }

  lemma LinkedMore(nodes: map<Id, Node>, from: Id, rest: seq<Id>, lca: Id)
    requires from in nodes && lca < from && Linked(nodes, rest, lca)
    requires nodes[from].parent == if rest == [] then lca else rest[0]
    ensures Linked(nodes, [from] + rest, lca)
  {
    var down := [from] + rest;
    forall k: nat | k < |down| ensures LinkOk(nodes, down, lca, k) {
      assert k > 0 ==> LinkOk(nodes, rest, lca, k - 1);
    }
  }

  lemma {:induction false} UntilLinked(t: Tree, from: Id, lca: Id)
    requires Shaped(t) && (from == 0 || from in t.nodes) && lca in Chain(t.nodes, from)
    ensures var down := Until(Chain(t.nodes, from), lca);
      && Linked(t.nodes, down, lca) && lca <= from
      && (down == [] <==> from == lca)
      && (down != [] ==> down[0] == from)
      && forall k :: 0 <= k < |down| ==> down[k] <= from
    decreases from
  {
    var chain := Chain(t.nodes, from);
    if from != lca {
      assert NodeOk(t, from);
      var parent := t.nodes[from].parent;
      assert chain[1..] == Chain(t.nodes, parent);
      UntilLinked(t, parent, lca);
      var rest := Until(Chain(t.nodes, parent), lca);
      assert Until(chain, lca) == [from] + rest;
      LinkedMore(t.nodes, from, rest, lca);
    }
  }

  lemma {:induction false} UntilIsPath(t: Tree, from: Id, lca: Id, id: Id)
    requires Shaped(t) && (from == 0 || from in t.nodes) && lca in Chain(t.nodes, from)
    ensures OnPath(t.nodes, from, id) <==> id in Until(Chain(t.nodes, from), lca) || OnPath(t.nodes, lca, id)
    decreases from
  {
    var chain := Chain(t.nodes, from);
    if from != lca {
      assert NodeOk(t, from);
      var parent := t.nodes[from].parent;
      assert chain[1..] == Chain(t.nodes, parent);
      UntilIsPath(t, parent, lca, id);
      PathStep(t.nodes, from, id);
    }
  }

  lemma {:induction false} CommonFirst(a: seq<Id>, b: seq<Id>)
    requires a != [] && b != [] && a[|a| - 1] in b
    ensures FirstCommon(a, b).Some?
  {
    if a[0] !in b {
      CommonFirst(a[1..], b);
    }
  }

  lemma {:induction false} ChainEnds(t: Tree, from: Id)
    requires Shaped(t) && (from == 0 || from in t.nodes)
    ensures var chain := Chain(t.nodes, from); chain[|chain| - 1] == 0
    decreases from
  {
    if from in t.nodes {
      assert NodeOk(t, from);
      ChainEnds(t, t.nodes[from].parent);
    } else {
      assert Chain(t.nodes, from) == [from];
    }
  }

  /** The paths to the cursor and to the target part somewhere. */
  lemma LcaExists(t: Tree, target: Id)
    requires Shaped(t) && Bound(t, target)
    ensures Lca(t, target).Some?
    ensures var lca := Lca(t, target).value;
      lca in Chain(t.nodes, t.head) && lca in Chain(t.nodes, target)
  {
    ChainEnds(t, t.head);
    ChainEnds(t, target);
    CommonFirst(Chain(t.nodes, t.head), Chain(t.nodes, target));
  }

  // ---- the way up ------------------------------------------------------------------------

  lemma {:induction false} ClimbSound(leg: Leg, w: World, lca: Id)
    requires Sound(leg.tree)
    ensures Sound(Climb(leg, w, lca).tree)
    ensures SameShape(leg.tree.nodes, Climb(leg, w, lca).tree.nodes)
    decreases leg.tree.head
  {
    hide Sound, Undo;
    SoundShaped(leg.tree);
    if leg.tree.head != lca {
      var walk := Undo(leg.tree, leg.log, w);
      UndoSound(leg.tree, leg.log, w);
      UndoSameShape(leg.tree, leg.log, w);
      UndoFacts(leg.tree, leg.log, w);
      match walk.step {
        case Some(step) =>
          ClimbSound(Leg(walk.tree, walk.log, leg.visits + step.visits, leg.failed + step.failed), w, lca);
        case None =>
          if walk.tree.head != leg.tree.head {
            ClimbSound(leg.(tree := walk.tree, log := walk.log), w, lca);
          }
      }
    }
  }

  lemma SoundShaped(t: Tree)
    requires Sound(t)
    ensures Shaped(t)
  {
  }

  lemma UndoFacts(t: Tree, log: seq<Event>, w: World)
    requires Shaped(t)
    ensures var walk := Undo(t, log, w);
      && Shaped(walk.tree) && walk.tree.head <= t.head
      && (walk.step.Some? ==> walk.tree.head < t.head)
      && (walk.step.None? ==> walk.tree.head == 0)
  {
  }

  lemma {:induction false} UndoSameShape(t: Tree, log: seq<Event>, w: World)
    requires Shaped(t)
    ensures SameShape(t.nodes, Undo(t, log, w).tree.nodes)
    decreases t.head
  {
    hide Dead, NodeOk;
    if t.head != 0 && Dead(t.nodes[t.head], t.head, w, |log|) {
      ParentLower(t, t.head);
      PastShaped(t, t.head);
      UndoSameShape(Past(t, t.head), log, w);
    }
  }

  lemma ParentLower(t: Tree, id: Id)
    requires Shaped(t) && id in t.nodes
    ensures t.nodes[id].parent < id
  {
    assert NodeOk(t, id);
  }

  // ---- the way down -----------------------------------------------------------------------

  /** Going down changes the nodes gone down to, which end applied or expired,
      and puts the cursor on the last. */
  lemma {:induction false} DescendDoes(leg: Leg, w: World, down: seq<Id>)
    requires Shaped(leg.tree) && forall k :: 0 <= k < |down| ==> down[k] in leg.tree.nodes
    ensures var end := Descend(leg, w, down);
      && SameShape(leg.tree.nodes, end.tree.nodes) && end.tree.next == leg.tree.next
      && end.tree.head == (if down == [] then leg.tree.head else down[0])
      && (forall x :: x in leg.tree.nodes && x !in down ==> end.tree.nodes[x].state == leg.tree.nodes[x].state)
      && (forall x :: x in leg.tree.nodes && x in down ==> end.tree.nodes[x].state != Undone)
    decreases |down|
  {
    if down != [] {
      var id, rest := down[|down| - 1], down[..|down| - 1];
      var next := StepDown(leg, w, id);
      StepDownDoes(leg, w, id);
      assert down == rest + [id];
      DescendDoes(next, w, rest);
    }
  }

  lemma StepDownDoes(leg: Leg, w: World, id: Id)
    requires Shaped(leg.tree) && id in leg.tree.nodes
    ensures var next := StepDown(leg, w, id);
      && SameShape(leg.tree.nodes, next.tree.nodes) && next.tree.next == leg.tree.next
      && next.tree.head == id && next.tree.nodes[id].state != Undone
      && (forall x :: x in leg.tree.nodes && x != id ==> next.tree.nodes[x].state == leg.tree.nodes[x].state)
  {
  }

  ghost predicate NoneUndone(nodes: map<Id, Node>, from: Id) {
    forall x :: x in nodes && OnPath(nodes, from, x) ==> nodes[x].state != Undone
  }

  /** Landing on the target leaves the tree whole exactly when nothing on the
      way to where the paths part was left undone. */
  lemma Landed(u: Tree, v: Tree, target: Id, lca: Id)
    requires Shaped(u) && |u.nodes| <= KEEP && Shaped(v) && SameShape(u.nodes, v.nodes)
    requires target in u.nodes && target != lca && lca in Chain(u.nodes, target) && v.head == target
    requires forall x :: x in u.nodes && !OnPath(u.nodes, lca, x) ==> u.nodes[x].state != Applied
    requires var down := Until(Chain(u.nodes, target), lca);
      && (forall x :: x in u.nodes && x !in down ==> v.nodes[x].state == u.nodes[x].state)
      && (forall x :: x in u.nodes && x in down ==> v.nodes[x].state != Undone)
    ensures Sound(v) <==> NoneUndone(u.nodes, lca)
  {
    hide OnPath, Chain, Until;
    var down := Until(Chain(u.nodes, target), lca);
    assert |u.nodes| == |u.nodes.Keys| == |v.nodes.Keys| == |v.nodes|;
    forall x ensures OnPath(v.nodes, v.head, x) <==> x in down || OnPath(u.nodes, lca, x) {
      PathSame(u.nodes, v.nodes, target, x);
      UntilIsPath(u, target, lca, x);
    }
    forall x | OnPath(u.nodes, lca, x) ensures x in u.nodes && x !in down {
      PathBelow(u.nodes, lca, x);
      UntilLinked(u, target, lca);
    }
    if Sound(v) {
      forall x | x in u.nodes && OnPath(u.nodes, lca, x) ensures u.nodes[x].state != Undone {
        assert StateOk(v, x);
      }
    }
    if NoneUndone(u.nodes, lca) {
      forall x | x in v.nodes ensures StateOk(v, x) {
      }
    }
  }

  /** Whatever the world answers: once the way up ends where the paths part,
      travel lands on its target and keeps the tree whole. */
  lemma TravelSound(t: Tree, log: seq<Event>, w: World, target: Id)
    requires Sound(t) && Bound(t, target)
    ensures var lca := Lca(t, target);
      && lca.Some?
      && (Climb(Leg(t, log, [], []), w, lca.value).tree.head == lca.value ==>
            Sound(Travel(t, log, w, target).tree) && Travel(t, log, w, target).tree.head == target)
  {
    hide OnPath, Chain, Until, Climb, Descend, FirstCommon, Sound, Earliest, LastApplied;
    SoundShaped(t);
    LcaExists(t, target);
    var lca := Lca(t, target).value;
    var up := Climb(Leg(t, log, [], []), w, lca);
    if up.tree.head == lca {
      ClimbSound(Leg(t, log, [], []), w, lca);
      DownFrom(t, up, w, target, lca);
    }
  }

  lemma {:induction false} ChainSame(a: map<Id, Node>, b: map<Id, Node>, from: Id)
    requires SameShape(a, b)
    ensures Chain(a, from) == Chain(b, from)
    decreases from
  {
    if from in a && a[from].parent < from {
      ChainSame(a, b, a[from].parent);
    }
  }

  lemma DownFrom(t: Tree, up: Leg, w: World, target: Id, lca: Id)
    requires Sound(t) && Sound(up.tree) && SameShape(t.nodes, up.tree.nodes) && up.tree.head == lca
    requires (target == 0 || target in t.nodes) && lca in Chain(t.nodes, target)
    ensures var end := Descend(up, w, Until(Chain(t.nodes, target), lca)).tree;
      Sound(end) && end.head == target
  {
    hide OnPath, Chain, Until, Descend;
    ChainSame(t.nodes, up.tree.nodes, target);
    UntilLinked(up.tree, target, lca);
    var down := Until(Chain(t.nodes, target), lca);
    DescendDoes(up, w, down);
    if target == lca {
      DescendNowhere(up, w);
    } else {
      forall x | x in up.tree.nodes && OnPath(up.tree.nodes, lca, x) ensures up.tree.nodes[x].state != Undone {
        assert StateOk(up.tree, x);
      }
      forall x | x in up.tree.nodes && !OnPath(up.tree.nodes, lca, x) ensures up.tree.nodes[x].state != Applied {
        assert StateOk(up.tree, x);
      }
      Landed(up.tree, Descend(up, w, down).tree, target, lca);
    }
  }

  lemma DescendNowhere(up: Leg, w: World)
    requires Shaped(up.tree)
    ensures Descend(up, w, []) == up
  {
  }

  // ---- a world that does not change its mind ------------------------------------------------

  /** What is blocked stays blocked, and nothing else. */
  ghost predicate Steady(w: World) {
    forall time: nat, claim: Claim :: w.blocked(time, claim) == w.blocked(0, claim)
  }

  /** No claim fails when it is tried. */
  ghost predicate Willing(w: World) {
    forall time: nat, claim: Claim :: !w.refuses(time, claim)
  }

  /** The world will not take this node back. */
  predicate Gone(t: Tree, w: World, id: Id)
    requires id in t.nodes
  {
    Dead(t.nodes[id], id, w, 0)
  }

  lemma SteadyDead(node: Node, id: Id, w: World, time: nat)
    requires Steady(w)
    ensures Dead(node, id, w, time) == Dead(node, id, w, 0)
  {
    assert forall k: nat :: w.blocked(time, Claim(id, k)) == w.blocked(0, Claim(id, k));
  }

  lemma {:induction false} WillingDone(w: World, time: nat, id: Id, n: nat, back: bool)
    requires Willing(w)
    ensures Failures(Done(w, time, id, n, back)) == []
  {
    if n > 0 {
      WillingDone(w, time, id, n - 1, back);
      var events := Done(w, time, id, n, back);
      assert events[..n - 1] == Done(w, time, id, n - 1, back);
    }
  }

  /** How a node is left behind: undone, or expired where the world would not
      have it back or a claim of it failed. */
  ghost predicate Left(w: World, gone: bool, state: State) {
    (state == Expired || (state == Undone && !gone)) && (Willing(w) && !gone ==> state == Undone)
  }

  ghost predicate Swept1(t: Tree, u: Tree, w: World, x: Id)
    requires x in t.nodes && x in u.nodes
  {
    if OnPath(t.nodes, t.head, x) && !OnPath(t.nodes, u.head, x) then
      Left(w, Gone(t, w, x), u.nodes[x].state) && u.nodes[x] == t.nodes[x].(state := u.nodes[x].state)
    else u.nodes[x] == t.nodes[x]
  }

  /** The cursor went up its path, and all it left is left that way. */
  ghost predicate Swept(t: Tree, u: Tree, w: World) {
    && t.nodes.Keys == u.nodes.Keys && t.next == u.next
    && (u.head == t.head || u.head == 0 || OnPath(t.nodes, t.head, u.head))
    && forall x :: x in t.nodes ==> Swept1(t, u, w, x)
  }

  lemma SweptShape(t: Tree, u: Tree, w: World)
    requires Swept(t, u, w)
    ensures SameShape(t.nodes, u.nodes)
  {
    hide OnPath, Gone;
    forall x | x in t.nodes ensures t.nodes[x].parent == u.nodes[x].parent {
      assert Swept1(t, u, w, x);
    }
  }

  lemma {:induction false} PathThrough(nodes: map<Id, Node>, cur: Id, mid: Id, id: Id)
    requires OnPath(nodes, cur, mid)
    ensures OnPath(nodes, mid, id) ==> OnPath(nodes, cur, id)
    decreases cur
  {
    if cur != mid {
      PathThrough(nodes, nodes[cur].parent, mid, id);
    }
  }

  lemma {:induction false} PathCompare(nodes: map<Id, Node>, cur: Id, a: Id, b: Id)
    requires OnPath(nodes, cur, a) && OnPath(nodes, cur, b) && b <= a
    ensures OnPath(nodes, a, b)
    decreases cur
  {
    if cur != a {
      if cur == b {
        PathBelow(nodes, nodes[cur].parent, a);
      } else {
        PathCompare(nodes, nodes[cur].parent, a, b);
      }
    }
  }

  lemma SweptOn(t: Tree, u: Tree, v: Tree, w: World)
    requires Shaped(t) && Swept(t, u, w) && Swept(u, v, w)
    ensures Swept(t, v, w)
  {
    hide OnPath, Dead, NodeOk;
    SweptShape(t, u, w);
    NoZero(t);
    forall x: Id, cur: Id ensures OnPath(u.nodes, cur, x) == OnPath(t.nodes, cur, x) {
      PathSame(t.nodes, u.nodes, cur, x);
    }
    forall x: Id ensures OnPath(t.nodes, u.head, x) ==> OnPath(t.nodes, t.head, x) {
      UpPath(t.nodes, t.head, u.head, x);
    }
    forall x: Id ensures OnPath(t.nodes, v.head, x) ==> OnPath(t.nodes, u.head, x) {
      PathSame(t.nodes, u.nodes, u.head, v.head);
      UpPath(t.nodes, u.head, v.head, x);
    }
    forall x | x in t.nodes ensures Swept1(t, v, w, x) {
      assert Swept1(t, u, w, x) && Swept1(u, v, w, x);
    }
  }

  lemma NoZero(t: Tree)
    requires Shaped(t)
    ensures 0 !in t.nodes
  {
  }

  lemma UpPath(nodes: map<Id, Node>, head: Id, up: Id, x: Id)
    requires 0 !in nodes && (up == head || up == 0 || OnPath(nodes, head, up))
    ensures OnPath(nodes, up, x) ==> OnPath(nodes, head, x)
  {
    if up != head && up != 0 {
      PathThrough(nodes, head, up, x);
    }
  }

  /** An undo stops above the nearest node the world takes back. */
  ghost predicate Stopped(t: Tree, u: Tree, w: World, id: Id) {
    && OnPath(t.nodes, t.head, id) && id in t.nodes && !Gone(t, w, id) && u.head == t.nodes[id].parent
    && forall x :: x in t.nodes && OnPath(t.nodes, t.head, x) && x > id ==> Gone(t, w, x)
  }

  lemma {:induction false} UndoSwept(t: Tree, log: seq<Event>, w: World) returns (id: Id)
    requires Shaped(t) && Steady(w)
    ensures Swept(t, Undo(t, log, w).tree, w)
    ensures Undo(t, log, w).step.Some? ==> Stopped(t, Undo(t, log, w).tree, w, id)
    decreases t.head
  {
    hide Steady, Willing, Gone, Swept1, Dead;
    id := t.head;
    if t.head == 0 {
      NothingSwept(t, w);
    } else {
      ParentLower(t, id);
      PastShaped(t, id);
      SteadyDead(t.nodes[id], id, w, |log|);
      if Gone(t, w, id) {
        OneSwept(t, Past(t, id), w, Expired);
        id := UndoSwept(Past(t, id), log, w);
        SweptOn(t, Past(t, t.head), Undo(Past(t, t.head), log, w).tree, w);
        GoneIs(t, w, t.head);
        if Undo(Past(t, t.head), log, w).step.Some? {
          StoppedFurther(t, Undo(Past(t, t.head), log, w).tree, w, id);
        }
      } else {
        GoneIs(t, w, id);
        if Willing(w) {
          WillingDone(w, |log|, id, t.nodes[id].claims, true);
        }
        OneSwept(t, Undo(t, log, w).tree, w, Undo(t, log, w).tree.nodes[id].state);
        OnlyHead(t, w);
      }
    }
  }

  lemma GoneIs(t: Tree, w: World, id: Id)
    requires id in t.nodes
    ensures Gone(t, w, id) == Dead(t.nodes[id], id, w, 0)
  {
  }

  lemma NothingSwept(t: Tree, w: World)
    ensures Swept(t, t, w)
  {
    hide OnPath, Gone;
  }

  lemma OneSwept(t: Tree, u: Tree, w: World, state: State)
    requires Shaped(t) && t.head in t.nodes && Left(w, Gone(t, w, t.head), state)
    requires u == WithState(t, t.head, state).(head := t.nodes[t.head].parent)
    ensures Swept(t, u, w)
  {
    hide OnPath, Gone, Left;
    ParentLower(t, t.head);
    PathHead(t);
    forall x | x in t.nodes ensures Swept1(t, u, w, x) {
      PathStep(t.nodes, t.head, x);
    }
    PathStep(t.nodes, t.head, u.head);
    if u.head != 0 {
      assert NodeOk(t, t.head);
      PathHead(t.(head := u.head));
    }
  }

  lemma OnlyHead(t: Tree, w: World)
    requires t.head in t.nodes
    ensures OnPath(t.nodes, t.head, t.head)
    ensures forall x :: x in t.nodes && OnPath(t.nodes, t.head, x) ==> x <= t.head
  {
    hide OnPath;
    PathHead(t);
    forall x | x in t.nodes && OnPath(t.nodes, t.head, x) ensures x <= t.head {
      PathBelow(t.nodes, t.head, x);
    }
  }

  lemma StoppedFurther(t: Tree, u: Tree, w: World, id: Id)
    requires Shaped(t) && t.head in t.nodes && Gone(t, w, t.head)
    requires Stopped(Past(t, t.head), u, w, id)
    ensures Stopped(t, u, w, id)
  {
    hide OnPath, Dead;
    var p := Past(t, t.head);
    ParentLower(t, t.head);
    assert SameShape(t.nodes, p.nodes);
    forall x: Id ensures OnPath(t.nodes, t.head, x) <==> x == t.head || OnPath(p.nodes, p.head, x) {
      PathStep(t.nodes, t.head, x);
      PathSame(t.nodes, p.nodes, p.head, x);
    }
    PathBelow(p.nodes, p.head, id);
    forall x | x in t.nodes && OnPath(t.nodes, t.head, x) && x > id ensures Gone(t, w, x) {
      assert x != t.head ==> p.nodes[x] == t.nodes[x] && Gone(p, w, x);
    }
  }

  // ---- where the way up ends ---------------------------------------------------------------

  lemma {:induction false} ClimbSwept(leg: Leg, w: World, lca: Id)
    requires Shaped(leg.tree) && Steady(w)
    ensures Swept(leg.tree, Climb(leg, w, lca).tree, w)
    ensures Climb(leg, w, lca).tree.head == lca || Climb(leg, w, lca).tree.head == 0
    decreases leg.tree.head
  {
    hide Steady, Willing, Swept, Undo, Shaped;
    if leg.tree.head == lca {
      NothingSwept(leg.tree, w);
    } else {
      var walk := Undo(leg.tree, leg.log, w);
      var id := UndoSwept(leg.tree, leg.log, w);
      UndoFacts(leg.tree, leg.log, w);
      var next := if walk.step.Some?
        then Leg(walk.tree, walk.log, leg.visits + walk.step.value.visits, leg.failed + walk.step.value.failed)
        else leg.(tree := walk.tree, log := walk.log);
      if walk.step.Some? || walk.tree.head != leg.tree.head {
        ClimbSwept(next, w, lca);
        SweptOn(leg.tree, walk.tree, Climb(next, w, lca).tree, w);
      }
    }
  }

  /** The cursor's branch hangs from `lca` by a node the world takes back: the
      way up ends there. */
  lemma {:induction false} ClimbArrives(leg: Leg, w: World, lca: Id, c: Id)
    requires Shaped(leg.tree) && Steady(w)
    requires OnPath(leg.tree.nodes, leg.tree.head, c) && c in leg.tree.nodes
    requires leg.tree.nodes[c].parent == lca && !Gone(leg.tree, w, c)
    ensures Climb(leg, w, lca).tree.head == lca
    decreases leg.tree.head
  {
    hide Steady, Willing, Undo, OnPath, Gone, Shaped;
    var t := leg.tree;
    PathBelow(t.nodes, t.head, c);
    ParentLower(t, c);
    var walk := Undo(t, leg.log, w);
    var id := UndoSwept(t, leg.log, w);
    UndoFacts(t, leg.log, w);
    UndoStopsByLive(t, leg.log, w, c);
    assert id >= c;
    var step := walk.step.value;
    var next := Leg(walk.tree, walk.log, leg.visits + step.visits, leg.failed + step.failed);
    if id == c {
      ClimbStays(next, w, lca);
    } else {
      PathCompare(t.nodes, t.head, id, c);
      PathStepUp(t, id, c);
      SweptShape(t, walk.tree, w);
      PathSame(t.nodes, walk.tree.nodes, walk.tree.head, c);
      assert Swept1(t, walk.tree, w, c);
      SameNodeGone(t, walk.tree, w, c);
      ClimbArrives(next, w, lca, c);
    }
  }

  lemma PathStepUp(t: Tree, id: Id, c: Id)
    requires OnPath(t.nodes, id, c) && id != c
    ensures id in t.nodes && OnPath(t.nodes, t.nodes[id].parent, c)
  {
  }

  lemma SameNodeGone(t: Tree, u: Tree, w: World, id: Id)
    requires id in t.nodes && id in u.nodes && t.nodes[id] == u.nodes[id]
    ensures Gone(t, w, id) == Gone(u, w, id)
  {
  }

  lemma ClimbStays(leg: Leg, w: World, lca: Id)
    requires Shaped(leg.tree) && leg.tree.head == lca
    ensures Climb(leg, w, lca) == leg
  {
  }

  /** With a node on the path that the world takes back, an undo does something. */
  lemma {:induction false} UndoStopsByLive(t: Tree, log: seq<Event>, w: World, c: Id)
    requires Shaped(t) && Steady(w) && OnPath(t.nodes, t.head, c) && c in t.nodes && !Gone(t, w, c)
    ensures Undo(t, log, w).step.Some?
    decreases t.head
  {
    hide Steady, Dead, NodeOk;
    NoZero(t);
    var id := t.head;
    SteadyDead(t.nodes[id], id, w, |log|);
    if Dead(t.nodes[id], id, w, |log|) {
      ParentLower(t, id);
      PastShaped(t, id);
      PathStepUp(t, id, c);
      PathSame(t.nodes, Past(t, id).nodes, Past(t, id).head, c);
      SameNodeGone(t, Past(t, id), w, c);
      UndoStopsByLive(Past(t, id), log, w, c);
    }
  }

  /** Every node by which the cursor's branch hangs from `lca` is one the world
      will not take back. */
  ghost predicate Misses(t: Tree, w: World, lca: Id) {
    t.head != lca && forall x :: x in t.nodes && OnPath(t.nodes, t.head, x) && t.nodes[x].parent == lca ==> Gone(t, w, x)
  }

  /** Then the way up goes past it, to the beginning. */
  lemma {:induction false} ClimbMisses(leg: Leg, w: World, lca: Id)
    requires Shaped(leg.tree) && Steady(w) && lca != 0 && Misses(leg.tree, w, lca)
    ensures Climb(leg, w, lca).tree.head == 0
    decreases leg.tree.head
  {
    hide Steady, Willing, Undo, OnPath, Gone, Shaped;
    var t := leg.tree;
    var walk := Undo(t, leg.log, w);
    var id := UndoSwept(t, leg.log, w);
    UndoFacts(t, leg.log, w);
    if walk.step.Some? {
      var step := walk.step.value;
      StillMisses(t, walk.tree, w, lca);
      ClimbMisses(Leg(walk.tree, walk.log, leg.visits + step.visits, leg.failed + step.failed), w, lca);
    } else if walk.tree.head != t.head {
      StillMisses(t, walk.tree, w, lca);
      ClimbMisses(leg.(tree := walk.tree, log := walk.log), w, lca);
    }
  }

  lemma StillMisses(t: Tree, u: Tree, w: World, lca: Id)
    requires Shaped(t) && Swept(t, u, w) && Misses(t, w, lca) && u.head != lca
    ensures Misses(u, w, lca)
  {
    hide OnPath, Gone;
    SweptShape(t, u, w);
    NoZero(t);
    forall x | x in u.nodes && OnPath(u.nodes, u.head, x) && u.nodes[x].parent == lca ensures Gone(u, w, x) {
      PathSame(t.nodes, u.nodes, u.head, x);
      UpPath(t.nodes, t.head, u.head, x);
      assert Swept1(t, u, w, x);
      SameNodeGone(t, u, w, x);
    }
  }

  // ---- exactly when travel works ------------------------------------------------------------

  /** The cursor stands where the paths part, or its branch hangs from there
      by a node the world takes back, or they part at the beginning. */
  ghost predicate Arrives(t: Tree, w: World, lca: Id) {
    lca == t.head || lca == 0 || exists c :: c in t.nodes && OnPath(t.nodes, t.head, c) && t.nodes[c].parent == lca && !Gone(t, w, c)
  }

  ghost predicate AllGone(t: Tree, w: World, from: Id) {
    forall x :: x in t.nodes && OnPath(t.nodes, from, x) ==> Gone(t, w, x)
  }

  lemma ArrivesOrMisses(t: Tree, log: seq<Event>, w: World, lca: Id)
    requires Shaped(t) && Steady(w)
    ensures var up := Climb(Leg(t, log, [], []), w, lca).tree;
      if Arrives(t, w, lca) then up.head == lca else up.head == 0 && lca != 0
  {
    hide Steady, Willing, OnPath, Gone, Shaped, Climb;
    var leg := Leg(t, log, [], []);
    if lca == t.head {
      ClimbStays(leg, w, lca);
    } else if lca == 0 {
      ClimbSwept(leg, w, lca);
    } else if Arrives(t, w, lca) {
      var c :| c in t.nodes && OnPath(t.nodes, t.head, c) && t.nodes[c].parent == lca && !Gone(t, w, c);
      ClimbArrives(leg, w, lca, c);
    } else {
      ClimbMisses(leg, w, lca);
    }
  }

  /** A walk up that missed leaves, on the way to where the paths part, what it
      undid: everything the world took back. */
  lemma MissedLeaves(t: Tree, u: Tree, w: World, lca: Id)
    requires Shaped(t) && Swept(t, u, w) && Willing(w) && u.head == 0 && lca in Chain(t.nodes, t.head)
    ensures NoneUndone(u.nodes, lca) <==> AllGone(t, w, lca)
  {
    hide OnPath, Gone, Chain;
    SweptShape(t, u, w);
    forall x ensures OnPath(u.nodes, lca, x) == OnPath(t.nodes, lca, x) {
      PathSame(t.nodes, u.nodes, lca, x);
    }
    forall x | x in t.nodes && OnPath(t.nodes, lca, x)
      ensures u.nodes[x].state == if Gone(t, w, x) then Expired else Undone
    {
      UntilIsPath(t, t.head, lca, x);
      ZeroPath(t, x);
      assert Swept1(t, u, w, x);
    }
  }

  /** Travel lands on its target unless the target is where the paths part and
      the way up misses it. With nothing failing it keeps the tree whole exactly
      when the way up arrives, or has nowhere to come down to, or finds nothing to
      undo beyond; whatever fails, it does in the first two of these. */
  lemma TravelExactly(t: Tree, log: seq<Event>, w: World, target: Id)
    requires Sound(t) && Bound(t, target) && Steady(w)
    ensures Lca(t, target).Some?
    ensures var lca, end := Lca(t, target).value, Travel(t, log, w, target).tree;
      && (end.head == target <==> Arrives(t, w, lca) || target != lca)
      && (Arrives(t, w, lca) || target == lca ==> Sound(end))
      && (Willing(w) ==> (Sound(end) <==> Arrives(t, w, lca) || target == lca || AllGone(t, w, lca)))
  {
    hide Steady, Willing, OnPath, Gone, Arrives, Climb, Descend, Chain, FirstCommon, Sound, Until, Earliest, LastApplied;
    SoundShaped(t);
    LcaExists(t, target);
    var lca := Lca(t, target).value;
    var leg := Leg(t, log, [], []);
    ArrivesOrMisses(t, log, w, lca);
    TravelSound(t, log, w, target);
    if !Arrives(t, w, lca) {
      var up := Climb(leg, w, lca);
      ClimbSwept(leg, w, lca);
      ClimbSound(leg, w, lca);
      if Willing(w) {
        MissedLeaves(t, up.tree, w, lca);
      }
      DownFromZero(t, up, w, target, lca);
      ArrivesAtZero(t, w, lca);
    }
  }

  lemma ArrivesAtZero(t: Tree, w: World, lca: Id)
    ensures lca == 0 ==> Arrives(t, w, lca)
  {
  }

  lemma DownFromZero(t: Tree, up: Leg, w: World, target: Id, lca: Id)
    requires Shaped(t) && Sound(up.tree) && SameShape(t.nodes, up.tree.nodes) && up.tree.head == 0 && lca != 0
    requires (target == 0 || target in t.nodes) && lca in Chain(t.nodes, target)
    ensures var end := Descend(up, w, Until(Chain(t.nodes, target), lca)).tree;
      if target == lca then end.head == 0 && Sound(end)
      else target != 0 && end.head == target && (Sound(end) <==> NoneUndone(up.tree.nodes, lca))
  {
    hide OnPath, Chain, Until, Descend;
    ChainSame(t.nodes, up.tree.nodes, target);
    UntilLinked(up.tree, target, lca);
    var down := Until(Chain(t.nodes, target), lca);
    DescendDoes(up, w, down);
    if target == lca {
      DescendNowhere(up, w);
    } else {
      forall x | x in up.tree.nodes ensures up.tree.nodes[x].state != Applied {
        assert StateOk(up.tree, x);
        ZeroPath(up.tree, x);
      }
      Landed(up.tree, Descend(up, w, down).tree, target, lca);
    }
  }
}
