/** The undo tree: actions, the cursor, and the claims given back along the way. */
module HistoryModel {
  import opened Base
  import opened LayoutSet

  /** Nodes are numbered from 1; 0 stands for before any of them. */
  type Id = nat

  datatype State = Applied | Undone | Expired

  /** One action; its claims are told apart by their place. */
  datatype Node = Node(parent: Id, kind: string, text: string, entity: Option<string>, ts: real,
                       before: Snap, after: Snap, claims: nat, state: State)

  datatype Tree = Tree(nodes: map<Id, Node>, head: Id, next: Id)

  /** What is recorded; its parent and state are not the caller's to give. */
  datatype Action = Action(kind: string, text: string, entity: Option<string>, ts: real,
                           before: Snap, after: Snap, claims: nat)

  const KEEP := 200
  const COALESCE_S := 2.5

  const NOTHING := Tree(map[], 0, 1)

  // ---- the world ----------------------------------------------------------------------

  /** The `index`th claim of a node. */
  datatype Claim = Claim(node: Id, index: nat)

  /** One claim given back or made again, and whether the world took it. */
  datatype Event = Reversed(claim: Claim, ok: bool) | Reapplied(claim: Claim, ok: bool)

  /** What the world answers. Every answer may differ with time, which passes
      with each thing done. */
  datatype World = World(blocked: (nat, Claim) -> bool, refuses: (nat, Claim) -> bool)

  /** What a walk produced. */
  datatype Step = Step(visits: seq<(Id, bool)>, text: string, snap: Snap, undone: bool, failed: seq<Claim>)

  datatype Walk = Walk(tree: Tree, log: seq<Event>, step: Option<Step>)

  predicate Blocked(w: World, time: nat, id: Id, claims: nat) {
    exists k: nat :: k < claims && w.blocked(time, Claim(id, k))
  }

  /** All of a node's first `n` claims, one after the other, taken or not. */
  function Done(w: World, time: nat, id: Id, n: nat, back: bool): (events: seq<Event>)
    ensures |events| == n
  {
    if n == 0 then []
    else
      var claim := Claim(id, n - 1);
      var ok := !w.refuses(time + n - 1, claim);
      Done(w, time, id, n - 1, back) + [if back then Reversed(claim, ok) else Reapplied(claim, ok)]
  }

  function Failures(events: seq<Event>): seq<Claim> {
    if events == [] then []
    else
      var last := events[|events| - 1];
      Failures(events[..|events| - 1]) + if last.ok then [] else [last.claim]
  }

  // ---- shape ----------------------------------------------------------------------------

  predicate NodeOk(t: Tree, id: Id) {
    id in t.nodes ==> 0 < id < t.next && t.nodes[id].parent < id && (t.nodes[id].parent == 0 || t.nodes[id].parent in t.nodes)
  }

  predicate Shaped(t: Tree) {
    && t.next > 0 && (t.head == 0 || t.head in t.nodes)
    && forall id :: id in t.nodes ==> NodeOk(t, id)
  }

  /** `id` is `cur` or an ancestor of it. */
  predicate OnPath(nodes: map<Id, Node>, cur: Id, id: Id)
    decreases cur
  {
    cur in nodes && (cur == id || (nodes[cur].parent < cur && OnPath(nodes, nodes[cur].parent, id)))
  }

  predicate StateOk(t: Tree, id: Id) {
    id in t.nodes ==> if OnPath(t.nodes, t.head, id) then t.nodes[id].state != Undone else t.nodes[id].state != Applied
  }

  /** Nodes on the cursor's path are applied or expired, all others undone or expired. */
  predicate PathOk(t: Tree) {
    forall id :: id in t.nodes ==> StateOk(t, id)
  }

  predicate Sound(t: Tree) {
    Shaped(t) && PathOk(t) && |t.nodes| <= KEEP
  }

  // ---- recording ----------------------------------------------------------------------------

  predicate Coalesces(node: Node, a: Action) {
    a.entity.Some? && node.entity == a.entity && node.kind == a.kind && node.state == Applied && a.ts - node.ts < COALESCE_S
  }

  function Amended(node: Node, a: Action): Node {
    node.(after := a.after, ts := a.ts, claims := node.claims + a.claims)
  }

  function NewNode(parent: Id, a: Action): Node {
    Node(parent, a.kind, a.text, a.entity, a.ts, a.before, a.after, a.claims, Applied)
  }

  /** The lowest id present from `from` on. */
  function Oldest(nodes: map<Id, Node>, from: Id, next: Id): (id: Id)
    requires exists id :: id in nodes && from <= id < next
    ensures id in nodes && from <= id < next && forall other :: other in nodes && from <= other ==> id <= other
    decreases next - from
  {
    if from in nodes then from else Oldest(nodes, from + 1, next)
  }

  function Orphaned(node: Node, gone: Id): Node {
    if node.parent == gone then node.(parent := 0) else node
  }

  /** One node falls off the bottom; its children hang from the beginning. */
  function Drop(t: Tree, oldest: Id): Tree {
    t.(nodes := map id | id in t.nodes && id != oldest :: Orphaned(t.nodes[id], oldest),
       head := if t.head == oldest then 0 else t.head)
  }

  lemma DropSmaller(t: Tree, oldest: Id)
    requires oldest in t.nodes
    ensures |Drop(t, oldest).nodes| == |t.nodes| - 1
  {
    var d := Drop(t, oldest);
    assert d.nodes.Keys == t.nodes.Keys - {oldest};
    assert |t.nodes| == |t.nodes.Keys| && |d.nodes| == |d.nodes.Keys|;
  }

  lemma SomeNode(t: Tree)
    requires Shaped(t) && |t.nodes| > 0
    ensures exists id :: id in t.nodes && 0 <= id < t.next
  {
    assert |t.nodes.Keys| > 0;
    var id :| id in t.nodes.Keys;
    assert NodeOk(t, id);
  }

  lemma DropShaped(t: Tree, oldest: Id)
    requires Shaped(t) && oldest in t.nodes && forall id :: id in t.nodes ==> oldest <= id
    ensures Shaped(Drop(t, oldest))
  {
    var d := Drop(t, oldest);
    forall id | id in d.nodes ensures NodeOk(d, id) {
      assert NodeOk(t, id);
    }
  }

  function Trim(t: Tree): Tree
    requires Shaped(t)
    decreases |t.nodes|
  {
    if |t.nodes| <= KEEP then t
    else
      SomeNode(t);
      var oldest := Oldest(t.nodes, 0, t.next);
      DropSmaller(t, oldest);
      DropShaped(t, oldest);
      Trim(Drop(t, oldest))
  }

  function Grown(t: Tree, a: Action): Tree {
    Tree(t.nodes[t.next := NewNode(t.head, a)], t.next, t.next + 1)
  }

  lemma GrownShaped(t: Tree, a: Action)
    requires Shaped(t)
    ensures Shaped(Grown(t, a))
  {
    var g := Grown(t, a);
    forall id | id in g.nodes ensures NodeOk(g, id) {
      assert NodeOk(t, id);
      assert t.head in t.nodes ==> NodeOk(t, t.head);
    }
  }

  function Apply(t: Tree, a: Action): Tree
    requires Shaped(t)
  {
    if t.head in t.nodes && Coalesces(t.nodes[t.head], a) then
      t.(nodes := t.nodes[t.head := Amended(t.nodes[t.head], a)])
    else
      GrownShaped(t, a);
      Trim(Grown(t, a))
  }

  function Amend(t: Tree, a: Action): Tree
    requires Shaped(t)
  {
    if t.head in t.nodes && t.nodes[t.head].state == Applied then
      t.(nodes := t.nodes[t.head := Amended(t.nodes[t.head], a)])
    else Apply(t, a)
  }

  /** One more claim on the node under the cursor. */
  function ClaimOne(t: Tree): Tree {
    if t.head in t.nodes then
      t.(nodes := t.nodes[t.head := t.nodes[t.head].(claims := t.nodes[t.head].claims + 1)])
    else t
  }

  /** `n` more claims on any node, as when a claim is known only afterwards. */
  function ClaimAt(t: Tree, id: Id, n: nat): Tree {
    if id in t.nodes then t.(nodes := t.nodes[id := t.nodes[id].(claims := t.nodes[id].claims + n)]) else t
  }

  function WithState(t: Tree, id: Id, state: State): Tree
    requires id in t.nodes
  {
    t.(nodes := t.nodes[id := t.nodes[id].(state := state)])
  }

  function ExpireCurrent(t: Tree): Tree {
    if t.head in t.nodes then WithState(t, t.head, Expired) else t
  }

  // ---- walking --------------------------------------------------------------------------------

  /** Expired, or refused before anything of it is touched. */
  predicate Dead(node: Node, id: Id, w: World, time: nat) {
    node.state == Expired || Blocked(w, time, id, node.claims)
  }

  /** The cursor past a node the world will not take back. */
  function Past(t: Tree, id: Id): Tree
    requires id in t.nodes
  {
    WithState(t, id, Expired).(head := t.nodes[id].parent)
  }

  function StateAfter(events: seq<Event>, state: State): State {
    if Failures(events) == [] then state else Expired
  }

  lemma PastShaped(t: Tree, id: Id)
    requires Shaped(t) && id in t.nodes
    ensures Shaped(Past(t, id)) && Shaped(WithState(t, id, Undone)) && Shaped(WithState(t, id, Applied)) && Shaped(WithState(t, id, Expired))
  {
    forall s: State ensures Shaped(WithState(t, id, s)) {
      var u := WithState(t, id, s);
      forall x | x in u.nodes ensures NodeOk(u, x) {
        assert NodeOk(t, x);
      }
    }
    var p := Past(t, id);
    forall x | x in p.nodes ensures NodeOk(p, x) {
      assert NodeOk(t, x);
    }
    assert NodeOk(t, id);
  }

  /** Undoes the nearest ancestor the world takes back. */
  function Undo(t: Tree, log: seq<Event>, w: World): (walk: Walk)
    requires Shaped(t)
    ensures Shaped(walk.tree) && walk.tree.head <= t.head
    ensures walk.step.Some? ==> walk.tree.head < t.head
    ensures walk.step.None? ==> walk.tree.head == 0
    decreases t.head
  {
    if t.head == 0 then Walk(t, log, None)
    else
      var id, node := t.head, t.nodes[t.head];
      assert NodeOk(t, id);
      PastShaped(t, id);
      if Dead(node, id, w, |log|) then Undo(Past(t, id), log, w)
      else
        var events := Done(w, |log|, id, node.claims, true);
        var state := StateAfter(events, Undone);
        var u := WithState(t, id, state).(head := node.parent);
        assert forall x :: x in u.nodes ==> NodeOk(u, x) by {
          assert forall x :: x in t.nodes ==> NodeOk(t, x);
        }
        Walk(u, log + events, Some(Step([(id, true)], node.text, node.before, true, Failures(events))))
  }

  predicate Redoable(nodes: map<Id, Node>, head: Id, id: Id) {
    id in nodes && nodes[id].parent == head && nodes[id].state == Undone
  }

  /** The highest id below `k` that is an undone child of the cursor. */
  function NewestUndone(nodes: map<Id, Node>, head: Id, k: Id): (id: Option<Id>)
    ensures id.Some? ==> Redoable(nodes, head, id.value) && id.value < k && forall other: Id :: other < k && Redoable(nodes, head, other) ==> other <= id.value
    ensures id.None? ==> forall other: Id :: other < k ==> !Redoable(nodes, head, other)
  {
    if k == 0 then None
    else if Redoable(nodes, head, k - 1) then Some(k - 1)
    else NewestUndone(nodes, head, k - 1)
  }

  /** Makes a node's claims again and puts the cursor on it. */
  function Forward(t: Tree, log: seq<Event>, w: World, id: Id): (walk: Walk)
    requires Shaped(t) && id in t.nodes
    ensures Shaped(walk.tree)
  {
    var node := t.nodes[id];
    var events := Done(w, |log|, id, node.claims, false);
    PastShaped(t, id);
    var u := WithState(t, id, StateAfter(events, Applied)).(head := id);
    assert forall x :: x in u.nodes ==> NodeOk(u, x) by {
      assert forall x :: x in t.nodes ==> NodeOk(t, x);
    }
    Walk(u, log + events, Some(Step([(id, false)], node.text, node.after, false, Failures(events))))
  }

  /** Redoes the newest undone child of the cursor. */
  function Redo(t: Tree, log: seq<Event>, w: World): Walk
    requires Shaped(t)
  {
    match NewestUndone(t.nodes, t.head, t.next)
    case None => Walk(t, log, None)
    case Some(id) => Forward(t, log, w, id)
  }

  predicate CanUndo(nodes: map<Id, Node>, cur: Id)
    decreases cur
  {
    cur in nodes && (nodes[cur].state != Expired || (nodes[cur].parent < cur && CanUndo(nodes, nodes[cur].parent)))
  }

  // ---- travelling -------------------------------------------------------------------------------

  /** `from` and its ancestors, down to the beginning. */
  function Chain(nodes: map<Id, Node>, from: Id): (chain: seq<Id>)
    ensures chain != [] && chain[0] == from
    decreases from
  {
    if from in nodes && nodes[from].parent < from then [from] + Chain(nodes, nodes[from].parent) else [from]
  }

  /** The first of `a` that is also in `b`. */
  function FirstCommon(a: seq<Id>, b: seq<Id>): (id: Option<Id>)
    ensures id.Some? ==> id.value in a && id.value in b
    ensures id.None? ==> forall k :: 0 <= k < |a| ==> a[k] !in b
  {
    if a == [] then None else if a[0] in b then Some(a[0]) else FirstCommon(a[1..], b)
  }

  /** The part of a chain before `id`. */
  function Until(chain: seq<Id>, id: Id): seq<Id> {
    if chain == [] || chain[0] == id then [] else [chain[0]] + Until(chain[1..], id)
  }

  datatype Leg = Leg(tree: Tree, log: seq<Event>, visits: seq<(Id, bool)>, failed: seq<Claim>)

  /** Undoing until the cursor stands on `lca`, or nothing is left to walk. */
  function Climb(leg: Leg, w: World, lca: Id): (up: Leg)
    requires Shaped(leg.tree)
    ensures Shaped(up.tree) && up.tree.head <= leg.tree.head
    decreases leg.tree.head
  {
    if leg.tree.head == lca then leg
    else
      var walk := Undo(leg.tree, leg.log, w);
      match walk.step
      case Some(step) => Climb(Leg(walk.tree, walk.log, leg.visits + step.visits, leg.failed + step.failed), w, lca)
      case None =>
        var next := leg.(tree := walk.tree, log := walk.log);
        if walk.tree.head == leg.tree.head then next else Climb(next, w, lca)
  }

  /** Applying along `down`, from its end; expired nodes are walked past. */
  function Descend(leg: Leg, w: World, down: seq<Id>): (end: Leg)
    requires Shaped(leg.tree)
    ensures Shaped(end.tree)
    decreases |down|
  {
    if down == [] then leg
    else
      var id, rest := down[|down| - 1], down[..|down| - 1];
      Descend(StepDown(leg, w, id), w, rest)
  }

  function StepDown(leg: Leg, w: World, id: Id): (next: Leg)
    requires Shaped(leg.tree)
    ensures Shaped(next.tree)
  {
    if id !in leg.tree.nodes then leg
    else if leg.tree.nodes[id].state == Expired then
      assert forall x :: x in leg.tree.nodes ==> NodeOk(leg.tree.(head := id), x) by {
        assert forall x :: x in leg.tree.nodes ==> NodeOk(leg.tree, x);
      }
      leg.(tree := leg.tree.(head := id))
    else
      var walk := Forward(leg.tree, leg.log, w, id);
      Leg(walk.tree, walk.log, leg.visits + walk.step.value.visits, leg.failed + walk.step.value.failed)
  }

  predicate Bound(t: Tree, target: Id) {
    target != t.head && (target == 0 || target in t.nodes)
  }

  /** Where the paths to the cursor and to `target` part. */
  function Lca(t: Tree, target: Id): Option<Id> {
    FirstCommon(Chain(t.nodes, t.head), Chain(t.nodes, target))
  }

  /** The walk itself: up to where the paths part, then down the other branch. */
  function Journey(t: Tree, log: seq<Event>, w: World, target: Id, lca: Id): (end: Leg)
    requires Shaped(t)
    ensures Shaped(end.tree)
  {
    Descend(Climb(Leg(t, log, [], []), w, lca), w, Until(Chain(t.nodes, target), lca))
  }

  /** Whole seconds, towards zero. */
  function Whole(ts: real): int {
    if ts >= 0.0 then ts.Floor else -(-ts).Floor
  }

  /** Of the ids below `k`, the first of the earliest second. */
  function Earliest(nodes: map<Id, Node>, k: Id): (id: Option<Id>)
    ensures id.Some? ==> id.value in nodes
  {
    if k == 0 then None
    else
      var best := Earliest(nodes, k - 1);
      if k - 1 in nodes && (best.None? || Whole(nodes[k - 1].ts) < Whole(nodes[best.value].ts)) then Some(k - 1) else best
  }

  function EmptySnaps(n: nat): (snaps: seq<SpaceSnap>)
    ensures |snaps| == n
  {
    if n == 0 then [] else EmptySnaps(n - 1) + [SpaceSnap([], map[], map[], None)]
  }

  const EMPTY_SNAP := Snap(0, EmptySnaps(WS_N))

  function Beginning(t: Tree): Snap {
    match Earliest(t.nodes, t.next)
    case Some(id) => t.nodes[id].before
    case None => EMPTY_SNAP
  }

  /** The last node of `down` applied on the way, if any was. */
  function LastApplied(visits: seq<(Id, bool)>): Option<Id> {
    if visits == [] || visits[|visits| - 1].1 then None else Some(visits[|visits| - 1].0)
  }

  /** Walks to any node. */
  function Travel(t: Tree, log: seq<Event>, w: World, target: Id): (walk: Walk)
    requires Shaped(t)
    ensures Shaped(walk.tree)
  {
    if !Bound(t, target) || Lca(t, target).None? then Walk(t, log, None)
    else
      var end := Journey(t, log, w, target, Lca(t, target).value);
      if target == 0 then
        assert forall x :: x in end.tree.nodes ==> NodeOk(end.tree.(head := 0), x) by {
          assert forall x :: x in end.tree.nodes ==> NodeOk(end.tree, x);
        }
        Walk(end.tree.(head := 0), end.log, Some(Step(end.visits, "the beginning", Beginning(end.tree), true, end.failed)))
      else
        var at := match LastApplied(end.visits) case Some(id) => id case None => end.tree.head;
        if at in end.tree.nodes then
          var node := end.tree.nodes[at];
          Walk(end.tree, end.log, Some(Step(end.visits, node.text, node.after, false, end.failed)))
        else Walk(end.tree, end.log, None)
  }
}
