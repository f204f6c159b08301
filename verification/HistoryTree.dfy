/** What recording, undoing and redoing keep of the tree. */
module HistoryTree {
  import opened Base
  import opened HistoryModel

  // ---- paths ---------------------------------------------------------------------

  lemma {:induction false} PathBelow(nodes: map<Id, Node>, cur: Id, id: Id)
    requires OnPath(nodes, cur, id)
    ensures id <= cur && id in nodes
    decreases cur
  {
    if cur != id {
      PathBelow(nodes, nodes[cur].parent, id);
    }
  }

  predicate SameShape(a: map<Id, Node>, b: map<Id, Node>) {
    a.Keys == b.Keys && forall id :: id in a ==> a[id].parent == b[id].parent
  }

  lemma {:induction false} PathSame(a: map<Id, Node>, b: map<Id, Node>, cur: Id, id: Id)
    requires SameShape(a, b)
    ensures OnPath(a, cur, id) <==> OnPath(b, cur, id)
    decreases cur
  {
    if cur in a && cur != id && a[cur].parent < cur {
      PathSame(a, b, a[cur].parent, id);
    }
  }

  /** The path from a node is the node and the path from its parent. */
  lemma PathStep(nodes: map<Id, Node>, cur: Id, id: Id)
    requires cur in nodes && nodes[cur].parent < cur
    ensures OnPath(nodes, cur, id) <==> id == cur || OnPath(nodes, nodes[cur].parent, id)
    ensures !OnPath(nodes, nodes[cur].parent, cur)
  {
    if OnPath(nodes, nodes[cur].parent, cur) {
      PathBelow(nodes, nodes[cur].parent, cur);
    }
  }

  /** Only the state of one node changed, and the cursor's path with it. */
  ghost predicate Moved(t: Tree, u: Tree, id: Id) {
    && SameShape(t.nodes, u.nodes) && u.next == t.next
    && (u.head == 0 || u.head in u.nodes)
    && id in t.nodes
    && (forall x :: x in t.nodes && x != id ==> u.nodes[x].state == t.nodes[x].state)
    && (forall x :: x in t.nodes && x != id ==> OnPath(t.nodes, t.head, x) == OnPath(t.nodes, u.head, x))
    && (if OnPath(t.nodes, u.head, id) then u.nodes[id].state != Undone else u.nodes[id].state != Applied)
  }

  lemma MovedSound(t: Tree, u: Tree, id: Id)
    requires Sound(t) && Moved(t, u, id)
    ensures Sound(u)
  {
    hide OnPath;
    assert |t.nodes| == |t.nodes.Keys| == |u.nodes.Keys| == |u.nodes|;
    forall x | x in u.nodes ensures NodeOk(u, x) && StateOk(u, x) {
      assert NodeOk(t, x) && StateOk(t, x);
      PathSame(t.nodes, u.nodes, u.head, x);
    }
  }

  // ---- recording ----------------------------------------------------------------------

  lemma {:induction false} PathGrown(t: Tree, a: Action, cur: Id, id: Id)
    requires Shaped(t) && cur < t.next && id != t.next
    ensures OnPath(Grown(t, a).nodes, cur, id) <==> OnPath(t.nodes, cur, id)
    decreases cur
  {
    if cur in t.nodes && cur != id && t.nodes[cur].parent < cur {
      PathGrown(t, a, t.nodes[cur].parent, id);
    }
  }

  lemma GrownPathOk(t: Tree, a: Action)
    requires Shaped(t) && PathOk(t)
    ensures Shaped(Grown(t, a)) && PathOk(Grown(t, a))
  {
    var g := Grown(t, a);
    GrownShaped(t, a);
    assert t.head in t.nodes ==> NodeOk(t, t.head);
    forall id | id in g.nodes ensures StateOk(g, id) {
      PathStep(g.nodes, g.head, id);
      if id != t.next {
        assert StateOk(t, id) && NodeOk(t, id);
        PathGrown(t, a, t.head, id);
      }
    }
  }

  predicate Lowest(t: Tree, oldest: Id) {
    oldest in t.nodes && forall id :: id in t.nodes ==> oldest <= id
  }

  /** Dropping the oldest takes it off every path and nothing else. */
  lemma {:induction false} PathDropped(t: Tree, oldest: Id, cur: Id, id: Id)
    requires Shaped(t) && Lowest(t, oldest) && cur != oldest
    ensures OnPath(Drop(t, oldest).nodes, cur, id) <==> OnPath(t.nodes, cur, id) && id != oldest
    decreases cur
  {
    if cur in t.nodes && cur != id {
      assert NodeOk(t, cur);
      var parent := t.nodes[cur].parent;
      if parent == oldest {
        assert NodeOk(t, oldest);
        assert !OnPath(Drop(t, oldest).nodes, 0, id);
        RootPath(t, oldest, id);
      } else {
        PathDropped(t, oldest, parent, id);
      }
    }
  }

  lemma RootPath(t: Tree, oldest: Id, id: Id)
    requires Shaped(t) && Lowest(t, oldest)
    ensures OnPath(t.nodes, oldest, id) <==> id == oldest
    ensures !OnPath(t.nodes, 0, id)
  {
    assert NodeOk(t, oldest);
    ZeroPath(t, id);
  }

  lemma DropPathOk(t: Tree, oldest: Id)
    requires Shaped(t) && PathOk(t) && Lowest(t, oldest)
    ensures Shaped(Drop(t, oldest)) && PathOk(Drop(t, oldest))
  {
    hide OnPath;
    var d := Drop(t, oldest);
    DropShaped(t, oldest);
    forall id | id in d.nodes ensures StateOk(d, id) {
      assert StateOk(t, id);
      RootPath(t, oldest, id);
      RootPath(t, oldest, oldest);
      if t.head == oldest {
        ZeroPath(d, id);
      } else {
        PathDropped(t, oldest, t.head, id);
      }
    }
  }

  lemma ZeroPath(t: Tree, id: Id)
    requires Shaped(t)
    ensures !OnPath(t.nodes, 0, id)
  {
  }

  lemma {:induction false} TrimSound(t: Tree)
    requires Shaped(t) && PathOk(t)
    ensures Sound(Trim(t))
    decreases |t.nodes|
  {
    hide PathOk;
    if |t.nodes| > KEEP {
      SomeNode(t);
      var oldest := Oldest(t.nodes, 0, t.next);
      DropSmaller(t, oldest);
      DropPathOk(t, oldest);
      TrimSound(Drop(t, oldest));
    }
  }

  /** Changing what a node says, and not its parent or its state, changes nothing else. */
  lemma TouchedSound(t: Tree, node: Node)
    requires Sound(t) && t.head in t.nodes
    requires node.parent == t.nodes[t.head].parent && (node.state == t.nodes[t.head].state || node.state == Expired)
    ensures Sound(t.(nodes := t.nodes[t.head := node]))
  {
    hide OnPath;
    var u := t.(nodes := t.nodes[t.head := node]);
    assert StateOk(t, t.head);
    PathHead(t);
    MovedSound(t, u, t.head);
  }

  lemma PathHead(t: Tree)
    requires t.head in t.nodes
    ensures OnPath(t.nodes, t.head, t.head)
  {
  }

  lemma ApplySound(t: Tree, a: Action)
    requires Sound(t)
    ensures Sound(Apply(t, a))
  {
    hide OnPath, Trim, PathOk;
    if t.head in t.nodes && Coalesces(t.nodes[t.head], a) {
      TouchedSound(t, Amended(t.nodes[t.head], a));
    } else {
      GrownPathOk(t, a);
      TrimSound(Grown(t, a));
    }
  }

  lemma AmendSound(t: Tree, a: Action)
    requires Sound(t)
    ensures Sound(Amend(t, a))
  {
    hide Sound, Apply;
    if t.head in t.nodes && t.nodes[t.head].state == Applied {
      TouchedSound(t, Amended(t.nodes[t.head], a));
    } else {
      ApplySound(t, a);
    }
  }

  lemma ClaimSound(t: Tree)
    requires Sound(t)
    ensures Sound(ClaimOne(t))
  {
    hide Sound;
    if t.head in t.nodes {
      TouchedSound(t, t.nodes[t.head].(claims := t.nodes[t.head].claims + 1));
    }
  }

  lemma ClaimAtSound(t: Tree, id: Id, n: nat)
    requires Sound(t)
    ensures Sound(ClaimAt(t, id, n))
  {
    hide OnPath;
    var u := ClaimAt(t, id, n);
    assert u.nodes.Keys == t.nodes.Keys;
    assert |u.nodes| == |u.nodes.Keys| == |t.nodes.Keys| == |t.nodes|;
    forall x | x in u.nodes ensures NodeOk(u, x) && StateOk(u, x) {
      assert NodeOk(t, x) && StateOk(t, x);
      PathSame(t.nodes, u.nodes, t.head, x);
    }
  }

  lemma ExpireSound(t: Tree)
    requires Sound(t)
    ensures Sound(ExpireCurrent(t))
  {
    hide Sound;
    if t.head in t.nodes {
      TouchedSound(t, t.nodes[t.head].(state := Expired));
    }
  }

  // ---- walking -----------------------------------------------------------------------------

  /** The cursor moved to the parent of its node, which is no longer applied. */
  lemma BackSound(t: Tree, state: State)
    requires Sound(t) && t.head in t.nodes && state != Applied
    ensures Sound(WithState(t, t.head, state).(head := t.nodes[t.head].parent))
  {
    hide OnPath;
    var id := t.head;
    var u := WithState(t, id, state).(head := t.nodes[id].parent);
    assert NodeOk(t, id);
    forall x ensures OnPath(t.nodes, id, x) <==> x == id || OnPath(t.nodes, u.head, x) {
      PathStep(t.nodes, id, x);
    }
    PathStep(t.nodes, id, id);
    MovedSound(t, u, id);
  }

  /** The cursor moved to a child, which is no longer undone. */
  lemma ForthSound(t: Tree, id: Id, state: State)
    requires Sound(t) && id in t.nodes && t.nodes[id].parent == t.head && state != Undone
    ensures Sound(WithState(t, id, state).(head := id))
  {
    hide OnPath;
    var u := WithState(t, id, state).(head := id);
    assert NodeOk(t, id);
    forall x ensures OnPath(t.nodes, id, x) <==> x == id || OnPath(t.nodes, t.head, x) {
      PathStep(t.nodes, id, x);
    }
    MovedSound(t, u, id);
  }

  lemma {:induction false} UndoSound(t: Tree, log: seq<Event>, w: World)
    requires Sound(t)
    ensures Sound(Undo(t, log, w).tree)
    decreases t.head
  {
    hide PathOk, Dead;
    if t.head != 0 {
      var id := t.head;
      assert NodeOk(t, id);
      BackSound(t, Expired);
      BackSound(t, Undone);
      if Dead(t.nodes[id], id, w, |log|) {
        UndoSound(Past(t, id), log, w);
      }
    }
  }

  lemma RedoSound(t: Tree, log: seq<Event>, w: World)
    requires Sound(t)
    ensures Sound(Redo(t, log, w).tree)
  {
    hide PathOk;
    var id := NewestUndone(t.nodes, t.head, t.next);
    if id.Some? {
      ForthSound(t, id.value, Applied);
      ForthSound(t, id.value, Expired);
    }
  }
}
