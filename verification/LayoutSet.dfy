/** The nine workspaces: moves between them, snapshots, and numbers never minted twice. */
module LayoutSet {
  import opened Base
  import opened LayoutModel
  import opened LayoutColumns
  import opened LayoutInvariant
  import opened LayoutClose
  import opened LayoutOpen
  import opened LayoutOps
  import G = LayoutGeometry

  const WS_N: nat := 9

  /** How many numbers each workspace has to mint from. */
  const RANGE: nat := 0x1_0000_0000

  datatype Spaces = Spaces(wss: seq<Space>, active: nat)

  /** One workspace's logical state: no camera, grid, wishes, widths or counter. */
  datatype SpaceSnap = SpaceSnap(
    columns: seq<Column>, slots: map<SlotId, PanelId>, joins: map<SlotId, SlotId>, focus: Option<SlotId>)

  datatype Snap = Snap(active: nat, wss: seq<SpaceSnap>)

  // ---- operations ----------------------------------------------------------------------

  function NewSpace(k: nat): Space {
    EMPTY.(nextId := k * RANGE)
  }

  function NewSpaces(n: nat): (r: seq<Space>)
    ensures |r| == n && forall k :: 0 <= k < n ==> r[k] == NewSpace(k)
  {
    if n == 0 then [] else NewSpaces(n - 1) + [NewSpace(n - 1)]
  }

  function NewSet(): Spaces {
    Spaces(NewSpaces(WS_N), 0)
  }

  function Switch(m: Spaces, k: nat): Spaces {
    if k >= WS_N || k == m.active then m else m.(active := k)
  }

  /** The first workspace that shows a slot. */
  function WsOf(wss: seq<Space>, sid: SlotId): (r: Option<nat>)
    ensures r.Some? ==> r.value < |wss| && sid in wss[r.value].slots
    ensures r.None? ==> forall k :: 0 <= k < |wss| ==> sid !in wss[k].slots
  {
    if wss == [] then None
    else if sid in wss[0].slots then Some(0)
    else
      assert forall k :: 0 < k < |wss| ==> wss[k] == wss[1..][k - 1];
      match WsOf(wss[1..], sid) case None => None case Some(k) => Some(k + 1)
  }

  /** A slot arriving from elsewhere: a trailing column of its own, focused. */
  function Arrive(s: Space, sid: SlotId, show: PanelId): Space {
    Normalize(s.(slots := s.slots[sid := show], columns := s.columns + [Alone(sid)], focus := Some(sid)))
  }

  predicate CanSend(m: Spaces, k: nat)
    requires m.active < |m.wss|
  {
    && k < WS_N && k != m.active && m.wss[m.active].focus.Some?
    && Locate(m.wss[m.active].columns, m.wss[m.active].focus.value).Some?
    && m.wss[m.active].focus.value in m.wss[m.active].slots
  }

  /** The focused slot moves to workspace `k`, and the view with it. */
  function SendFocusedTo(m: Spaces, k: nat): Spaces
    requires m.active < |m.wss| && |m.wss| == WS_N
  {
    if !CanSend(m, k) then m
    else
      var from := m.wss[m.active];
      var sid := from.focus.value;
      Spaces(m.wss[m.active := Detach(from, sid)][k := Arrive(m.wss[k], sid, from.slots[sid])], k)
  }

  function CloseIn(m: Spaces, sid: SlotId): Spaces {
    match WsOf(m.wss, sid)
    case None => m
    case Some(k) => m.(wss := m.wss[k := Close(m.wss[k], sid)])
  }

  ghost function UnjoinIn(m: Spaces, sid: SlotId): Spaces {
    match WsOf(m.wss, sid)
    case None => m
    case Some(k) => m.(wss := m.wss[k := Unjoin(m.wss[k], sid)])
  }

  function FocusSlot(m: Spaces, sid: SlotId): Spaces {
    match WsOf(m.wss, sid)
    case None => m
    case Some(k) => Spaces(m.wss[k := m.wss[k].(focus := Some(sid))], k)
  }

  // ---- snapshots ------------------------------------------------------------------------

  function SnapOf(s: Space): SpaceSnap {
    SpaceSnap(s.columns, s.slots, s.joins, s.focus)
  }

  function SnapsOf(wss: seq<Space>): (r: seq<SpaceSnap>)
    ensures |r| == |wss| && forall k :: 0 <= k < |r| ==> r[k] == SnapOf(wss[k])
  {
    if wss == [] then [] else [SnapOf(wss[0])] + SnapsOf(wss[1..])
  }

  function Snapshot(m: Spaces): Snap {
    Snap(m.active, SnapsOf(m.wss))
  }

  /** The range a number was minted in. */
  function Home(id: SlotId): nat {
    id / RANGE
  }

  /** Every slot a snapshot shows, in any workspace. */
  function IdsIn(wss: seq<SpaceSnap>): set<SlotId> {
    if wss == [] then {} else wss[0].slots.Keys + IdsIn(wss[1..])
  }

  /** The greatest number of range `k` among `ids`, or 0. */
  ghost function MaxHome(ids: set<SlotId>, k: nat): (m: nat)
    ensures forall id :: id in ids && Home(id) == k ==> id <= m
    ensures m == 0 || (m in ids && Home(m) == k)
  {
    var mine := set id | id in ids && Home(id) == k;
    assert forall id :: id in ids && Home(id) == k ==> id in mine;
    if mine == {} then 0
    else
      GreatestExists(mine);
      var m :| m in mine && forall id :: id in mine ==> id <= m;
      m
  }

  lemma GreatestExists(s: set<SlotId>)
    requires s != {}
    ensures exists m :: m in s && forall id :: id in s ==> id <= m
  {
    var y :| y in s;
    if s == {y} {
      assert forall x :: x in s ==> x <= y;
    } else {
      GreatestExists(s - {y});
      var m :| m in s - {y} && forall x :: x in s - {y} ==> x <= m;
      var greatest := if y < m then m else y;
      forall x | x in s ensures x <= greatest {
        assert x == y || x in s - {y};
      }
      assert greatest in s;
    }
  }

  /** A workspace rebuilt from its snapshot, minting on above `next`. */
  function RestoreSpace(w: SpaceSnap, next: nat): Space {
    var focus := if w.focus.Some? && w.focus.value in w.slots then w.focus else None;
    Settle(Space(next, DESKTOP, w.columns, w.slots, w.joins, focus, 0.0, map[], map[]))
  }

  ghost function RestoreAll(snap: Snap, n: nat): (r: seq<Space>)
    ensures |r| == n
    ensures forall k :: 0 <= k < n ==> r[k] == RestoreOne(snap, k)
  {
    seq(n, k requires 0 <= k < n => RestoreOne(snap, k))
  }

  ghost function RestoreOne(snap: Snap, k: nat): Space {
    if k < |snap.wss| then RestoreSpace(snap.wss[k], Max(k * RANGE, MaxHome(IdsIn(snap.wss), k))) else NewSpace(k)
  }

  /** Boot restore. */
  ghost function Restore(snap: Snap): Spaces {
    Spaces(RestoreAll(snap, WS_N), Min(snap.active, WS_N - 1))
  }

  /** What a restored workspace takes over from the live one: display, and its counter. */
  function KeepLive(restored: Space, live: Space): Space {
    restored.(camera := live.camera, grid := live.grid, wishes := live.wishes, nextId := Max(restored.nextId, live.nextId))
  }

  function KeepAll(restored: seq<Space>, live: seq<Space>): (r: seq<Space>)
    requires |restored| == |live|
    ensures |r| == |live| && forall k :: 0 <= k < |r| ==> r[k] == KeepLive(restored[k], live[k])
  {
    if live == [] then [] else [KeepLive(restored[0], live[0])] + KeepAll(restored[1..], live[1..])
  }

  /** History: the snapshot's layout, under the live display and counters. */
  ghost function ApplySnapshot(m: Spaces, snap: Snap): Spaces
    requires |m.wss| == WS_N
  {
    var restored := Restore(snap);
    Spaces(KeepAll(restored.wss, m.wss), restored.active)
  }

  // ---- the invariant of the set -----------------------------------------------------------

  /** Minted by some workspace, and not later than its counter says. */
  predicate Known(id: SlotId, wss: seq<Space>) {
    Home(id) < |wss| && Home(id) * RANGE < id <= wss[Home(id)].nextId
  }

  predicate Apart(wss: seq<Space>) {
    forall j, k, id :: 0 <= j < |wss| && 0 <= k < |wss| && id in wss[j].slots && id in wss[k].slots ==> j == k
  }

  /** Every workspace keeps its invariant, every live slot was minted, and no
      slot lives in two workspaces. */
  predicate SetInv(m: Spaces) {
    && |m.wss| == WS_N && m.active < WS_N
    && (forall k :: 0 <= k < WS_N ==> Inv(m.wss[k]) && k * RANGE <= m.wss[k].nextId)
    && (forall k, id :: 0 <= k < WS_N && id in m.wss[k].slots ==> Known(id, m.wss))
    && Apart(m.wss)
  }

  /** No counter has left its range: fewer than 2^32 mints in each workspace. */
  predicate InRange(m: Spaces) {
    forall k :: 0 <= k < |m.wss| ==> m.wss[k].nextId < (k + 1) * RANGE
  }

  /** Counters only move forward. */
  predicate Forward(a: seq<Space>, b: seq<Space>) {
    |a| == |b| && forall k :: 0 <= k < |a| ==> a[k].nextId <= b[k].nextId
  }

  lemma KnownForward(id: SlotId, a: seq<Space>, b: seq<Space>)
    requires Known(id, a) && Forward(a, b)
    ensures Known(id, b)
  {
    hide Home;
  }

  lemma NewSetInv()
    ensures SetInv(NewSet()) && InRange(NewSet())
  {
    hide Inv;
    forall k | 0 <= k < WS_N ensures Inv(NewSpace(k)) {
      EmptyInv(k * RANGE);
    }
  }

  /** While a counter is in its range, the next number is nobody's. */
  lemma NextIsFresh(m: Spaces, k: nat)
    requires SetInv(m) && k < WS_N && m.wss[k].nextId < (k + 1) * RANGE
    ensures !Known(m.wss[k].nextId + 1, m.wss)
    ensures Fresh(m.wss[k])
  {
    hide Inv;
    var id := m.wss[k].nextId + 1;
    HomeIs(id, if id < (k + 1) * RANGE then k else k + 1);
  }

  lemma HomeIs(id: SlotId, k: nat)
    requires k * RANGE <= id < (k + 1) * RANGE
    ensures Home(id) == k
  {
  }

  /** One workspace changed by an operation of its own. */
  lemma OneChanged(m: Spaces, k: nat, t: Space)
    requires SetInv(m) && k < WS_N && Inv(t) && MintsAtMostOne(m.wss[k], t)
    requires t.nextId < (k + 1) * RANGE
    ensures SetInv(m.(wss := m.wss[k := t])) && Forward(m.wss, m.wss[k := t])
    ensures t.nextId == m.wss[k].nextId + 1 ==> Known(t.nextId, m.wss[k := t]) && !Known(t.nextId, m.wss)
  {
    hide Inv, Home;
    var s, wss := m.wss[k], m.wss[k := t];
    if t.nextId == s.nextId + 1 {
      NextIsFresh(m, k);
      HomeIs(t.nextId, k);
    }
    forall j, id | 0 <= j < WS_N && id in wss[j].slots ensures Known(id, wss) {
      if id in m.wss[j].slots {
        KnownForward(id, m.wss, wss);
      }
    }
    forall i, j, id | 0 <= i < WS_N && 0 <= j < WS_N && id in wss[i].slots && id in wss[j].slots ensures i == j {
      if id !in m.wss[i].slots || id !in m.wss[j].slots {
        assert id == s.nextId + 1 && !Known(id, m.wss);
      }
    }
  }

  // ---- moving between workspaces ------------------------------------------------------------

  lemma ArriveInv(s: Space, sid: SlotId, show: PanelId)
    requires Inv(s) && sid !in s.slots
    ensures var t := Arrive(s, sid, show);
      && Inv(t) && t.slots == s.slots[sid := show] && t.joins == s.joins && t.focus == Some(sid)
      && t.nextId == s.nextId && Others(t.columns, {sid}) == Others(s.columns, {sid})
      && t.columns != [] && t.columns[|t.columns| - 1].slots == [sid]
  {
    hide Bag, Others, Normalize, Adjacent, InsertAt;
    var cols := s.columns + [Alone(sid)];
    AppendAdds(s.columns, sid);
    AddedBag(s.columns, cols, sid, |s.columns|);
    SlotsGrow(s.slots, sid, show);
    var u := s.(slots := s.slots[sid := show], columns := cols, focus := Some(sid));
    forall p | p in s.joins ensures Adjacent(cols, p, s.joins[p]) {
      assert Adjacent(s.columns, p, s.joins[p]);
      AdjacentThen(s.columns, [Alone(sid)], p, s.joins[p]);
    }
    NormalizeInv(u);
    SameListsAgree(Normalize(u).columns, cols);
  }

  lemma AdjacentThen(a: seq<Column>, b: seq<Column>, p: SlotId, q: SlotId)
    requires Adjacent(a, p, q)
    ensures Adjacent(a + b, p, q)
  {
    ColOfConcat(a, b, p);
    ColOfConcat(a, b, q);
  }

  /** Sending takes the focused slot out of its workspace, as closing it would,
      and puts it, with its number and panel, in a column of its own at the end
      of another; no other slot moves in either, and no other join breaks. */
  lemma SendKeeps(m: Spaces, k: nat)
    requires SetInv(m) && CanSend(m, k)
    ensures var t, sid := SendFocusedTo(m, k), m.wss[m.active].focus.value;
      && SetInv(t) && t.active == k && Forward(m.wss, t.wss)
      && sid !in m.wss[k].slots
      && t.wss[m.active].slots == m.wss[m.active].slots - {sid}
      && t.wss[k].slots == m.wss[k].slots[sid := m.wss[m.active].slots[sid]] && t.wss[k].focus == Some(sid)
      && (forall j :: 0 <= j < WS_N && j != k && j != m.active ==> t.wss[j] == m.wss[j])
      && (forall j :: 0 <= j < WS_N ==> t.wss[j].nextId == m.wss[j].nextId)
      && ClosedExactly(m.wss[m.active], t.wss[m.active], {sid})
      && t.wss[m.active].focus == FallFrom(m.wss[m.active].columns, sid)
      && t.wss[k].joins == m.wss[k].joins && Others(t.wss[k].columns, {sid}) == Others(m.wss[k].columns, {sid})
      && t.wss[k].columns != [] && t.wss[k].columns[|t.wss[k].columns| - 1].slots == [sid]
  {
    hide Inv, Bag, Others, Locate, Detach, Arrive, ThinAll, Without, Home;
    var from := m.wss[m.active];
    var sid := from.focus.value;
    DetachExactly(from, sid);
    assert sid !in m.wss[k].slots;
    ArriveInv(m.wss[k], sid, from.slots[sid]);
    var t := SendFocusedTo(m, k);
    forall j, id | 0 <= j < WS_N && id in t.wss[j].slots ensures Known(id, t.wss) {
      if j == k && id == sid {
        KnownForward(id, m.wss, t.wss);
      } else {
        assert id in m.wss[j].slots;
        KnownForward(id, m.wss, t.wss);
      }
    }
    forall i, j, id | 0 <= i < WS_N && 0 <= j < WS_N && id in t.wss[i].slots && id in t.wss[j].slots ensures i == j {
      SentFrom(m, k, i, id);
      SentFrom(m, k, j, id);
    }
  }

  /** Where a slot was before a sending. */
  lemma SentFrom(m: Spaces, k: nat, i: nat, id: SlotId)
    requires SetInv(m) && CanSend(m, k) && i < WS_N
    requires id in SendFocusedTo(m, k).wss[i].slots
    requires var from := m.wss[m.active];
      var sid := from.focus.value;
      Detach(from, sid).slots == from.slots - {sid} && Arrive(m.wss[k], sid, from.slots[sid]).slots == m.wss[k].slots[sid := from.slots[sid]]
    ensures id == m.wss[m.active].focus.value ==> i == k
    ensures id != m.wss[m.active].focus.value ==> id in m.wss[i].slots
  {
    hide Inv, Locate, Detach, Arrive, Home;
  }

  // ---- restoring ---------------------------------------------------------------------------------

  lemma {:induction false} IdsInSnaps(wss: seq<Space>, id: SlotId)
    ensures id in IdsIn(SnapsOf(wss)) <==> exists k :: 0 <= k < |wss| && id in wss[k].slots
  {
    if wss != [] {
      assert SnapsOf(wss)[1..] == SnapsOf(wss[1..]);
      IdsInSnaps(wss[1..], id);
      if k :| 0 <= k < |wss[1..]| && id in wss[1..][k].slots {
        assert id in wss[k + 1].slots;
      }
      if k :| 0 <= k < |wss| && id in wss[k].slots {
        if k > 0 {
          assert id in wss[1..][k - 1].slots;
        }
      }
    }
  }

  /** A restored workspace is the normalized one, under a fresh display. */
  lemma RestoreSpaceIs(s: Space, next: nat)
    requires Inv(s)
    ensures var t := RestoreSpace(SnapOf(s), next);
      && t == Normalize(s).(nextId := next, grid := DESKTOP, camera := 0.0, wishes := map[], widths := map[])
      && Inv(t)
  {
    hide Bag, Locate, Adjacent, NonEmpty;
    var u := s.(nextId := next, grid := DESKTOP, camera := 0.0, wishes := map[], widths := map[]);
    assert Inv(u);
    LiveStays(u);
    NormalizeInv(u);
  }

  /** Every restored counter is at or above every live number of its range. */
  lemma RestoredNext(m: Spaces, k: nat)
    requires SetInv(m) && k < WS_N
    ensures var next := Max(k * RANGE, MaxHome(IdsIn(SnapsOf(m.wss)), k));
      && k * RANGE <= next <= m.wss[k].nextId
      && forall j, id :: 0 <= j < WS_N && id in m.wss[j].slots && Home(id) == k ==> id <= next
  {
    hide Inv, Apart, IdsIn;
    var ids := IdsIn(SnapsOf(m.wss));
    var top := MaxHome(ids, k);
    if top != 0 {
      IdsInSnaps(m.wss, top);
      assert Known(top, m.wss);
    }
    forall j, id | 0 <= j < WS_N && id in m.wss[j].slots && Home(id) == k ensures id <= Max(k * RANGE, top) {
      IdsInSnaps(m.wss, id);
    }
  }

  /** Restoring a snapshot of any reachable set gives that set with every
      workspace normalized, counters still above every live number, and the
      next snapshot is the snapshot of the normalized set. */
  lemma RestoreSnapshot(m: Spaces)
    requires SetInv(m)
    ensures var r := Restore(Snapshot(m));
      && SetInv(r) && r.active == m.active && Forward(r.wss, m.wss)
      && forall k :: 0 <= k < WS_N ==>
           r.wss[k] == Normalize(m.wss[k]).(nextId := r.wss[k].nextId, grid := DESKTOP, camera := 0.0,
                                            wishes := map[], widths := map[])
  {
    hide Inv, Normalize, RestoreSpace, SnapOf, IdsIn, Home, MaxHome;
    var r := Restore(Snapshot(m));
    forall k | 0 <= k < WS_N
      ensures Inv(r.wss[k]) && k * RANGE <= r.wss[k].nextId <= m.wss[k].nextId && r.wss[k].slots == m.wss[k].slots
      ensures forall j, id :: 0 <= j < WS_N && id in m.wss[j].slots && Home(id) == k ==> id <= r.wss[k].nextId
      ensures r.wss[k] == Normalize(m.wss[k]).(nextId := r.wss[k].nextId, grid := DESKTOP, camera := 0.0,
                                               wishes := map[], widths := map[])
    {
      RestoredNext(m, k);
      RestoreSpaceIs(m.wss[k], Max(k * RANGE, MaxHome(IdsIn(SnapsOf(m.wss)), k)));
      NormalizeInv(m.wss[k]);
    }
    forall k, id | 0 <= k < WS_N && id in r.wss[k].slots ensures Known(id, r.wss) {
      assert id in m.wss[k].slots && Known(id, m.wss);
    }
  }

  /** The set with every workspace normalized. */
  function NormalizeAll(wss: seq<Space>): (r: seq<Space>)
    ensures |r| == |wss| && forall k :: 0 <= k < |r| ==> r[k] == Normalize(wss[k])
  {
    if wss == [] then [] else [Normalize(wss[0])] + NormalizeAll(wss[1..])
  }

  /** Snapshot, restore, snapshot: the round trip is exact up to normalizing,
      so exact on a set whose workspaces are normalized. */
  lemma SnapshotRoundTrip(m: Spaces)
    requires SetInv(m)
    ensures Snapshot(Restore(Snapshot(m))) == Snapshot(Spaces(NormalizeAll(m.wss), m.active))
    ensures (forall k :: 0 <= k < WS_N ==> Normalize(m.wss[k]) == m.wss[k]) ==>
      Snapshot(Restore(Snapshot(m))) == Snapshot(m)
  {
    hide Restore, Normalize;
    RestoreSnapshot(m);
    var r := Restore(Snapshot(m));
    assert SnapsOf(r.wss) == SnapsOf(NormalizeAll(m.wss));
    if forall k :: 0 <= k < WS_N ==> Normalize(m.wss[k]) == m.wss[k] {
      assert SnapsOf(NormalizeAll(m.wss)) == SnapsOf(m.wss);
    }
  }

  // ---- sessions --------------------------------------------------------------------------------------

  datatype Command =
    | Do(op: Op)
    | DoClose(slot: SlotId)
    | DoUnjoin(slot: SlotId)
    | DoFocus(slot: SlotId)
    | DoSwitch(k: nat)
    | DoSend(k: nat)
    | TakeSnapshot
    | UseSnapshot(i: nat)

  /** A live session: the set, the snapshots history holds, every number minted. */
  datatype Session = Session(wm: Spaces, snaps: seq<Snap>, minted: seq<SlotId>)

  ghost const BEGINNING := Session(NewSet(), [], [])

  /** The wm after an operation of the active workspace, and what it minted. */
  ghost function DoOp(x: Session, op: Op): Session
    requires x.wm.active < |x.wm.wss|
  {
    var s := x.wm.wss[x.wm.active];
    var t := Apply(s, op);
    x.(wm := x.wm.(wss := x.wm.wss[x.wm.active := t]),
       minted := if t.nextId != s.nextId then x.minted + [t.nextId] else x.minted)
  }

  ghost function Perform(x: Session, c: Command): Session
    requires |x.wm.wss| == WS_N && x.wm.active < WS_N
  {
    match c
    case Do(op) => DoOp(x, op)
    case DoClose(sid) => x.(wm := CloseIn(x.wm, sid))
    case DoUnjoin(sid) => x.(wm := UnjoinIn(x.wm, sid))
    case DoFocus(sid) => x.(wm := FocusSlot(x.wm, sid))
    case DoSwitch(k) => x.(wm := Switch(x.wm, k))
    case DoSend(k) => x.(wm := SendFocusedTo(x.wm, k))
    case TakeSnapshot => x.(snaps := x.snaps + [Snapshot(x.wm)])
    case UseSnapshot(i) => if i < |x.snaps| then x.(wm := ApplySnapshot(x.wm, x.snaps[i])) else x
  }

  /** A snapshot taken when the set kept its invariant, of numbers minted by now. */
  ghost predicate FromHere(snap: Snap, wss: seq<Space>) {
    exists m :: SetInv(m) && snap == Snapshot(m) && Forward(m.wss, wss)
  }

  ghost predicate SessionInv(x: Session) {
    && SetInv(x.wm)
    && (forall i :: 0 <= i < |x.snaps| ==> FromHere(x.snaps[i], x.wm.wss))
    && (forall i :: 0 <= i < |x.minted| ==> Known(x.minted[i], x.wm.wss))
    && (forall i, j :: 0 <= i < j < |x.minted| ==> x.minted[i] != x.minted[j])
  }

  lemma ForwardThen(a: seq<Space>, b: seq<Space>, c: seq<Space>)
    requires Forward(a, b) && Forward(b, c)
    ensures Forward(a, c)
  {
  }

  lemma StillFromHere(snap: Snap, a: seq<Space>, b: seq<Space>)
    requires FromHere(snap, a) && Forward(a, b)
    ensures FromHere(snap, b)
  {
    hide SetInv, Forward;
    var m :| SetInv(m) && snap == Snapshot(m) && Forward(m.wss, a);
    ForwardThen(m.wss, a, b);
  }

  /** A step that mints nothing, keeps the set's invariant and no counter back. */
  lemma QuietStep(x: Session, y: Session)
    requires SessionInv(x) && SetInv(y.wm) && Forward(x.wm.wss, y.wm.wss)
    requires y.snaps == x.snaps && y.minted == x.minted
    ensures SessionInv(y)
  {
    hide SetInv, Known, Forward, FromHere;
    forall i | 0 <= i < |y.snaps| ensures FromHere(y.snaps[i], y.wm.wss) {
      StillFromHere(x.snaps[i], x.wm.wss, y.wm.wss);
    }
    forall i | 0 <= i < |y.minted| ensures Known(y.minted[i], y.wm.wss) {
      KnownForward(x.minted[i], x.wm.wss, y.wm.wss);
    }
  }

  lemma MintingStep(x: Session, y: Session, id: SlotId)
    requires SessionInv(x) && SetInv(y.wm) && Forward(x.wm.wss, y.wm.wss)
    requires y.snaps == x.snaps && y.minted == x.minted + [id]
    requires !Known(id, x.wm.wss) && Known(id, y.wm.wss)
    ensures SessionInv(y)
  {
    hide SetInv, Known, Forward, FromHere;
    QuietStep(x, y.(minted := x.minted));
  }

  // ---- counters only move forward ------------------------------------------------------------------------

  predicate Shaped(m: Spaces) {
    |m.wss| == WS_N && m.active < WS_N
  }

  lemma ApplyCounts(s: Space, op: Op)
    ensures s.nextId <= Apply(s, op).nextId <= s.nextId + 1
  {
    hide Open, Replace, Close, Unjoin, ConsumeOrExpel, ConsumeFromRight, ExpelBottom, ToggleTabbed, MoveSlot, Place,
         Raise, G.FocusDir, G.Scened, G.EnsureVisible, G.SnapCamera;
    match op {
      case OpOpen(show, from, join) => OpenCounts(s, show, from, join);
      case OpFollowOpen(slot, show, alt) =>
        OpenCounts(s, show, Some(slot), !alt);
        if slot in s.joins { ReplaceCounts(s, s.joins[slot], show); }
      case OpFollowReplace(slot, show, alt) =>
        OpenCounts(s, show, Some(slot), false);
        ReplaceCounts(s, slot, show);
      case OpReplace(slot, show) => ReplaceCounts(s, slot, show);
      case OpClose(slot) => CloseCounts(s, slot);
      case OpUnjoin(slot) => UnjoinCounts(s, slot);
      case OpScene(v) => if G.Drawable(s, v) { SceneCounts(s, v); }
      case OpFocusDir(dir, v) => if G.Drawable(s, v) { FocusCounts(s, dir, v); }
      case OpEnsureVisible(slot, v) => if G.Drawable(s, v) { EnsureCounts(s, slot, v); }
      case OpSnap(v) => if G.Drawable(s, v) { SnapCounts(s, v); }
      case OpToggleTabbed(slot) => ToggleCounts(s, slot);
      case OpConsumeOrExpel(slot, dir) => ConsumeCounts(s, slot, dir);
      case OpConsumeFromRight(slot) => ConsumeRightCounts(s, slot);
      case OpExpelBottom(slot) => ExpelCounts(s, slot);
      case OpMove(slot, dir) => MoveCounts(s, slot, dir);
      case OpPlace(slot, target) => PlaceCounts(s, slot, target);
      case _ =>
    }
  }

  lemma OpenCounts(s: Space, show: PanelId, from: Option<SlotId>, join: bool)
    ensures Open(s, show, from, join).nextId == s.nextId + 1
  {
    hide OpenPlaced, LiveJoins;
    PlacedCounts(MkSlot(s, show), s.nextId + 1, from, join);
  }

  lemma PlacedCounts(s: Space, sid: SlotId, from: Option<SlotId>, join: bool)
    ensures OpenPlaced(s, sid, from, join).nextId == s.nextId
  {
    hide ColOf, Fits, PairAt, InsertAt;
  }

  lemma UnjoinCounts(s: Space, sid: SlotId)
    ensures Unjoin(s, sid).nextId == s.nextId
  {
    hide BridgeOf;
  }

  lemma SceneCounts(s: Space, v: G.View)
    requires G.Drawable(s, v)
    ensures G.Scened(s, v).nextId == s.nextId
  {
    hide Locate, NonEmpty, G.MaxCamera;
  }

  lemma FocusCounts(s: Space, dir: Dir, v: G.View)
    requires G.Drawable(s, v)
    ensures G.FocusDir(s, dir, v).nextId == s.nextId
  {
    hide Locate, NonEmpty, G.LayoutSlots, G.MaxCamera, G.NearestSlot, Raise;
  }

  lemma EnsureCounts(s: Space, sid: SlotId, v: G.View)
    requires G.Drawable(s, v)
    ensures G.EnsureVisible(s, sid, v).nextId == s.nextId
  {
    hide G.LayoutSlots, G.SceneOf;
  }

  lemma SnapCounts(s: Space, v: G.View)
    requires G.Drawable(s, v)
    ensures G.SnapCamera(s, v).nextId == s.nextId
  {
    hide G.Alignments, G.MaxCamera, G.Nearest;
  }

  lemma ToggleCounts(s: Space, sid: SlotId)
    ensures ToggleTabbed(s, sid).nextId == s.nextId
  {
    hide Locate, NonEmpty, Raise;
  }

  lemma ConsumeCounts(s: Space, sid: SlotId, dir: Dir)
    ensures ConsumeOrExpel(s, sid, dir).nextId == s.nextId
  {
    hide Locate, LiveJoins, NonEmpty, Raise, InsertAt, RemoveAt;
  }

  lemma ConsumeRightCounts(s: Space, sid: SlotId)
    ensures ConsumeFromRight(s, sid).nextId == s.nextId
  {
    hide Locate, LiveJoins, NonEmpty, Raise, RemoveAt;
  }

  lemma ExpelCounts(s: Space, sid: SlotId)
    ensures ExpelBottom(s, sid).nextId == s.nextId
  {
    hide Locate, LiveJoins, NonEmpty, Raise, InsertAt;
  }

  lemma MoveCounts(s: Space, sid: SlotId, dir: Dir)
    ensures MoveSlot(s, sid, dir).nextId == s.nextId
  {
    hide Locate, LiveJoins, InsertAt, RemoveAt, Swap;
  }

  lemma PlaceCounts(s: Space, sid: SlotId, target: DropTarget)
    ensures Place(s, sid, target).nextId == s.nextId
  {
    hide Locate, LiveJoins, NonEmpty, Raise, InsertAt, RemoveFromLayout, PlaceInto, Anchor;
  }

  lemma DetachCounts(s: Space, sid: SlotId)
    ensures Detach(s, sid).nextId == s.nextId
  {
  }

  lemma {:induction false} ChainCounts(s: Space, sid: SlotId)
    ensures CloseJoinedChain(s, sid).nextId == s.nextId
    decreases |s.joins|
  {
    hide Detach;
    if sid in s.joins {
      FewerJoins(s.joins, sid);
      var cut := s.(joins := s.joins - {sid});
      ChainCounts(cut, s.joins[sid]);
      DetachCounts(CloseJoinedChain(cut, s.joins[sid]), s.joins[sid]);
    }
  }

  lemma ReplaceCounts(s: Space, sid: SlotId, show: PanelId)
    ensures Replace(s, sid, show).nextId == s.nextId
  {
    hide CloseJoinedChain;
    ChainCounts(s, sid);
  }

  lemma SetShape(m: Spaces)
    requires SetInv(m)
    ensures Shaped(m)
  {
  }

  /** Counters never move back, whatever is performed. */
  lemma PerformForward(x: Session, c: Command)
    requires Shaped(x.wm)
    ensures Shaped(Perform(x, c).wm) && Forward(x.wm.wss, Perform(x, c).wm.wss)
  {
    hide Apply, Close, Unjoin, Arrive, Detach, Locate, RestoreOne, Snapshot;
    match c {
      case Do(op) => ApplyCounts(x.wm.wss[x.wm.active], op);
      case DoClose(sid) =>
        if WsOf(x.wm.wss, sid).Some? { CloseCounts(x.wm.wss[WsOf(x.wm.wss, sid).value], sid); }
      case DoUnjoin(sid) =>
        if WsOf(x.wm.wss, sid).Some? { UnjoinCounts(x.wm.wss[WsOf(x.wm.wss, sid).value], sid); }
      case DoSend(k) =>
        if CanSend(x.wm, k) {
          DetachCounts(x.wm.wss[x.wm.active], x.wm.wss[x.wm.active].focus.value);
          ArriveCounts(x.wm.wss[k], x.wm.wss[x.wm.active].focus.value, x.wm.wss[x.wm.active].slots[x.wm.wss[x.wm.active].focus.value]);
        }
      case _ =>
    }
  }

  lemma CloseCounts(s: Space, sid: SlotId)
    ensures Close(s, sid).nextId == s.nextId
  {
    hide Detach, CloseJoinedChain;
    ChainCounts(s, sid);
    DetachCounts(CloseJoinedChain(s, sid), sid);
  }

  lemma ArriveCounts(s: Space, sid: SlotId, show: PanelId)
    ensures Arrive(s, sid, show).nextId == s.nextId
  {
  }

  lemma InRangeBefore(a: Spaces, b: Spaces)
    requires Forward(a.wss, b.wss) && InRange(b)
    ensures InRange(a)
  {
  }

  // ---- every step keeps the session's invariant -------------------------------------------------------------

  lemma OpStep(x: Session, op: Op)
    requires SessionInv(x) && InRange(x.wm) && InRange(DoOp(x, op).wm)
    ensures SessionInv(DoOp(x, op))
  {
    hide Inv, Apply, Known, Apart, FromHere, Fresh, Forward;
    var k := x.wm.active;
    var s, t := x.wm.wss[k], Apply(x.wm.wss[k], op);
    assert DoOp(x, op).wm.wss[k] == t && t.nextId < (k + 1) * RANGE;
    NextIsFresh(x.wm, k);
    OpKeepsInv(s, op);
    OneChanged(x.wm, k, t);
    if t.nextId == s.nextId {
      QuietStep(x, DoOp(x, op));
    } else {
      MintingStep(x, DoOp(x, op), t.nextId);
    }
  }

  /** A workspace changed without minting. */
  lemma QuietChange(x: Session, k: nat, t: Space, active: nat)
    requires SessionInv(x) && InRange(x.wm) && k < WS_N && active < WS_N
    requires Inv(t) && t.nextId == x.wm.wss[k].nextId && t.slots.Keys <= x.wm.wss[k].slots.Keys
    ensures SessionInv(x.(wm := Spaces(x.wm.wss[k := t], active)))
  {
    hide Inv, Known, Apart, FromHere, Forward;
    assert t.nextId < (k + 1) * RANGE;
    OneChanged(x.wm, k, t);
    QuietStep(x, x.(wm := Spaces(x.wm.wss[k := t], active)));
  }

  lemma CloseStep(x: Session, sid: SlotId)
    requires SessionInv(x) && InRange(x.wm)
    ensures SessionInv(x.(wm := CloseIn(x.wm, sid)))
  {
    hide Inv, Known, Apart, FromHere, Close, ClosedExactly;
    if WsOf(x.wm.wss, sid).Some? {
      var k := WsOf(x.wm.wss, sid).value;
      CloseExactly(x.wm.wss[k], sid);
      ClosedFewer(x.wm.wss[k], Close(x.wm.wss[k], sid), {sid} + Chain(x.wm.wss[k].joins, sid));
      QuietChange(x, k, Close(x.wm.wss[k], sid), x.wm.active);
    }
  }

  lemma ClosedFewer(s: Space, t: Space, gone: set<SlotId>)
    requires ClosedExactly(s, t, gone)
    ensures t.nextId == s.nextId && t.slots.Keys <= s.slots.Keys
  {
  }

  lemma UnjoinStep(x: Session, sid: SlotId)
    requires SessionInv(x) && InRange(x.wm)
    ensures SessionInv(x.(wm := UnjoinIn(x.wm, sid)))
  {
    hide Inv, Known, Apart, FromHere, BridgeOf;
    if WsOf(x.wm.wss, sid).Some? {
      var k := WsOf(x.wm.wss, sid).value;
      UnjoinExactly(x.wm.wss[k], sid);
      QuietChange(x, k, Unjoin(x.wm.wss[k], sid), x.wm.active);
    }
  }

  lemma FocusStep(x: Session, sid: SlotId)
    requires SessionInv(x) && InRange(x.wm)
    ensures SessionInv(x.(wm := FocusSlot(x.wm, sid)))
  {
    hide Inv, Known, Apart, FromHere;
    if WsOf(x.wm.wss, sid).Some? {
      var k := WsOf(x.wm.wss, sid).value;
      FocusInv(x.wm.wss[k], sid);
      QuietChange(x, k, x.wm.wss[k].(focus := Some(sid)), k);
    }
  }

  lemma SwitchStep(x: Session, k: nat)
    requires SessionInv(x)
    ensures SessionInv(x.(wm := Switch(x.wm, k)))
  {
    hide Inv, Known, Apart, FromHere;
    QuietStep(x, x.(wm := Switch(x.wm, k)));
  }

  lemma SendStep(x: Session, k: nat)
    requires SessionInv(x)
    ensures SessionInv(x.(wm := SendFocusedTo(x.wm, k)))
  {
    hide SetInv, Known, FromHere, CanSend;
    SetShape(x.wm);
    if CanSend(x.wm, k) {
      SendKeeps(x.wm, k);
      QuietStep(x, x.(wm := SendFocusedTo(x.wm, k)));
    }
  }

  lemma SnapshotStep(x: Session)
    requires SessionInv(x)
    ensures SessionInv(x.(snaps := x.snaps + [Snapshot(x.wm)]))
  {
    hide SetInv, Known, Snapshot;
    assert Forward(x.wm.wss, x.wm.wss);
    assert FromHere(Snapshot(x.wm), x.wm.wss);
  }

  /** Undo to an earlier snapshot keeps every counter where it stands. */
  lemma ApplySnapshotKeeps(m: Spaces, was: Spaces)
    requires SetInv(m) && SetInv(was) && Forward(was.wss, m.wss)
    ensures var t := ApplySnapshot(m, Snapshot(was));
      && SetInv(t) && Forward(m.wss, t.wss) && t.active == was.active
      && forall k :: 0 <= k < WS_N ==>
           && t.wss[k].nextId == m.wss[k].nextId
           && t.wss[k].slots == was.wss[k].slots && t.wss[k].joins == was.wss[k].joins
           && t.wss[k].columns == Normalize(was.wss[k]).columns && t.wss[k].focus == was.wss[k].focus
           && t.wss[k].camera == m.wss[k].camera && t.wss[k].grid == m.wss[k].grid && t.wss[k].wishes == m.wss[k].wishes
  {
    hide Inv, Normalize, RestoreOne, Restore, Home;
    RestoreSnapshot(was);
    var r := Restore(Snapshot(was));
    var t := ApplySnapshot(m, Snapshot(was));
    forall k | 0 <= k < WS_N
      ensures Inv(t.wss[k]) && t.wss[k].nextId == m.wss[k].nextId
      ensures t.wss[k].slots == was.wss[k].slots && t.wss[k].joins == was.wss[k].joins
      ensures t.wss[k].columns == Normalize(was.wss[k]).columns && t.wss[k].focus == was.wss[k].focus
    {
      assert t.wss[k] == KeepLive(r.wss[k], m.wss[k]);
      NormalizeInv(was.wss[k]);
      LiveInv(r.wss[k], m.wss[k]);
    }
    forall k, id | 0 <= k < WS_N && id in t.wss[k].slots ensures Known(id, t.wss) {
      KnownForward(id, was.wss, t.wss);
    }
  }

  lemma LiveInv(restored: Space, live: Space)
    requires Inv(restored)
    ensures Inv(KeepLive(restored, live))
  {
  }

  lemma RestoreStep(x: Session, i: nat)
    requires SessionInv(x) && i < |x.snaps|
    ensures SessionInv(x.(wm := ApplySnapshot(x.wm, x.snaps[i])))
  {
    hide SetInv, Known, Forward, Snapshot, ApplySnapshot;
    assert FromHere(x.snaps[i], x.wm.wss);
    var was :| SetInv(was) && x.snaps[i] == Snapshot(was) && Forward(was.wss, x.wm.wss);
    SetShape(x.wm);
    ApplySnapshotKeeps(x.wm, was);
    QuietStep(x, x.(wm := ApplySnapshot(x.wm, x.snaps[i])));
  }

  lemma StepKeeps(x: Session, c: Command)
    requires SessionInv(x) && InRange(x.wm) && Shaped(x.wm) && InRange(Perform(x, c).wm)
    ensures SessionInv(Perform(x, c))
  {
    hide SessionInv, DoOp, CloseIn, UnjoinIn, FocusSlot, Switch, SendFocusedTo, ApplySnapshot, Snapshot, InRange;
    match c {
      case Do(op) => OpStep(x, op);
      case DoClose(sid) => CloseStep(x, sid);
      case DoUnjoin(sid) => UnjoinStep(x, sid);
      case DoFocus(sid) => FocusStep(x, sid);
      case DoSwitch(k) => SwitchStep(x, k);
      case DoSend(k) => SendStep(x, k);
      case TakeSnapshot => SnapshotStep(x);
      case UseSnapshot(i) => UseStep(x, i);
    }
  }

  lemma UseStep(x: Session, i: nat)
    requires SessionInv(x) && Shaped(x.wm)
    ensures SessionInv(Perform(x, UseSnapshot(i)))
  {
    hide SessionInv, ApplySnapshot;
    if i < |x.snaps| {
      RestoreStep(x, i);
    }
  }

  /** The session after a run of commands from the beginning. */
  ghost function After(cmds: seq<Command>): (x: Session)
    ensures Shaped(x.wm)
  {
    if cmds == [] then BEGINNING
    else
      var n := |cmds| - 1;
      PerformForward(After(cmds[..n]), cmds[n]);
      Perform(After(cmds[..n]), cmds[n])
  }

  /** In every session whose counters are still in their ranges, no number was
      ever minted twice and every live slot lives in exactly one workspace,
      whatever was opened, closed, sent about, snapshotted and undone. */
  lemma {:induction false} SessionKeeps(cmds: seq<Command>)
    requires InRange(After(cmds).wm)
    ensures SessionInv(After(cmds))
  {
    hide SessionInv, Perform, InRange;
    if cmds == [] {
      BeginningInv();
    } else {
      var n := |cmds| - 1;
      var x := After(cmds[..n]);
      PerformForward(x, cmds[n]);
      InRangeBefore(x.wm, Perform(x, cmds[n]).wm);
      SessionKeeps(cmds[..n]);
      StepKeeps(x, cmds[n]);
    }
  }

  lemma BeginningInv()
    ensures SessionInv(BEGINNING)
  {
    hide SetInv;
    NewSetInv();
  }
}
