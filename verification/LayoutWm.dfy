/** The nine workspaces as objects, one of them active. */
module LayoutWm {
  import opened Base
  import opened LayoutModel
  import opened LayoutInvariant
  import opened LayoutSet
  import opened LayoutWs

  class Wm {
    var wss: seq<Ws>
    var active: nat

    /** Nine workspaces, no two of them the same object. */
    ghost predicate Valid()
      reads this
    {
      && |wss| == WS_N && active < WS_N
      && forall i, j :: 0 <= i < j < |wss| ==> wss[i] != wss[j]
    }

    ghost function Value(): Spaces
      reads this, wss
    {
      Spaces(seq(|wss|, i requires 0 <= i < |wss| reads this, wss => wss[i].Value()), active)
    }

    constructor ()
      ensures Valid() && Value() == NewSet()
      ensures forall k :: 0 <= k < |wss| ==> fresh(wss[k])
    {
      hide NewSpaces;
      wss, active := [], 0;
      new;
      while |wss| < WS_N
        invariant |wss| <= WS_N && active == 0
        invariant forall i :: 0 <= i < |wss| ==> fresh(wss[i]) && wss[i].Value() == NewSpace(i)
        invariant forall i, j :: 0 <= i < j < |wss| ==> wss[i] != wss[j]
        decreases WS_N - |wss|
      {
        var w := new Ws(|wss| * RANGE);
        wss := wss + [w];
      }
    }

    method SwitchTo(k: nat) returns (changed: bool)
      requires Valid()
      modifies this`active
      ensures Valid() && wss == old(wss) && Value() == Switch(old(Value()), k)
      ensures changed <==> active != old(active)
    {
      if k >= WS_N || k == active {
        return false;
      }
      active := k;
      changed := true;
    }

    method Holder(sid: SlotId) returns (k: Option<nat>)
      ensures k == WsOf(Value().wss, sid)
    {
      ghost var all := Value().wss;
      var i := 0;
      while i < |wss|
        invariant i <= |wss|
        invariant WsOf(all, sid) == match WsOf(all[i..], sid) case None => None case Some(j) => Some(i + j)
      {
        assert all[i..][1..] == all[i + 1..];
        if sid in wss[i].slots {
          return Some(i);
        }
        i := i + 1;
      }
      k := None;
    }

    method SendFocused(k: nat) returns (sent: Option<SlotId>)
      requires Valid()
      modifies this`active, wss
      ensures Valid() && wss == old(wss) && Value() == SendFocusedTo(old(Value()), k)
      ensures sent == if CanSend(old(Value()), k) then old(wss[active].focus) else None
    {
      hide Detach, Arrive, Locate;
      var from := wss[active];
      ghost var before := Value();
      assert from.Value() == before.wss[active];
      if k >= WS_N || k == active || from.focus.None? {
        return None;
      }
      var sid := from.focus.value;
      var at := from.Find(sid);
      if at.None? || sid !in from.slots {
        return None;
      }
      var show := from.TakeOut(sid);
      var w := wss[k];
      assert w.Value() == before.wss[k];
      Welcome(w, sid, show.value);
      active := k;
      assert Value().wss == SendFocusedTo(before, k).wss;
      sent := Some(sid);
    }

    /** The receiving half of a send. */
    static method Welcome(w: Ws, sid: SlotId, show: PanelId)
      modifies w
      ensures w.Value() == Arrive(old(w.Value()), sid, show)
    {
      hide Normalize;
      w.slots := w.slots[sid := show];
      w.columns := w.columns + [Alone(sid)];
      w.focus := Some(sid);
      w.Tidy();
    }

    method CloseAnywhere(sid: SlotId)
      requires Valid()
      modifies wss
      ensures Valid() && wss == old(wss) && Value() == CloseIn(old(Value()), sid)
    {
      hide Close;
      var k := Holder(sid);
      ghost var before := Value();
      if k.Some? {
        assert wss[k.value].Value() == before.wss[k.value];
        wss[k.value].CloseSlot(sid);
        assert Value().wss == CloseIn(before, sid).wss;
      }
    }

    method UnjoinAnywhere(sid: SlotId) returns (broke: Option<(SlotId, SlotId)>)
      requires Valid() && forall i :: 0 <= i < |wss| ==> OneParent(wss[i].joins)
      modifies wss
      ensures Valid() && wss == old(wss) && Value() == UnjoinIn(old(Value()), sid)
      ensures broke == match WsOf(old(Value()).wss, sid) case None => None case Some(k) => BridgeOf(old(Value()).wss[k].joins, sid)
    {
      hide Unjoin;
      var k := Holder(sid);
      ghost var before := Value();
      broke := None;
      if k.Some? {
        assert wss[k.value].Value() == before.wss[k.value];
        broke := wss[k.value].BreakJoin(sid);
        assert Value().wss == UnjoinIn(before, sid).wss;
      }
    }

    method FocusAnywhere(sid: SlotId) returns (landed: Option<nat>)
      requires Valid()
      modifies this`active, wss
      ensures Valid() && wss == old(wss) && Value() == FocusSlot(old(Value()), sid)
      ensures landed == WsOf(old(Value()).wss, sid)
    {
      landed := Holder(sid);
      ghost var before := Value();
      if landed.Some? {
        active := landed.value;
        wss[active].focus := Some(sid);
        assert Value().wss == FocusSlot(before, sid).wss;
      }
    }

    method TakeSnapshot() returns (snap: Snap)
      ensures snap == Snapshot(Value())
    {
      var taken: seq<SpaceSnap> := [];
      while |taken| < |wss|
        invariant |taken| <= |wss|
        invariant forall k :: 0 <= k < |taken| ==> taken[k] == SnapOf(wss[k].Value())
        decreases |wss| - |taken|
      {
        var w := wss[|taken|];
        taken := taken + [SpaceSnap(w.columns, w.slots, w.joins, w.focus)];
      }
      snap := Snap(active, taken);
      assert snap.wss == SnapsOf(Value().wss);
    }

    /** The greatest number of range `k` the snapshot shows. */
    static method GreatestOf(snap: Snap, k: nat) returns (top: nat)
      ensures top == MaxHome(IdsIn(snap.wss), k)
    {
      hide MaxHome;
      top := 0;
      var i := 0;
      while i < |snap.wss|
        invariant i <= |snap.wss|
        invariant top == MaxHome(IdsIn(snap.wss[..i]), k)
      {
        var todo := snap.wss[i].slots.Keys;
        ghost var seen := IdsIn(snap.wss[..i]);
        while todo != {}
          invariant todo <= snap.wss[i].slots.Keys
          invariant top == MaxHome(seen + (snap.wss[i].slots.Keys - todo), k)
          decreases todo
        {
          var id :| id in todo;
          MaxHomeStep(seen + (snap.wss[i].slots.Keys - todo), id, k);
          if Home(id) == k {
            top := Max(top, id);
          }
          assert seen + (snap.wss[i].slots.Keys - todo) + {id} == seen + (snap.wss[i].slots.Keys - (todo - {id}));
          todo := todo - {id};
        }
        assert seen + (snap.wss[i].slots.Keys - {}) == seen + snap.wss[i].slots.Keys;
        IdsSnoc(snap.wss, i);
        i := i + 1;
      }
      assert snap.wss[..i] == snap.wss;
    }

    static method Rebuild(snap: Snap, k: nat) returns (w: Ws)
      ensures fresh(w) && w.Value() == RestoreOne(snap, k)
    {
      hide MaxHome, RestoreSpace;
      w := new Ws(k * RANGE);
      if k < |snap.wss| {
        var top := GreatestOf(snap, k);
        Fill(w, snap.wss[k], Max(k * RANGE, top));
      }
    }

    /** Boot restore. */
    constructor FromSnapshot(snap: Snap)
      ensures Valid() && Value() == Restore(snap)
      ensures forall k :: 0 <= k < |wss| ==> fresh(wss[k])
    {
      hide RestoreOne;
      wss, active := [], Min(snap.active, WS_N - 1);
      new;
      while |wss| < WS_N
        invariant |wss| <= WS_N && active == Min(snap.active, WS_N - 1)
        invariant forall i :: 0 <= i < |wss| ==> fresh(wss[i]) && wss[i].Value() == RestoreOne(snap, i)
        invariant forall i, j :: 0 <= i < j < |wss| ==> wss[i] != wss[j]
        decreases WS_N - |wss|
      {
        var w := Rebuild(snap, |wss|);
        wss := wss + [w];
      }
    }

    static method Fill(w: Ws, s: SpaceSnap, next: nat)
      requires w.Value() == EMPTY.(nextId := w.nextId)
      modifies w
      ensures w.Value() == RestoreSpace(s, next)
    {
      hide Settle, Normalize, ValidateJoins;
      w.nextId := next;
      w.columns := s.columns;
      w.slots := s.slots;
      w.joins := s.joins;
      w.focus := if s.focus.Some? && s.focus.value in s.slots then s.focus else None;
      SettleIs(w.Value());
      w.Validate();
      w.Tidy();
    }

    /** Restored workspace `w` takes over the live one's display and counter. */
    static method TakeOver(w: Ws, live: Ws)
      requires w != live
      modifies w
      ensures w.Value() == KeepLive(old(w.Value()), live.Value())
    {
      w.camera := live.camera;
      w.grid := live.grid;
      w.wishes := live.wishes;
      w.nextId := Max(w.nextId, live.nextId);
    }

    static method TakeOverAll(ws: seq<Ws>, live: seq<Ws>)
      requires |ws| == |live|
      requires forall i, j :: 0 <= i < j < |ws| ==> ws[i] != ws[j]
      requires forall i, j :: 0 <= i < |ws| && 0 <= j < |live| ==> ws[i] != live[j]
      modifies ws
      ensures forall i :: 0 <= i < |ws| ==> ws[i].Value() == KeepLive(old(ws[i].Value()), live[i].Value())
    {
      hide KeepLive;
      var k := 0;
      while k < |ws|
        invariant k <= |ws|
        invariant forall i :: 0 <= i < k ==> ws[i].Value() == KeepLive(old(ws[i].Value()), live[i].Value())
        invariant forall i :: k <= i < |ws| ==> ws[i].Value() == old(ws[i].Value())
        invariant forall i :: 0 <= i < |live| ==> live[i].Value() == old(live[i].Value())
      {
        TakeOver(ws[k], live[k]);
        k := k + 1;
      }
    }

    /** Applies history to a live session: display and counters stay. */
    method UseSnapshot(snap: Snap)
      requires Valid()
      modifies this
      ensures Valid() && Value() == ApplySnapshot(old(Value()), snap)
      ensures forall k :: 0 <= k < |wss| ==> fresh(wss[k])
    {
      hide Restore, RestoreOne, KeepLive, KeepAll;
      ghost var before := Value();
      var restored := new Wm.FromSnapshot(snap);
      ghost var plain := restored.Value();
      assert forall i :: 0 <= i < WS_N ==> restored.wss[i].Value() == plain.wss[i];
      assert forall i :: 0 <= i < WS_N ==> wss[i].Value() == before.wss[i];
      var rebuilt, shown, live := restored.wss, restored.active, wss;
      TakeOverAll(rebuilt, live);
      wss, active := rebuilt, shown;
      AllKept(Value().wss, plain.wss, before.wss);
    }
  }

  lemma AllKept(now: seq<Space>, restored: seq<Space>, live: seq<Space>)
    requires |now| == |restored| == |live|
    requires forall k :: 0 <= k < |now| ==> now[k] == KeepLive(restored[k], live[k])
    ensures now == KeepAll(restored, live)
  {
    hide KeepLive;
  }

  lemma SettleIs(s: Space)
    ensures Settle(s) == Normalize(ValidateJoins(s))
  {
  }

  lemma MaxHomeStep(ids: set<SlotId>, id: SlotId, k: nat)
    ensures MaxHome(ids + {id}, k) == if Home(id) == k then Max(MaxHome(ids, k), id) else MaxHome(ids, k)
  {
    var a, b := MaxHome(ids, k), MaxHome(ids + {id}, k);
    if b != 0 && b in ids {
      assert b <= a;
    }
    if a != 0 {
      assert a in ids + {id};
    }
    assert id in ids + {id};
  }

  lemma {:induction false} IdsSnoc(wss: seq<SpaceSnap>, i: nat)
    requires i < |wss|
    ensures IdsIn(wss[..i + 1]) == IdsIn(wss[..i]) + wss[i].slots.Keys
    decreases i
  {
    if i == 0 {
      assert wss[..1][1..] == [];
      assert wss[..0] == [];
    } else {
      assert wss[..i + 1][1..] == wss[1..][..i];
      assert wss[..i][1..] == wss[1..][..i - 1];
      IdsSnoc(wss[1..], i - 1);
    }
  }
}
