/** Every operation of one workspace, and any run of them. */
module LayoutOps {
  import opened Base
  import opened LayoutModel
  import opened LayoutColumns
  import opened LayoutInvariant
  import opened LayoutClose
  import opened LayoutOpen
  import G = LayoutGeometry

  datatype Op =
    | OpOpen(show: PanelId, from: Option<SlotId>, join: bool)
    | OpFollowOpen(slot: SlotId, show: PanelId, alt: bool)
    | OpFollowReplace(slot: SlotId, show: PanelId, alt: bool)
    | OpReplace(slot: SlotId, show: PanelId)
    | OpClose(slot: SlotId)
    | OpUnjoin(slot: SlotId)
    | OpConsumeOrExpel(slot: SlotId, dir: Dir)
    | OpConsumeFromRight(slot: SlotId)
    | OpExpelBottom(slot: SlotId)
    | OpToggleTabbed(slot: SlotId)
    | OpMove(slot: SlotId, dir: Dir)
    | OpPlace(slot: SlotId, target: DropTarget)
    | OpActivate(slot: SlotId)
    | OpFocusDir(dir: Dir, v: G.View)
    | OpScene(v: G.View)
    | OpEnsureVisible(slot: SlotId, v: G.View)
    | OpSnap(v: G.View)
    | OpPan(dx: real)
    | OpSetGrid(grid: Grid)
    | OpWish(id: PanelId, size: (nat, nat))
    | OpWishes(wishes: map<PanelId, (nat, nat)>)
    | OpWidths(widths: map<SlotId, PanelWidth>)

  /** What an operation makes of a workspace. The ones that read a viewport
      need a grid with cells to lay it over. */
  ghost function Apply(s: Space, op: Op): Space {
    match op
    case OpOpen(show, from, join) => Open(s, show, from, join)
    case OpFollowOpen(slot, show, alt) => FollowOpen(s, slot, show, alt)
    case OpFollowReplace(slot, show, alt) => FollowReplace(s, slot, show, alt)
    case OpReplace(slot, show) => Replace(s, slot, show)
    case OpClose(slot) => Close(s, slot)
    case OpUnjoin(slot) => Unjoin(s, slot)
    case OpConsumeOrExpel(slot, dir) => ConsumeOrExpel(s, slot, dir)
    case OpConsumeFromRight(slot) => ConsumeFromRight(s, slot)
    case OpExpelBottom(slot) => ExpelBottom(s, slot)
    case OpToggleTabbed(slot) => ToggleTabbed(s, slot)
    case OpMove(slot, dir) => MoveSlot(s, slot, dir)
    case OpPlace(slot, target) => Place(s, slot, target)
    case OpActivate(slot) => Activate(s, slot)
    case OpFocusDir(dir, v) => if G.Drawable(s, v) then G.FocusDir(s, dir, v) else s
    case OpScene(v) => if G.Drawable(s, v) then G.Scened(s, v) else s
    case OpEnsureVisible(slot, v) => if G.Drawable(s, v) then G.EnsureVisible(s, slot, v) else s
    case OpSnap(v) => if G.Drawable(s, v) then G.SnapCamera(s, v) else s
    case OpPan(dx) => s.(camera := s.camera + dx)
    case OpSetGrid(grid) => s.(grid := grid)
    case OpWish(id, size) => s.(wishes := s.wishes[id := size])
    case OpWishes(wishes) => s.(wishes := wishes)
    case OpWidths(widths) => s.(widths := widths)
  }

  /** An operation mints at most one number, the next one, and shows no other new slot. */
  predicate MintsAtMostOne(s: Space, t: Space) {
    || (t.nextId == s.nextId && t.slots.Keys <= s.slots.Keys)
    || (t.nextId == s.nextId + 1 && t.slots.Keys <= s.slots.Keys + {s.nextId + 1})
  }

  lemma NothingMinted(s: Space, t: Space)
    requires t.nextId == s.nextId && t.slots == s.slots
    ensures MintsAtMostOne(s, t)
  {
  }

  lemma OpenMints(s: Space, show: PanelId, from: Option<SlotId>, join: bool)
    requires Inv(s) && Fresh(s)
    ensures Inv(Open(s, show, from, join)) && MintsAtMostOne(s, Open(s, show, from, join))
  {
    hide Open, Inv;
    OpenKeepsInv(s, show, from, join);
  }

  lemma ReplaceMints(s: Space, sid: SlotId, show: PanelId)
    requires Inv(s)
    ensures Inv(Replace(s, sid, show)) && MintsAtMostOne(s, Replace(s, sid, show))
  {
    if sid in s.slots {
      hide Replace, Inv, Without, ThinAll;
      ReplaceExactly(s, sid, show);
    }
  }

  lemma FollowOpenMints(s: Space, slot: SlotId, show: PanelId, alt: bool)
    requires Inv(s) && Fresh(s)
    ensures Inv(FollowOpen(s, slot, show, alt)) && MintsAtMostOne(s, FollowOpen(s, slot, show, alt))
  {
    hide Replace, Inv, Open, MintsAtMostOne;
    if alt {
      OpenMints(s, show, Some(slot), false);
    } else if slot in s.joins && s.joins[slot] in s.slots {
      ReplaceMints(s, s.joins[slot], show);
    } else {
      OpenMints(s, show, Some(slot), true);
    }
  }

  lemma FollowReplaceMints(s: Space, slot: SlotId, show: PanelId, alt: bool)
    requires Inv(s) && Fresh(s)
    ensures Inv(FollowReplace(s, slot, show, alt)) && MintsAtMostOne(s, FollowReplace(s, slot, show, alt))
  {
    hide Replace, Inv, Open, MintsAtMostOne;
    if alt {
      OpenMints(s, show, Some(slot), false);
    } else {
      ReplaceMints(s, slot, show);
    }
  }

  lemma CloseMints(s: Space, sid: SlotId)
    requires Inv(s)
    ensures Inv(Close(s, sid)) && MintsAtMostOne(s, Close(s, sid))
  {
    hide Close, Inv;
    if sid in s.slots {
      CloseExactly(s, sid);
    } else {
      CloseNothing(s, sid);
    }
  }

  lemma FromRightMints(s: Space, sid: SlotId)
    requires Inv(s)
    ensures Inv(ConsumeFromRight(s, sid)) && MintsAtMostOne(s, ConsumeFromRight(s, sid))
  {
    hide Inv, OnlyMoves, Locate, Settle, RemoveAt;
    ConsumeFromRightMoves(s, sid);
    if ConsumeFromRight(s, sid) != s {
      MovedMints(s, ConsumeFromRight(s, sid), s.columns[ColOf(s.columns, sid).value + 1].slots[0]);
    }
  }

  lemma ExpelMints(s: Space, sid: SlotId)
    requires Inv(s)
    ensures Inv(ExpelBottom(s, sid)) && MintsAtMostOne(s, ExpelBottom(s, sid))
  {
    hide Inv, OnlyMoves, Locate, Settle;
    ExpelBottomMoves(s, sid);
    if ExpelBottom(s, sid) != s {
      var slots := s.columns[ColOf(s.columns, sid).value].slots;
      MovedMints(s, ExpelBottom(s, sid), slots[|slots| - 1]);
    }
  }

  lemma MovesMint(s: Space, op: Op)
    requires Inv(s)
    requires op.OpConsumeOrExpel? || op.OpConsumeFromRight? || op.OpExpelBottom? || op.OpMove? || op.OpPlace?
    ensures Inv(Apply(s, op)) && MintsAtMostOne(s, Apply(s, op))
  {
    hide Inv, OnlyMoves, Bag, Locate, ConsumeOrExpel, MoveSlot, Landed, ConsumeFromRight, ExpelBottom, Place, MintsAtMostOne;
    match op
    case OpConsumeOrExpel(slot, dir) =>
      ConsumeOrExpelMoves(s, slot, dir);
      MovedMints(s, Apply(s, op), slot);
    case OpConsumeFromRight(slot) => FromRightMints(s, slot);
    case OpExpelBottom(slot) => ExpelMints(s, slot);
    case OpMove(slot, dir) =>
      MoveSlotMoves(s, slot, dir);
      MovedMints(s, Apply(s, op), slot);
    case OpPlace(slot, target) =>
      PlaceMints(s, slot, target);
  }

  lemma MovedMints(s: Space, t: Space, sid: SlotId)
    requires OnlyMoves(s, t, sid)
    ensures MintsAtMostOne(s, t)
  {
  }

  lemma PlaceMints(s: Space, sid: SlotId, target: DropTarget)
    requires Inv(s)
    ensures Inv(Place(s, sid, target)) && MintsAtMostOne(s, Place(s, sid, target))
  {
    hide Inv, OnlyMoves, Bag, Place, Landed;
    PlaceInv(s, sid, target);
    if sid in s.slots && ValidTarget(s, target) {
      InvHas(s, sid);
      if target.Into? {
        PlaceIntoMoves(s, sid, target.col, target.row);
      } else {
        PlaceAtMoves(s, sid, target.at);
      }
      MovedMints(s.(focus := Some(sid)), Place(s, sid, target), sid);
    } else {
      PlaceNowhere(s, sid, target);
    }
  }

  lemma ToggleMints(s: Space, sid: SlotId)
    requires Inv(s)
    ensures Inv(ToggleTabbed(s, sid)) && MintsAtMostOne(s, ToggleTabbed(s, sid))
  {
    hide Inv, Locate;
    ToggleInv(s, sid);
  }

  lemma RaiseMints(s: Space, sid: SlotId)
    requires Inv(s)
    ensures Inv(Activate(s, sid)) && MintsAtMostOne(s, Activate(s, sid))
  {
    hide Inv, Locate;
    RaiseInv(s, sid);
  }

  lemma UnjoinMints(s: Space, sid: SlotId)
    requires Inv(s)
    ensures Inv(Unjoin(s, sid)) && MintsAtMostOne(s, Unjoin(s, sid))
  {
    hide Inv, BridgeOf;
    UnjoinExactly(s, sid);
  }

  lemma CameraInv(s: Space, camera: real)
    requires Inv(s)
    ensures Inv(s.(camera := camera))
  {
  }

  lemma SceneMints(s: Space, v: G.View)
    requires Inv(s) && G.Drawable(s, v)
    ensures Inv(G.Scened(s, v)) && MintsAtMostOne(s, G.Scened(s, v))
  {
    hide Inv, Normalize, G.MaxCamera;
    NormalizeInv(s);
    CameraInv(Normalize(s), G.Scened(s, v).camera);
  }

  lemma FocusDirMints(s: Space, dir: Dir, v: G.View)
    requires Inv(s) && G.Drawable(s, v)
    ensures Inv(G.FocusDir(s, dir, v)) && MintsAtMostOne(s, G.FocusDir(s, dir, v))
  {
    hide Inv, G.FocusDir;
    G.FocusDirSteps(s, dir, v);
  }

  lemma SizesMint(s: Space, op: Op)
    requires Inv(s) && (op.OpSetGrid? || op.OpWish? || op.OpWishes? || op.OpWidths?)
    ensures Inv(Apply(s, op)) && MintsAtMostOne(s, Apply(s, op))
  {
    hide Inv;
    SizesInv(s, Apply(s, op).grid, Apply(s, op).wishes, Apply(s, op).widths);
  }

  lemma SizesInv(s: Space, grid: Grid, wishes: map<PanelId, (nat, nat)>, widths: map<SlotId, PanelWidth>)
    requires Inv(s)
    ensures Inv(s.(grid := grid, wishes := wishes, widths := widths))
  {
  }

  lemma CamerasMint(s: Space, op: Op)
    requires Inv(s) && (op.OpEnsureVisible? || op.OpSnap? || op.OpPan?)
    ensures Inv(Apply(s, op)) && MintsAtMostOne(s, Apply(s, op))
  {
    hide Inv, G.LayoutSlots, G.Alignments, G.MaxCamera, G.SceneOf, G.Nearest;
    CameraInv(s, Apply(s, op).camera);
  }

  predicate Minting(op: Op) {
    op.OpOpen? || op.OpFollowOpen? || op.OpFollowReplace? || op.OpReplace? || op.OpClose?
  }

  lemma OpensMint(s: Space, op: Op)
    requires Inv(s) && Fresh(s) && Minting(op)
    ensures Inv(Apply(s, op)) && MintsAtMostOne(s, Apply(s, op))
  {
    hide Inv, MintsAtMostOne, Open, FollowOpen, FollowReplace, Replace, Close;
    match op
    case OpOpen(show, from, join) => OpenMints(s, show, from, join);
    case OpFollowOpen(slot, show, alt) => FollowOpenMints(s, slot, show, alt);
    case OpFollowReplace(slot, show, alt) => FollowReplaceMints(s, slot, show, alt);
    case OpReplace(slot, show) => ReplaceMints(s, slot, show);
    case OpClose(slot) => CloseMints(s, slot);
  }

  lemma ShowsMint(s: Space, op: Op)
    requires Inv(s) && (op.OpUnjoin? || op.OpToggleTabbed? || op.OpActivate? || op.OpScene? || op.OpFocusDir?)
    ensures Inv(Apply(s, op)) && MintsAtMostOne(s, Apply(s, op))
  {
    hide Inv, MintsAtMostOne, Unjoin, ToggleTabbed, Activate, G.Scened, G.FocusDir;
    match op
    case OpUnjoin(slot) => UnjoinMints(s, slot);
    case OpToggleTabbed(slot) => ToggleMints(s, slot);
    case OpActivate(slot) => RaiseMints(s, slot);
    case OpScene(v) => if G.Drawable(s, v) { SceneMints(s, v); } else { NothingMinted(s, s); }
    case OpFocusDir(dir, v) => if G.Drawable(s, v) { FocusDirMints(s, dir, v); } else { NothingMinted(s, s); }
  }

  /** Every operation keeps the invariant and mints at most one number. */
  lemma OpKeepsInv(s: Space, op: Op)
    requires Inv(s) && Fresh(s)
    ensures Inv(Apply(s, op)) && MintsAtMostOne(s, Apply(s, op))
  {
    hide Inv, MintsAtMostOne, Apply;
    if Minting(op) {
      OpensMint(s, op);
    } else if op.OpConsumeOrExpel? || op.OpConsumeFromRight? || op.OpExpelBottom? || op.OpMove? || op.OpPlace? {
      MovesMint(s, op);
    } else if op.OpSetGrid? || op.OpWish? || op.OpWishes? || op.OpWidths? {
      SizesMint(s, op);
    } else if op.OpEnsureVisible? || op.OpSnap? || op.OpPan? {
      CamerasMint(s, op);
    } else {
      ShowsMint(s, op);
    }
  }

  ghost function Run(s: Space, ops: seq<Op>): Space
    decreases |ops|
  {
    if ops == [] then s else Run(Apply(s, ops[0]), ops[1..])
  }

  /** Numbers of a workspace that mints its own never run ahead of its counter. */
  predicate Own(s: Space) {
    forall id :: id in s.slots ==> id <= s.nextId
  }

  /** Any run of operations on a workspace keeps the invariant. */
  lemma {:induction false} RunKeepsInv(s: Space, ops: seq<Op>)
    requires Inv(s) && Own(s)
    ensures Inv(Run(s, ops)) && Own(Run(s, ops))
    decreases |ops|
  {
    hide Inv, Apply;
    if ops != [] {
      OpKeepsInv(s, ops[0]);
      RunKeepsInv(Apply(s, ops[0]), ops[1..]);
    }
  }

  /** From a new workspace, in particular. */
  lemma NewRunKeepsInv(k: nat, ops: seq<Op>)
    ensures Inv(Run(EMPTY.(nextId := k), ops)) && Own(Run(EMPTY.(nextId := k), ops))
  {
    hide Inv, Run;
    EmptyInv(k);
    RunKeepsInv(EMPTY.(nextId := k), ops);
  }
}
