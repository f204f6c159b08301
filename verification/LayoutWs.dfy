/** The workspace itself: fields updated in place, each method proved to make
    of the workspace what the operation of that name says. */
module LayoutWs {
  import opened Base
  import opened LayoutModel
  import opened LayoutColumns
  import opened LayoutInvariant
  import G = LayoutGeometry

  class Ws {
    var nextId: nat
    var grid: Grid
    var columns: seq<Column>
    var slots: map<SlotId, PanelId>
    var joins: map<SlotId, SlotId>
    var focus: Option<SlotId>
    var camera: real
    var wishes: map<PanelId, (nat, nat)>
    var widths: map<SlotId, PanelWidth>

    ghost function Value(): Space
      reads this
    {
      Space(nextId, grid, columns, slots, joins, focus, camera, wishes, widths)
    }

    constructor (next: nat)
      ensures Value() == EMPTY.(nextId := next)
    {
      nextId, grid, columns, slots, joins := next, DESKTOP, [], map[], map[];
      focus, camera, wishes, widths := None, 0.0, map[], map[];
    }

    // ---- reading ------------------------------------------------------------------

    method Position(col: seq<SlotId>, sid: SlotId) returns (r: Option<nat>)
      ensures r == IndexOf(col, sid)
    {
      var k := 0;
      while k < |col|
        invariant k <= |col|
        invariant IndexOf(col, sid) == Shift(IndexOf(col[k..], sid), k)
      {
        if col[k] == sid {
          return Some(k);
        }
        assert col[k..][1..] == col[k + 1..];
        k := k + 1;
      }
      r := None;
    }

    method Find(sid: SlotId) returns (r: Option<(nat, nat)>)
      ensures r == Locate(columns, sid)
    {
      var c := 0;
      while c < |columns|
        invariant c <= |columns|
        invariant Locate(columns, sid) == match Locate(columns[c..], sid)
          case None => None
          case Some((k, row)) => Some((k + c, row))
      {
        var row := Position(columns[c].slots, sid);
        assert columns[c..][1..] == columns[c + 1..];
        if row.Some? {
          return Some((c, row.value));
        }
        c := c + 1;
      }
      r := None;
    }

    method FindColumn(sid: SlotId) returns (r: Option<nat>)
      ensures r == ColOf(columns, sid)
    {
      var at := Find(sid);
      r := if at.Some? then Some(at.value.0) else None;
    }

    method UsedRows(col: seq<SlotId>) returns (used: nat)
      ensures used == UsedH(Value(), col)
    {
      used := 0;
      var k := 0;
      while k < |col|
        invariant k <= |col|
        invariant used + UsedH(Value(), col[k..]) == UsedH(Value(), col)
      {
        assert col[k..][1..] == col[k + 1..];
        used := used + GridSize(col[k]).1;
        k := k + 1;
      }
    }

    /** Columns and rows of the grid a slot asks for. */
    function GridSize(sid: SlotId): (size: (nat, nat))
      reads this
      ensures size == SlotGrid(Value(), sid)
    {
      var wish := if sid in slots then (if slots[sid] in wishes then wishes[slots[sid]] else DEFAULT_WISH) else (1, 1);
      var w := if sid in widths then WidthUnits(widths[sid], grid) else wish.0;
      (FitW(w, grid), Min(wish.1, grid.h))
    }

    method FindParent(sid: SlotId) returns (r: Option<SlotId>)
      requires OneParent(joins)
      ensures r == ParentOf(joins, sid)
    {
      var parents := joins.Keys;
      while parents != {}
        invariant parents <= joins.Keys
        invariant forall p :: p in joins && p !in parents ==> joins[p] != sid
        decreases parents
      {
        var p :| p in parents;
        if joins[p] == sid {
          return Some(p);
        }
        parents := parents - {p};
      }
      r := None;
    }

    // ---- joins ----------------------------------------------------------------------

    method Validate()
      modifies this`joins
      ensures Value() == ValidateJoins(old(Value()))
    {
      hide ColOf;
      var stale: set<SlotId> := {};
      var todo := joins.Keys;
      while todo != {}
        invariant todo <= joins.Keys && joins == old(joins)
        invariant forall p :: p in joins && p !in todo ==> (p in stale <==> !Adjacent(columns, p, joins[p]))
        invariant stale <= joins.Keys
        decreases todo
      {
        var p :| p in todo;
        var parent := FindColumn(p);
        var child := FindColumn(joins[p]);
        if parent.None? || child.None? || child.value != parent.value + 1 {
          stale := stale + {p};
        } else {
          stale := stale - {p};
        }
        todo := todo - {p};
      }
      joins := joins - stale;
    }

    method BreakJoin(sid: SlotId) returns (broke: Option<(SlotId, SlotId)>)
      requires OneParent(joins)
      modifies this`joins
      ensures broke == BridgeOf(old(joins), sid)
      ensures Value() == Unjoin(old(Value()), sid)
    {
      var parent := FindParent(sid);
      if parent.Some? {
        broke := Some((parent.value, sid));
      } else if sid in joins {
        broke := Some((sid, joins[sid]));
      } else {
        return None;
      }
      joins := joins - {broke.value.0};
    }

    // ---- closing ----------------------------------------------------------------------

    method Remove(sid: SlotId)
      modifies this`columns
      ensures columns == RemoveFromLayout(old(columns), sid)
    {
      var at := Find(sid);
      if at.Some? {
        var (c, r) := at.value;
        columns := columns[c := columns[c].(slots := RemoveAt(columns[c].slots, r))];
        if columns[c].slots == [] {
          columns := RemoveAt(columns, c);
          assert columns == RemoveAt(old(columns), c);
        }
      }
    }

    method TakeOut(sid: SlotId) returns (show: Option<PanelId>)
      modifies this
      ensures Value() == Detach(old(Value()), sid)
      ensures show == if Locate(old(columns), sid).Some? && sid in old(slots) then Some(old(slots)[sid]) else None
    {
      hide Locate, LiveJoins, RemoveFromLayout, FocusAfter, Untab;
      var at := Find(sid);
      if at.None? {
        return None;
      }
      var (c, r) := at.value;
      var cols := |columns|;
      Remove(sid);
      var survived := |columns| == cols;
      if survived {
        DropStrip(c);
      }
      show := if sid in slots then Some(slots[sid]) else None;
      slots := slots - {sid};
      joins := map p | p in joins && p != sid && joins[p] != sid :: joins[p];
      Validate();
      if focus == Some(sid) {
        LetFocusFall(c, r, survived);
      }
    }

    /** Takes the strip off a column of one. */
    method DropStrip(c: nat)
      requires c < |columns|
      modifies this`columns
      ensures columns == Untab(old(columns), c)
    {
      if |columns[c].slots| == 1 {
        columns := columns[c := columns[c].(tabbed := false)];
      }
    }

    method LetFocusFall(c: nat, r: nat, survived: bool)
      requires survived ==> c < |columns|
      requires !survived ==> c <= |columns|
      modifies this`focus
      ensures focus == FocusAfter(columns, c, r, survived)
    {
      focus := None;
      if columns != [] {
        var at := if survived then c else if c == 0 then 0 else c - 1;
        var col := columns[at];
        var row := if col.tabbed then col.active else r;
        if col.slots != [] {
          focus := Some(col.slots[Min(row, |col.slots| - 1)]);
        }
      }
    }

    method CloseChain(sid: SlotId)
      modifies this
      ensures Value() == CloseJoinedChain(old(Value()), sid)
      decreases |joins|
    {
      if sid in joins {
        FewerJoins(joins, sid);
        var child := joins[sid];
        joins := joins - {sid};
        CloseChain(child);
        var _ := TakeOut(child);
        slots := slots - {child};
      }
    }

    method CloseSlot(sid: SlotId)
      modifies this
      ensures Value() == Close(old(Value()), sid)
    {
      CloseChain(sid);
      var _ := TakeOut(sid);
    }

    method ReplaceSlot(sid: SlotId, show: PanelId)
      modifies this
      ensures Value() == Replace(old(Value()), sid, show)
    {
      if sid !in slots {
        return;
      }
      CloseChain(sid);
      if sid in slots {
        slots := slots[sid := show];
      }
      Validate();
      focus := Some(sid);
    }

    // ---- opening -----------------------------------------------------------------------

    method PlaceBeside(sid: SlotId, from: nat, joined: bool)
      requires from < |columns|
      modifies this`columns
      ensures Value() == PlaceNear(old(Value()), sid, from, joined)
    {
      hide Locate, UsedH, SlotGrid, InsertAt;
      var h := GridSize(sid).1;
      if from + 1 < |columns| {
        var used := UsedRows(columns[from + 1].slots);
        if used + h <= grid.h {
          columns := columns[from + 1 := columns[from + 1].(slots := columns[from + 1].slots + [sid])];
          return;
        }
      }
      var at := from + 1;
      if !joined {
        var sources := columns[from].slots;
        var k := 0;
        while k < |sources|
          invariant k <= |sources| && columns == old(columns)
          invariant at == if exists r :: 0 <= r < k && Paired(sources[r], from) then from + 2 else from + 1
        {
          if sources[k] in joins {
            var child := FindColumn(joins[sources[k]]);
            if child == Some(from + 1) {
              at := from + 2;
            }
          }
          k := k + 1;
        }
      }
      columns := InsertAt(columns, Min(at, |columns|), Alone(sid));
    }

    /** `src` is joined to a slot in the column after `from`. */
    ghost predicate Paired(src: SlotId, from: nat)
      reads this
    {
      src in joins && ColOf(columns, joins[src]) == Some(from + 1)
    }

    method OpenSlot(show: PanelId, from: Option<SlotId>, join: bool) returns (sid: SlotId)
      modifies this
      ensures sid == old(nextId) + 1
      ensures Value() == Open(old(Value()), show, from, join)
    {
      hide Locate, PlaceNear, LiveJoins;
      nextId := nextId + 1;
      sid := nextId;
      slots := slots[sid := show];
      assert Value() == MkSlot(old(Value()), show);
      var at := None;
      if from.Some? {
        at := FindColumn(from.value);
      }
      if at.Some? {
        PlaceBeside(sid, at.value, join);
        if join {
          joins := joins[from.value := sid];
        }
      } else {
        columns := columns + [Alone(sid)];
      }
      Validate();
      focus := Some(sid);
    }

    method Follow(slot: SlotId, show: PanelId, alt: bool) returns (sid: SlotId)
      modifies this
      ensures Value() == FollowOpen(old(Value()), slot, show, alt)
      ensures sid == if !alt && slot in old(joins) && old(joins)[slot] in old(slots) then old(joins)[slot] else old(nextId) + 1
    {
      if alt {
        sid := OpenSlot(show, Some(slot), false);
      } else if slot in joins && joins[slot] in slots {
        sid := joins[slot];
        ReplaceSlot(sid, show);
      } else {
        sid := OpenSlot(show, Some(slot), true);
      }
    }

    method FollowDotted(slot: SlotId, show: PanelId, alt: bool) returns (sid: SlotId)
      modifies this
      ensures Value() == FollowReplace(old(Value()), slot, show, alt)
      ensures sid == if alt then old(nextId) + 1 else slot
    {
      if alt {
        sid := OpenSlot(show, Some(slot), false);
      } else {
        ReplaceSlot(slot, show);
        sid := slot;
      }
    }

    // ---- moving ---------------------------------------------------------------------------

    method Tidy()
      modifies this`columns
      ensures Value() == Normalize(old(Value()))
    {
      hide NonEmpty, ClampAll, Raise;
      columns := Kept();
      if focus.Some? {
        Show(focus.value);
      }
    }

    /** The columns that hold something, no tab past their last. */
    method Kept() returns (kept: seq<Column>)
      ensures kept == ClampAll(NonEmpty(columns))
    {
      hide NonEmpty, ClampAll;
      kept := [];
      var c := 0;
      while c < |columns|
        invariant c <= |columns|
        invariant kept + ClampAll(NonEmpty(columns[c..])) == ClampAll(NonEmpty(columns))
      {
        TidyTail(columns, c);
        if columns[c].slots != [] {
          Assoc(kept, [ClampActive(columns[c])], ClampAll(NonEmpty(columns[c + 1..])));
          kept := kept + [columns[c].(active := Min(columns[c].active, |columns[c].slots| - 1))];
        }
        c := c + 1;
      }
      TidyEnd(columns);
      assert kept + [] == kept;
    }

    method Show(sid: SlotId)
      modifies this`columns
      ensures Value() == Activate(old(Value()), sid)
    {
      var at := Find(sid);
      if at.Some? {
        columns := columns[at.value.0 := columns[at.value.0].(active := at.value.1)];
      }
    }

    method ToggleTabs(sid: SlotId)
      modifies this`columns
      ensures Value() == ToggleTabbed(old(Value()), sid)
    {
      var at := FindColumn(sid);
      if at.Some? {
        columns := columns[at.value := columns[at.value].(tabbed := !columns[at.value].tabbed)];
        Tidy();
      }
    }

    method ConsumeExpel(sid: SlotId, dir: Dir)
      modifies this`columns, this`joins
      ensures Value() == ConsumeOrExpel(old(Value()), sid, dir)
    {
      hide Locate, LiveJoins, NonEmpty, Raise, InsertAt, RemoveAt, Normalize;
      var at := Find(sid);
      if at.None? || (dir != Left && dir != Right) {
        return;
      }
      var (c, r) := at.value;
      var d: int := if dir == Left then -1 else 1;
      if |columns[c].slots| == 1 {
        var t: int := c + d;
        if t < 0 || t >= |columns| {
          return;
        }
        LengthsAgree(columns, c);
        columns := RemoveAt(columns, c);
        t := if t > c then t - 1 else t;
        ghost var cols, fuller := columns, columns[t].slots + [sid];
        columns := columns[t := columns[t].(slots := columns[t].slots + [sid])];
        columns := columns[t := columns[t].(active := |columns[t].slots| - 1)];
        assert columns == cols[t := cols[t].(slots := fuller, active := |fuller| - 1)];
      } else {
        columns := columns[c := columns[c].(slots := RemoveAt(columns[c].slots, r))];
        columns := InsertAt(columns, if d < 0 then c else c + 1, Alone(sid));
      }
      Validate();
      Tidy();
    }

    method ConsumeRight(sid: SlotId)
      requires NoneEmpty(columns)
      modifies this`columns, this`joins
      ensures Value() == ConsumeFromRight(old(Value()), sid)
    {
      hide Locate, LiveJoins, NonEmpty, Raise, Normalize;
      var at := FindColumn(sid);
      if at.None? || at.value + 1 >= |columns| {
        return;
      }
      var c := at.value;
      var moved := columns[c + 1].slots[0];
      columns := columns[c + 1 := columns[c + 1].(slots := columns[c + 1].slots[1..])];
      if columns[c + 1].slots == [] {
        columns := RemoveAt(columns, c + 1);
        assert columns == RemoveAt(old(columns), c + 1);
      }
      columns := columns[c := columns[c].(slots := columns[c].slots + [moved])];
      Validate();
      Tidy();
    }

    method Expel(sid: SlotId)
      modifies this`columns, this`joins
      ensures Value() == ExpelBottom(old(Value()), sid)
    {
      hide Locate, LiveJoins, NonEmpty, Raise, InsertAt, Normalize;
      var at := FindColumn(sid);
      if at.None? || |columns[at.value].slots| < 2 {
        return;
      }
      var c := at.value;
      var n := |columns[c].slots|;
      var moved := columns[c].slots[n - 1];
      columns := columns[c := columns[c].(slots := columns[c].slots[..n - 1])];
      columns := InsertAt(columns, c + 1, Alone(moved));
      Validate();
      Tidy();
    }

    method Step(sid: SlotId, dir: Dir)
      modifies this`columns, this`joins
      ensures Value() == MoveSlot(old(Value()), sid, dir)
    {
      hide Locate, LiveJoins, InsertAt, RemoveAt, Swap;
      var at := Find(sid);
      if at.None? {
        return;
      }
      var (c, r) := at.value;
      if dir == Up || dir == Down {
        var d: int := if dir == Up then -1 else 1;
        var t: int := r + d;
        if 0 <= t < |columns[c].slots| {
          columns := columns[c := columns[c].(slots := Swap(columns[c].slots, r, t))];
        }
      } else {
        var d: int := if dir == Left then -1 else 1;
        var t: int := c + d;
        if |columns[c].slots| == 1 {
          if t < 0 || t >= |columns| {
            return;
          }
          columns := Swap(columns, c, t);
        } else {
          columns := columns[c := columns[c].(slots := RemoveAt(columns[c].slots, r))];
          if t < 0 || t >= |columns| {
            columns := InsertAt(columns, if d < 0 then c else c + 1, Alone(sid));
          } else {
            var row := Min(r, |columns[t].slots|);
            columns := columns[t := columns[t].(slots := InsertAt(columns[t].slots, row, sid))];
          }
        }
      }
      Validate();
    }

    method FirstOther(col: seq<SlotId>, sid: SlotId) returns (r: Option<SlotId>)
      ensures r == Anchor(col, sid)
    {
      var k := 0;
      while k < |col|
        invariant k <= |col|
        invariant Anchor(col, sid) == Anchor(col[k..], sid)
      {
        assert col[k..][1..] == col[k + 1..];
        if col[k] != sid {
          return Some(col[k]);
        }
        k := k + 1;
      }
      r := None;
    }

    method DropOn(sid: SlotId, target: DropTarget)
      modifies this`columns, this`joins, this`focus
      ensures Value() == Place(old(Value()), sid, target)
    {
      hide Locate, LiveJoins, NonEmpty, Raise, InsertAt, RemoveFromLayout, Normalize;
      var at := Find(sid);
      if at.None? {
        return;
      }
      var source := at.value.0;
      match target {
        case Into(col, row) =>
          if col >= |columns| {
            return;
          }
          var anchor := FirstOther(columns[col].slots, sid);
          if anchor.None? {
            focus := Some(sid);
            Tidy();
            return;
          }
          Remove(sid);
          var c := FindColumn(anchor.value);
          if c.Some? {
            var k := Min(row, |columns[c.value].slots|);
            columns := columns[c.value := columns[c.value].(slots := InsertAt(columns[c.value].slots, k, sid))];
          }
        case Boundary(edge) =>
          if edge > |columns| {
            return;
          }
          var lone := |columns[source].slots| == 1;
          if lone && (edge == source || edge == source + 1) {
            focus := Some(sid);
            Tidy();
            return;
          }
          var ins := edge - (if lone && source < edge then 1 else 0);
          Remove(sid);
          columns := InsertAt(columns, ins, Alone(sid));
      }
      Validate();
      focus := Some(sid);
      Tidy();
    }

    // ---- drawing ---------------------------------------------------------------------------

    method SetGrid(g: Grid)
      modifies this`grid
      ensures Value() == old(Value()).(grid := g)
    {
      grid := g;
    }

    method Pan(dx: real)
      modifies this`camera
      ensures Value() == old(Value()).(camera := old(camera) + dx)
    {
      camera := camera + dx;
    }

    method Widest(col: Column) returns (w: nat)
      ensures w == G.ColW(Value(), col)
    {
      if col.slots == [] {
        return 1;
      }
      w := 0;
      var k := 0;
      while k < |col.slots|
        invariant k <= |col.slots|
        invariant Max(w, G.WidestOf(Value(), col.slots[k..])) == G.WidestOf(Value(), col.slots)
      {
        assert col.slots[k..][1..] == col.slots[k + 1..];
        w := Max(w, GridSize(col.slots[k]).0);
        k := k + 1;
      }
    }

    /** Each column's start and width, and the strip's whole width. */
    method Ranges(v: G.View) returns (ranges: seq<(real, real)>, strip: real)
      requires G.Drawable(Value(), v)
      ensures |ranges| == |columns| && strip == G.StripWidth(Value(), v)
      ensures forall c :: 0 <= c < |ranges| ==>
        ranges[c] == (G.ColX(Value(), c, v), G.ColumnWidth(Value(), columns[c], v))
    {
      hide G.UnitsWidth, G.ColW, G.ColX, G.ColumnWidth;
      NoColumns(Value(), v);
      var unit := (v.w - v.gap) / grid.w as real;
      ranges, strip := [], v.gap;
      var c := 0;
      while c < |columns|
        invariant c <= |columns| && |ranges| == c && strip == G.ColX(Value(), c, v)
        invariant forall k :: 0 <= k < c ==>
          ranges[k] == (G.ColX(Value(), k, v), G.ColumnWidth(Value(), columns[k], v))
      {
        var w := Widest(columns[c]);
        UnitsWidthIs(grid.w, w, v, unit);
        NextColumn(Value(), c, v);
        var cw := MaxReal(unit * w as real - v.gap, G.FLOOR);
        ranges := ranges + [(strip, cw)];
        strip := strip + cw + v.gap;
        c := c + 1;
      }
    }

    method Snap(v: G.View)
      requires G.Drawable(Value(), v)
      modifies this`camera
      ensures Value() == G.SnapCamera(old(Value()), v)
    {
      hide G.ColX, G.ColumnWidth, G.Alignments, G.Nearest, G.Distance;
      var ranges, strip := Ranges(v);
      var max := MaxReal(strip - v.w, 0.0);
      var cur := Clamp(camera, 0.0, max);
      var best := 0.0;
      var bd: Option<real> := None;
      var c := 0;
      ghost var s := Value();
      NoAlignments(s, v, cur);
      while c < |ranges|
        invariant c <= |ranges| && Value() == s
        invariant G.Nearest(G.Alignments(s, c, v), cur) == if bd.None? then None else Some(best)
        invariant bd.None? ==> best == 0.0
        invariant bd.Some? ==> bd.value == G.Distance(cur, best)
      {
        var (x, w) := ranges[c];
        ghost var before := G.Alignments(s, c, v);
        G.AlignmentsSnoc(s, c, v);
        var left := Clamp(x - v.gap, 0.0, max);
        G.NearestSnoc(before, left, cur);
        if bd.None? || G.Distance(cur, left) < bd.value {
          bd, best := Some(G.Distance(cur, left)), left;
        }
        var right := Clamp(x + w + v.gap - v.w, 0.0, max);
        G.NearestSnoc(before + [left], right, cur);
        if G.Distance(cur, right) < bd.value {
          bd, best := Some(G.Distance(cur, right)), right;
        }
        c := c + 1;
      }
      camera := best;
    }

    /** Every slot's target, walking the columns left to right and each one top to bottom. */
    method Targets(v: G.View) returns (scenes: seq<G.SlotScene>, strip: real)
      requires G.Drawable(Value(), v)
      ensures scenes == G.LayoutSlots(Value(), v) && strip == G.StripWidth(Value(), v)
    {
      hide G.ColX, G.ColumnWidth, G.ColW, G.UnitsWidth, G.ColumnScenes, G.ScenesFrom;
      var unit := (v.w - v.gap) / grid.w as real;
      scenes, strip := [], v.gap;
      NoColumns(Value(), v);
      var c := 0;
      while c < |columns|
        invariant c <= |columns| && strip == G.ColX(Value(), c, v)
        invariant scenes + G.ScenesFrom(Value(), c, v) == G.LayoutSlots(Value(), v)
      {
        var w := Widest(columns[c]);
        UnitsWidthIs(grid.w, w, v, unit);
        NextColumn(Value(), c, v);
        var cw := MaxReal(unit * w as real - v.gap, G.FLOOR);
        var here := ColumnTargets(c, strip, cw, v);
        NextScenes(Value(), c, v);
        Assoc(scenes, here, G.ScenesFrom(Value(), c + 1, v));
        scenes := scenes + here;
        strip := strip + cw + v.gap;
        c := c + 1;
      }
      NoScenes(Value(), v);
      assert scenes + [] == scenes;
    }

    method ColumnTargets(c: nat, x: real, cw: real, v: G.View) returns (scenes: seq<G.SlotScene>)
      requires G.Drawable(Value(), v) && c < |columns|
      requires x == G.ColX(Value(), c, v) && cw == G.ColumnWidth(Value(), columns[c], v)
      ensures scenes == G.ColumnScenes(Value(), c, v)
    {
      hide G.ColX, G.ColumnWidth, G.RowHeight;
      var col := columns[c];
      scenes := [];
      var r := 0;
      if col.tabbed {
        var rect := G.TabRect(x, cw, v);
        while r < |col.slots|
          invariant r <= |col.slots|
          invariant scenes + G.TabScenes(col, r, rect) == G.TabScenes(col, 0, rect)
        {
          scenes := scenes + [G.SlotScene(col.slots[r], rect, r == Min(col.active, |col.slots| - 1))];
          r := r + 1;
        }
        return;
      }
      var y := v.gap;
      while r < |col.slots|
        invariant r <= |col.slots|
        invariant scenes + G.StackScenes(Value(), col, r, x, y, cw, v)
               == G.StackScenes(Value(), col, 0, x, v.gap, cw, v)
      {
        var sid := col.slots[r];
        if sid in slots {
          var h := SlotHeight(col, sid, v);
          scenes := scenes + [G.SlotScene(sid, Rect(x, y, cw, h), true)];
          y := y + h + v.gap;
        }
        r := r + 1;
      }
    }

    /** The requested height while the column's rows fit the grid, else an even share. */
    method SlotHeight(col: Column, sid: SlotId, v: G.View) returns (h: real)
      requires G.Drawable(Value(), v)
      ensures h == G.RowHeight(Value(), col, sid, v)
    {
      hide G.ShareOf, UsedH, SlotGrid;
      var used := UsedRows(col.slots);
      if used > grid.h && |col.slots| > 0 {
        h := MaxReal(G.ShareOf(|col.slots|, v), G.FLOOR);
      } else {
        h := G.RowsHeight(GridSize(sid).1, G.ShareOf(grid.h, v), v.gap);
      }
    }

    method FindScene(scenes: seq<G.SlotScene>, sid: SlotId) returns (r: Option<G.SlotScene>)
      ensures r == G.SceneOf(scenes, sid)
    {
      var k := 0;
      while k < |scenes|
        invariant k <= |scenes|
        invariant G.SceneOf(scenes, sid) == G.SceneOf(scenes[k..], sid)
      {
        assert scenes[k..][1..] == scenes[k + 1..];
        if scenes[k].id == sid {
          return Some(scenes[k]);
        }
        k := k + 1;
      }
      r := None;
    }

    method MakeVisible(sid: SlotId, v: G.View)
      requires G.Drawable(Value(), v)
      modifies this`camera
      ensures Value() == G.EnsureVisible(old(Value()), sid, v)
    {
      hide G.LayoutSlots, G.SceneOf;
      var scenes, _ := Targets(v);
      var p := FindScene(scenes, sid);
      if p.Some? {
        var lo := p.value.rect.x - v.gap;
        var hi := p.value.rect.Right() + v.gap - v.w;
        camera := Clamp(camera, MinReal(hi, lo), lo);
      }
    }

    method SceneNow(v: G.View) returns (scenes: seq<G.SlotScene>)
      requires G.Drawable(Value(), v)
      modifies this`columns, this`camera
      ensures Value() == G.Scened(old(Value()), v)
      ensures scenes == G.LayoutSlots(Normalize(old(Value())), v)
    {
      hide G.LayoutSlots, G.ColX, Normalize;
      Tidy();
      var strip;
      scenes, strip := Targets(v);
      camera := Clamp(camera, 0.0, MaxReal(strip - v.w, 0.0));
    }

    /** The slot of a plain column whose centre is nearest to `mid`. */
    method Closest(scenes: seq<G.SlotScene>, col: seq<SlotId>, mid: real) returns (best: SlotId)
      requires col != []
      ensures best == G.NearestSlot(scenes, col, mid)
    {
      hide G.MidOf, G.Distance, G.NearestSlot;
      best := col[0];
      NearestFirst(scenes, col, mid);
      var k := 1;
      while k < |col|
        invariant 1 <= k <= |col|
        invariant best == G.NearestSlot(scenes, col[..k], mid)
      {
        NearestNext(scenes, col, mid, k);
        if G.Distance(G.MidOf(scenes, col[k]), mid) < G.Distance(G.MidOf(scenes, best), mid) {
          best := col[k];
        }
        k := k + 1;
      }
      assert col[..|col|] == col;
    }

    method MoveFocus(dir: Dir, v: G.View)
      requires G.Drawable(Value(), v)
      modifies this`columns, this`camera, this`focus
      ensures Value() == G.FocusDir(old(Value()), dir, v)
    {
      hide Locate, G.LayoutSlots, G.NearestSlot, Normalize, G.MaxCamera;
      if focus.None? {
        focus := if columns != [] && columns[0].slots != [] then Some(columns[0].slots[0]) else None;
        return;
      }
      var cur := focus.value;
      var at := Find(cur);
      if at.None? {
        return;
      }
      var (c, r) := at.value;
      if dir == Up {
        if r > 0 {
          focus := Some(columns[c].slots[r - 1]);
        }
      } else if dir == Down {
        if r + 1 < |columns[c].slots| {
          focus := Some(columns[c].slots[r + 1]);
        }
      } else {
        var d: int := if dir == Left then -1 else 1;
        var t: int := c + d;
        if t < 0 || t >= |columns| {
          return;
        }
        var col := columns[t];
        if col.slots == [] {
          return;
        }
        if col.tabbed {
          focus := Some(col.slots[Min(col.active, |col.slots| - 1)]);
          Tidy();
          return;
        }
        var scenes := SceneNow(v);
        var best := Closest(scenes, col.slots, G.MidOf(scenes, cur));
        focus := Some(best);
      }
    }
  }

  lemma TidyTail(cols: seq<Column>, c: nat)
    requires c < |cols|
    ensures ClampAll(NonEmpty(cols[c..])) ==
      (if cols[c].slots == [] then [] else [ClampActive(cols[c])]) + ClampAll(NonEmpty(cols[c + 1..]))
    ensures cols[0..] == cols
  {
    assert cols[c..][1..] == cols[c + 1..];
    if cols[c].slots != [] {
      var rest := NonEmpty(cols[c + 1..]);
      assert ([cols[c]] + rest)[1..] == rest;
    }
  }

  lemma TidyEnd(cols: seq<Column>)
    ensures ClampAll(NonEmpty(cols[|cols|..])) == []
  {
  }

  lemma NearestFirst(scenes: seq<G.SlotScene>, col: seq<SlotId>, mid: real)
    requires col != []
    ensures G.NearestSlot(scenes, col[..1], mid) == col[0]
  {
  }

  lemma NearestNext(scenes: seq<G.SlotScene>, col: seq<SlotId>, mid: real, k: nat)
    requires 0 < k < |col|
    ensures var best := G.NearestSlot(scenes, col[..k], mid);
      G.NearestSlot(scenes, col[..k + 1], mid)
      == if G.Distance(G.MidOf(scenes, col[k]), mid) < G.Distance(G.MidOf(scenes, best), mid) then col[k] else best
  {
    hide G.Distance, G.MidOf;
    assert col[..k + 1][..k] == col[..k];
  }

  lemma NoColumns(s: Space, v: G.View)
    requires G.Drawable(s, v)
    ensures G.ColX(s, 0, v) == v.gap
  {
  }

  lemma NextColumn(s: Space, c: nat, v: G.View)
    requires G.Drawable(s, v) && c < |s.columns|
    ensures G.ColX(s, c + 1, v) == G.ColX(s, c, v) + G.ColumnWidth(s, s.columns[c], v) + v.gap
    ensures G.ColumnWidth(s, s.columns[c], v) == G.UnitsWidth(s.grid.w, G.ColW(s, s.columns[c]), v)
  {
  }

  lemma NextScenes(s: Space, c: nat, v: G.View)
    requires G.Drawable(s, v) && c < |s.columns|
    ensures G.ScenesFrom(s, c, v) == G.ColumnScenes(s, c, v) + G.ScenesFrom(s, c + 1, v)
  {
  }

  lemma NoScenes(s: Space, v: G.View)
    requires G.Drawable(s, v)
    ensures G.ScenesFrom(s, |s.columns|, v) == []
  {
  }

  lemma NoAlignments(s: Space, v: G.View, cur: real)
    requires G.Drawable(s, v)
    ensures G.Nearest(G.Alignments(s, 0, v), cur) == None
  {
  }

  lemma UnitsWidthIs(gridW: nat, units: nat, v: G.View, unit: real)
    requires gridW > 0 && unit == (v.w - v.gap) / gridW as real
    ensures MaxReal(unit * units as real - v.gap, G.FLOOR) == G.UnitsWidth(gridW, units, v)
  {
  }
}
