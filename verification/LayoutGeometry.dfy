/** Where slots are drawn on the strip, and where the camera stands over it. */
module LayoutGeometry {
  import opened Base
  import opened LayoutModel
  import opened LayoutColumns
  import opened LayoutInvariant

  /** One slot's target, and whether it is shown. */
  datatype SlotScene = SlotScene(id: SlotId, rect: Rect, visible: bool)

  /** The viewport and the gap between panels and edges. */
  datatype View = View(w: real, h: real, gap: real)

  const TAB_H := 24.0
  const TAB_GAP := 4.0
  const FLOOR := 40.0

  /** Sizes that can be laid out: a grid with cells, and a gap that is one. */
  predicate Drawable(s: Space, v: View) {
    s.grid.w > 0 && s.grid.h > 0 && v.gap >= 0.0
  }

  // ---- columns ------------------------------------------------------------------------

  /** A column's requested width in grid units: its widest slot's. */
  function WidestOf(s: Space, slots: seq<SlotId>): nat {
    if slots == [] then 0 else Max(SlotGrid(s, slots[0]).0, WidestOf(s, slots[1..]))
  }

  function ColW(s: Space, col: Column): nat {
    if col.slots == [] then 1 else WidestOf(s, col.slots)
  }

  /** `units` of a grid `gridW` units wide, in points. */
  function UnitsWidth(gridW: nat, units: nat, v: View): (w: real)
    requires gridW > 0
    ensures w >= FLOOR
  {
    MaxReal((v.w - v.gap) / gridW as real * units as real - v.gap, FLOOR)
  }

  function ColumnWidth(s: Space, col: Column, v: View): (w: real)
    requires Drawable(s, v)
    ensures w >= FLOOR
  {
    UnitsWidth(s.grid.w, ColW(s, col), v)
  }

  /** Where column `c` starts; at `|columns|`, the strip's whole width. */
  function ColX(s: Space, c: nat, v: View): (x: real)
    requires Drawable(s, v) && c <= |s.columns|
    ensures x >= v.gap
  {
    if c == 0 then v.gap else ColX(s, c - 1, v) + ColumnWidth(s, s.columns[c - 1], v) + v.gap
  }

  function StripWidth(s: Space, v: View): real
    requires Drawable(s, v)
  {
    ColX(s, |s.columns|, v)
  }

  // ---- rows ----------------------------------------------------------------------------

  /** The height of one of `rows` equal rows, a gap between each two and at either end. */
  function ShareOf(rows: nat, v: View): real
    requires rows > 0
  {
    (v.h - 2.0 * v.gap - (rows - 1) as real * v.gap) / rows as real
  }

  function RowUnit(s: Space, v: View): real
    requires Drawable(s, v)
  {
    ShareOf(s.grid.h, v)
  }

  /** More rows asked for than the grid has: the space is shared evenly. */
  predicate Overfull(s: Space, col: Column) {
    UsedH(s, col.slots) > s.grid.h && |col.slots| > 0
  }

  function RowHeight(s: Space, col: Column, sid: SlotId, v: View): real
    requires Drawable(s, v)
  {
    if Overfull(s, col) then MaxReal(ShareOf(|col.slots|, v), FLOOR)
    else RowsHeight(SlotGrid(s, sid).1, RowUnit(s, v), v.gap)
  }

  /** `n` grid rows and the gaps between them. */
  function RowsHeight(n: nat, unit: real, gap: real): real {
    n as real * unit + (n - 1) as real * gap
  }

  /** `n` grid rows, each with the gap after it. */
  function RowsSpan(n: nat, unit: real, gap: real): real {
    n as real * (unit + gap)
  }

  /** A plain column's slots from row `r` on, the first of them starting at `y`. */
  function StackScenes(s: Space, col: Column, r: nat, x: real, y: real, w: real, v: View): seq<SlotScene>
    requires Drawable(s, v) && r <= |col.slots|
    decreases |col.slots| - r
  {
    if r == |col.slots| then []
    else
      var sid := col.slots[r];
      if sid !in s.slots then StackScenes(s, col, r + 1, x, y, w, v)
      else
        var h := RowHeight(s, col, sid, v);
        [SlotScene(sid, Rect(x, y, w, h), true)] + StackScenes(s, col, r + 1, x, y + h + v.gap, w, v)
  }

  function TabRect(x: real, w: real, v: View): Rect {
    var top := v.gap + TAB_H + TAB_GAP;
    Rect(x, top, w, MaxReal(v.h - top - v.gap, FLOOR))
  }

  /** A tabbed column's slots from row `r` on: one rectangle, one of them shown. */
  function TabScenes(col: Column, r: nat, rect: Rect): seq<SlotScene>
    requires r <= |col.slots|
    decreases |col.slots| - r
  {
    if r == |col.slots| then []
    else
      [SlotScene(col.slots[r], rect, r == Min(col.active, |col.slots| - 1))] + TabScenes(col, r + 1, rect)
  }

  function ColumnScenes(s: Space, c: nat, v: View): seq<SlotScene>
    requires Drawable(s, v) && c < |s.columns|
  {
    var col, x := s.columns[c], ColX(s, c, v);
    var w := ColumnWidth(s, col, v);
    if col.tabbed then TabScenes(col, 0, TabRect(x, w, v)) else StackScenes(s, col, 0, x, v.gap, w, v)
  }

  /** What is drawn of columns `c` and up, column by column. */
  function ScenesFrom(s: Space, c: nat, v: View): seq<SlotScene>
    requires Drawable(s, v) && c <= |s.columns|
    decreases |s.columns| - c
  {
    if c == |s.columns| then [] else ColumnScenes(s, c, v) + ScenesFrom(s, c + 1, v)
  }

  function LayoutSlots(s: Space, v: View): seq<SlotScene>
    requires Drawable(s, v)
  {
    ScenesFrom(s, 0, v)
  }

  function SceneOf(scenes: seq<SlotScene>, sid: SlotId): (r: Option<SlotScene>)
    ensures r.Some? ==> r.value in scenes && r.value.id == sid
  {
    if scenes == [] then None
    else if scenes[0].id == sid then Some(scenes[0])
    else SceneOf(scenes[1..], sid)
  }

  function RectOf(scenes: seq<SlotScene>, sid: SlotId): Rect {
    match SceneOf(scenes, sid) case Some(p) => p.rect case None => Rect(0.0, 0.0, 0.0, 0.0)
  }

  // ---- the camera ------------------------------------------------------------------------

  function MaxCamera(s: Space, v: View): (m: real)
    requires Drawable(s, v)
    ensures m >= 0.0
  {
    MaxReal(StripWidth(s, v) - v.w, 0.0)
  }

  /** `scene`: normalizes, and clamps the camera to the strip. */
  function Scened(s: Space, v: View): Space
    requires Drawable(s, v)
  {
    var n := Normalize(s);
    n.(camera := Clamp(n.camera, 0.0, MaxCamera(n, v)))
  }

  function EnsureVisible(s: Space, sid: SlotId, v: View): Space
    requires Drawable(s, v)
  {
    match SceneOf(LayoutSlots(s, v), sid)
    case None => s
    case Some(p) =>
      var lo := p.rect.x - v.gap;
      var hi := p.rect.Right() + v.gap - v.w;
      s.(camera := Clamp(s.camera, MinReal(hi, lo), lo))
  }

  /** The camera positions a pan may snap to, in the order they are weighed:
      each column flush left, then flush right, kept within the strip. */
  function Alignments(s: Space, c: nat, v: View): (r: seq<real>)
    requires Drawable(s, v) && c <= |s.columns|
    ensures |r| == 2 * c
    ensures forall k :: 0 <= k < |r| ==> 0.0 <= r[k] <= MaxCamera(s, v)
  {
    if c == 0 then []
    else
      var x := ColX(s, c - 1, v);
      var right := x + ColumnWidth(s, s.columns[c - 1], v) + v.gap - v.w;
      Alignments(s, c - 1, v)
        + [Clamp(x - v.gap, 0.0, MaxCamera(s, v)), Clamp(right, 0.0, MaxCamera(s, v))]
  }

  function Distance(a: real, b: real): real {
    if a <= b then b - a else a - b
  }

  /** The first of the nearest candidates; `None` when there are none. */
  function Nearest(cands: seq<real>, cur: real): (r: Option<real>)
    ensures r.None? <==> cands == []
    ensures r.Some? ==> r.value in cands
    ensures r.Some? ==> forall k :: 0 <= k < |cands| ==> Distance(cur, r.value) <= Distance(cur, cands[k])
  {
    if cands == [] then None
    else
      var n := |cands| - 1;
      var before := Nearest(cands[..n], cur);
      assert forall k :: 0 <= k < n ==> cands[..n][k] == cands[k];
      if before.None? || Distance(cur, cands[n]) < Distance(cur, before.value) then Some(cands[n]) else before
  }

  lemma NearestSnoc(cands: seq<real>, x: real, cur: real)
    ensures Nearest(cands + [x], cur) ==
      var before := Nearest(cands, cur);
      if before.None? || Distance(cur, x) < Distance(cur, before.value) then Some(x) else before
  {
    assert (cands + [x])[..|cands|] == cands;
  }

  lemma AlignmentsSnoc(s: Space, c: nat, v: View)
    requires Drawable(s, v) && c < |s.columns|
    ensures var x, w := ColX(s, c, v), ColumnWidth(s, s.columns[c], v);
      Alignments(s, c + 1, v) == Alignments(s, c, v)
        + [Clamp(x - v.gap, 0.0, MaxCamera(s, v))] + [Clamp(x + w + v.gap - v.w, 0.0, MaxCamera(s, v))]
  {
    hide ColX, ColumnWidth, MaxCamera;
  }

  function SnapCamera(s: Space, v: View): Space
    requires Drawable(s, v)
  {
    var cur := Clamp(s.camera, 0.0, MaxCamera(s, v));
    match Nearest(Alignments(s, |s.columns|, v), cur)
    case None => s.(camera := 0.0)
    case Some(best) => s.(camera := best)
  }

  // ---- focus ---------------------------------------------------------------------------------

  function MidOf(scenes: seq<SlotScene>, sid: SlotId): real {
    RectOf(scenes, sid).y + RectOf(scenes, sid).h / 2.0
  }

  /** The first of the slots whose centre is nearest to `mid`. */
  function NearestSlot(scenes: seq<SlotScene>, slots: seq<SlotId>, mid: real): (r: SlotId)
    requires slots != []
    ensures r in slots
    ensures forall k :: 0 <= k < |slots| ==> Distance(MidOf(scenes, r), mid) <= Distance(MidOf(scenes, slots[k]), mid)
  {
    var n := |slots| - 1;
    if n == 0 then slots[0]
    else
      var before := NearestSlot(scenes, slots[..n], mid);
      assert forall k :: 0 <= k < n ==> slots[..n][k] == slots[k];
      if Distance(MidOf(scenes, slots[n]), mid) < Distance(MidOf(scenes, before), mid) then slots[n] else before
  }

  function FocusSideways(s: Space, cur: SlotId, t: nat, v: View): Space
    requires Drawable(s, v) && t < |s.columns|
  {
    var col := s.columns[t];
    if col.slots == [] then s
    else if col.tabbed then
      Normalize(s.(focus := Some(col.slots[Min(col.active, |col.slots| - 1)])))
    else
      var n := Scened(s, v);
      var scenes := LayoutSlots(Normalize(s), v);
      n.(focus := Some(NearestSlot(scenes, col.slots, MidOf(scenes, cur))))
  }

  function FocusDir(s: Space, dir: Dir, v: View): Space
    requires Drawable(s, v)
  {
    match s.focus
    case None =>
      s.(focus := if s.columns != [] && s.columns[0].slots != [] then Some(s.columns[0].slots[0]) else None)
    case Some(cur) =>
      match Locate(s.columns, cur)
      case None => s
      case Some((c, r)) =>
        match dir
        case Up => if r > 0 then s.(focus := Some(s.columns[c].slots[r - 1])) else s
        case Down => if r + 1 < |s.columns[c].slots| then s.(focus := Some(s.columns[c].slots[r + 1])) else s
        case _ =>
          match Beside(|s.columns|, c, dir)
          case None => s
          case Some(t) => FocusSideways(s, cur, t, v)
  }

  // ---- columns lie apart --------------------------------------------------------------------

  /** Columns follow one another a gap apart, so none overlaps another. */
  lemma {:induction false} ColumnsApart(s: Space, c: nat, d: nat, v: View)
    requires Drawable(s, v) && c < d <= |s.columns|
    ensures ColX(s, c, v) + ColumnWidth(s, s.columns[c], v) + v.gap <= ColX(s, d, v)
    ensures d == c + 1 ==> ColX(s, d, v) == ColX(s, c, v) + ColumnWidth(s, s.columns[c], v) + v.gap
    decreases d
  {
    if d > c + 1 {
      ColumnsApart(s, c, d - 1, v);
    }
  }

  // ---- every slot has its rectangle ---------------------------------------------------------

  /** The row a slot of a plain column is drawn at, below `before`. */
  function RowTop(s: Space, before: seq<SlotId>, col: Column, v: View): real
    requires Drawable(s, v)
  {
    if before == [] then v.gap
    else
      var n := |before| - 1;
      RowTop(s, before[..n], col, v) + RowHeight(s, col, before[n], v) + v.gap
  }

  /** Where the slot at column `c`, row `r` is drawn: across its column, below
      the rows before it, or under the strip of a tabbed one. */
  function DrawnAt(s: Space, c: nat, r: nat, v: View): SlotScene
    requires Drawable(s, v) && c < |s.columns| && r < |s.columns[c].slots|
  {
    var col, x, w := s.columns[c], ColX(s, c, v), ColumnWidth(s, s.columns[c], v);
    if col.tabbed then SlotScene(col.slots[r], TabRect(x, w, v), r == Min(col.active, |col.slots| - 1))
    else
      SlotScene(col.slots[r], Rect(x, RowTop(s, col.slots[..r], col, v), w, RowHeight(s, col, col.slots[r], v)), true)
  }

  lemma {:induction false} SceneOfConcat(a: seq<SlotScene>, b: seq<SlotScene>, sid: SlotId)
    ensures SceneOf(a + b, sid) == if SceneOf(a, sid).Some? then SceneOf(a, sid) else SceneOf(b, sid)
    decreases |a|
  {
    if a == [] {
      assert a + b == b;
    } else {
      assert (a + b)[1..] == a[1..] + b;
      SceneOfConcat(a[1..], b, sid);
    }
  }

  lemma {:induction false} StackLacks(s: Space, col: Column, q: nat, x: real, y: real, w: real, v: View, sid: SlotId)
    requires Drawable(s, v) && q <= |col.slots| && sid !in col.slots
    ensures SceneOf(StackScenes(s, col, q, x, y, w, v), sid).None?
    decreases |col.slots| - q
  {
    hide RowHeight;
    if q < |col.slots| {
      var y' := if col.slots[q] in s.slots then y + RowHeight(s, col, col.slots[q], v) + v.gap else y;
      StackLacks(s, col, q + 1, x, y', w, v, sid);
    }
  }

  lemma {:induction false} TabsLack(col: Column, q: nat, rect: Rect, sid: SlotId)
    requires q <= |col.slots| && sid !in col.slots
    ensures SceneOf(TabScenes(col, q, rect), sid).None?
    decreases |col.slots| - q
  {
    if q < |col.slots| {
      TabsLack(col, q + 1, rect, sid);
    }
  }

  lemma {:induction false} StackDraws(s: Space, col: Column, q: nat, r: nat, x: real, w: real, v: View)
    requires Drawable(s, v) && q <= r < |col.slots|
    requires forall k :: 0 <= k < |col.slots| ==> col.slots[k] in s.slots
    requires forall k :: 0 <= k < |col.slots| && k != r ==> col.slots[k] != col.slots[r]
    ensures SceneOf(StackScenes(s, col, q, x, RowTop(s, col.slots[..q], col, v), w, v), col.slots[r])
         == Some(SlotScene(col.slots[r],
              Rect(x, RowTop(s, col.slots[..r], col, v), w, RowHeight(s, col, col.slots[r], v)), true))
    decreases r - q
  {
    hide RowHeight;
    if q < r {
      assert col.slots[..q + 1][..q] == col.slots[..q];
      StackDraws(s, col, q + 1, r, x, w, v);
    }
  }

  lemma {:induction false} TabsDraw(col: Column, q: nat, r: nat, rect: Rect)
    requires q <= r < |col.slots|
    requires forall k :: 0 <= k < |col.slots| && k != r ==> col.slots[k] != col.slots[r]
    ensures SceneOf(TabScenes(col, q, rect), col.slots[r])
         == Some(SlotScene(col.slots[r], rect, r == Min(col.active, |col.slots| - 1)))
    decreases r - q
  {
    if q < r {
      TabsDraw(col, q + 1, r, rect);
    }
  }

  lemma ColumnDraws(s: Space, c: nat, r: nat, v: View)
    requires Inv(s) && Drawable(s, v) && c < |s.columns| && r < |s.columns[c].slots|
    ensures SceneOf(ColumnScenes(s, c, v), s.columns[c].slots[r]) == Some(DrawnAt(s, c, r, v))
  {
    hide Inv, RowHeight, ColX, ColumnWidth, TabRect;
    var col, x, w := s.columns[c], ColX(s, c, v), ColumnWidth(s, s.columns[c], v);
    forall k | 0 <= k < |col.slots| ensures col.slots[k] in s.slots && (col.slots[k] == col.slots[r] ==> k == r) {
      Stands(s, col.slots[k], c, k);
      Stands(s, col.slots[r], c, r);
    }
    if col.tabbed {
      TabsDraw(col, 0, r, TabRect(x, w, v));
    } else {
      assert col.slots[..0] == [];
      StackDraws(s, col, 0, r, x, w, v);
    }
  }

  lemma ColumnLacks(s: Space, c: nat, v: View, sid: SlotId)
    requires Drawable(s, v) && c < |s.columns| && sid !in s.columns[c].slots
    ensures SceneOf(ColumnScenes(s, c, v), sid).None?
  {
    hide ColX, ColumnWidth, TabRect;
    var col, x, w := s.columns[c], ColX(s, c, v), ColumnWidth(s, s.columns[c], v);
    TabsLack(col, 0, TabRect(x, w, v), sid);
    StackLacks(s, col, 0, x, v.gap, w, v, sid);
  }

  lemma {:induction false} ScenesDraw(s: Space, c: nat, d: nat, r: nat, v: View)
    requires Inv(s) && Drawable(s, v) && c <= d < |s.columns| && r < |s.columns[d].slots|
    ensures SceneOf(ScenesFrom(s, c, v), s.columns[d].slots[r]) == Some(DrawnAt(s, d, r, v))
    decreases d - c
  {
    hide Inv, ColumnScenes, DrawnAt, SceneOf;
    var sid := s.columns[d].slots[r];
    SceneOfConcat(ColumnScenes(s, c, v), ScenesFrom(s, c + 1, v), sid);
    if c < d {
      ScenesDraw(s, c + 1, d, r, v);
      Stands(s, sid, d, r);
      if k :| 0 <= k < |s.columns[c].slots| && s.columns[c].slots[k] == sid {
        Stands(s, sid, c, k);
      }
      ColumnLacks(s, c, v, sid);
    } else {
      ColumnDraws(s, c, r, v);
    }
  }

  // ---- each slot once ---------------------------------------------------------------------------

  function IdsOf(scenes: seq<SlotScene>): (ids: seq<SlotId>)
    ensures |ids| == |scenes| && forall k :: 0 <= k < |ids| ==> ids[k] == scenes[k].id
  {
    seq(|scenes|, k requires 0 <= k < |scenes| => scenes[k].id)
  }

  lemma IdsConcat(a: seq<SlotScene>, b: seq<SlotScene>)
    ensures IdsOf(a + b) == IdsOf(a) + IdsOf(b)
  {
  }

  lemma {:induction false} StackIds(s: Space, col: Column, r: nat, x: real, y: real, w: real, v: View)
    requires Drawable(s, v) && r <= |col.slots| && forall k :: 0 <= k < |col.slots| ==> col.slots[k] in s.slots
    ensures IdsOf(StackScenes(s, col, r, x, y, w, v)) == col.slots[r..]
    decreases |col.slots| - r
  {
    hide RowHeight;
    if r < |col.slots| {
      var h := RowHeight(s, col, col.slots[r], v);
      StackIds(s, col, r + 1, x, y + h + v.gap, w, v);
      IdsConcat([SlotScene(col.slots[r], Rect(x, y, w, h), true)], StackScenes(s, col, r + 1, x, y + h + v.gap, w, v));
      assert col.slots[r..] == [col.slots[r]] + col.slots[r + 1..];
    }
  }

  lemma {:induction false} TabIds(col: Column, r: nat, rect: Rect)
    requires r <= |col.slots|
    ensures IdsOf(TabScenes(col, r, rect)) == col.slots[r..]
    decreases |col.slots| - r
  {
    if r < |col.slots| {
      TabIds(col, r + 1, rect);
      IdsConcat([SlotScene(col.slots[r], rect, r == Min(col.active, |col.slots| - 1))], TabScenes(col, r + 1, rect));
      assert col.slots[r..] == [col.slots[r]] + col.slots[r + 1..];
    }
  }

  lemma ColumnIds(s: Space, c: nat, v: View)
    requires Inv(s) && Drawable(s, v) && c < |s.columns|
    ensures IdsOf(ColumnScenes(s, c, v)) == s.columns[c].slots
  {
    hide Inv, ColX, ColumnWidth, TabRect;
    var col, x, w := s.columns[c], ColX(s, c, v), ColumnWidth(s, s.columns[c], v);
    forall k | 0 <= k < |col.slots| ensures col.slots[k] in s.slots {
      Stands(s, col.slots[k], c, k);
    }
    TabIds(col, 0, TabRect(x, w, v));
    StackIds(s, col, 0, x, v.gap, w, v);
    assert col.slots[0..] == col.slots;
  }

  lemma {:induction false} ScenesIds(s: Space, c: nat, v: View)
    requires Inv(s) && Drawable(s, v) && c <= |s.columns|
    ensures multiset(IdsOf(ScenesFrom(s, c, v))) == Bag(s.columns[c..])
    decreases |s.columns| - c
  {
    hide Inv, ColumnScenes, IdsOf;
    if c < |s.columns| {
      ScenesIds(s, c + 1, v);
      ColumnIds(s, c, v);
      IdsConcat(ColumnScenes(s, c, v), ScenesFrom(s, c + 1, v));
      assert s.columns[c..][1..] == s.columns[c + 1..];
    }
  }

  lemma Distinct(ids: seq<SlotId>, all: set<SlotId>)
    requires multiset(ids) == multiset(all)
    ensures |ids| == |all|
    ensures forall i, j :: 0 <= i < j < |ids| ==> ids[i] != ids[j]
  {
    assert |multiset(ids)| == |ids| && |multiset(all)| == |all|;
    forall i, j | 0 <= i < j < |ids| ensures ids[i] != ids[j] {
      assert ids == ids[..j] + ids[j..];
      assert ids[..j][i] in multiset(ids[..j]) && ids[j..][0] in multiset(ids[j..]);
      assert multiset(ids)[ids[j]] == multiset(ids[..j])[ids[j]] + multiset(ids[j..])[ids[j]];
      assert multiset(all)[ids[j]] <= 1;
    }
  }

  /** No slot is drawn twice, and as many are drawn as there are. */
  lemma DrawnOnce(s: Space, v: View)
    requires Inv(s) && Drawable(s, v)
    ensures var scenes := LayoutSlots(s, v);
      && |scenes| == |s.slots|
      && (forall i, j :: 0 <= i < j < |scenes| ==> scenes[i].id != scenes[j].id)
      && (forall k :: 0 <= k < |scenes| ==> scenes[k].id in s.slots)
  {
    hide Inv, ScenesFrom;
    var ids := IdsOf(LayoutSlots(s, v));
    ScenesIds(s, 0, v);
    assert s.columns[0..] == s.columns;
    InvCounts(s);
    Distinct(ids, s.slots.Keys);
    assert |s.slots| == |s.slots.Keys|;
    forall k | 0 <= k < |ids| ensures ids[k] in s.slots {
      assert ids[k] in multiset(ids);
    }
  }

  /** Every slot is drawn where its place in the columns says. */
  lemma SlotDrawn(s: Space, sid: SlotId, v: View)
    requires Inv(s) && Drawable(s, v) && sid in s.slots
    ensures Locate(s.columns, sid).Some?
    ensures var (c, r) := Locate(s.columns, sid).value;
      SceneOf(LayoutSlots(s, v), sid) == Some(DrawnAt(s, c, r, v))
  {
    hide Inv, DrawnAt, SceneOf, ScenesFrom;
    InvCounts(s);
    Located(s, sid);
    var (c, r) := Locate(s.columns, sid).value;
    ScenesDraw(s, 0, c, r, v);
  }

  lemma InvCounts(s: Space)
    requires Inv(s)
    ensures Bag(s.columns) == multiset(s.slots.Keys)
  {
  }

  /** Slots of one plain column stand a gap apart, one under another. */
  lemma RowsApart(s: Space, c: nat, r: nat, v: View)
    requires Drawable(s, v) && c < |s.columns| && r + 1 < |s.columns[c].slots| && !s.columns[c].tabbed
    ensures DrawnAt(s, c, r + 1, v).rect.y == DrawnAt(s, c, r, v).rect.Bottom() + v.gap
  {
    var slots := s.columns[c].slots;
    assert slots[..r + 1][..r] == slots[..r];
  }

  // ---- the camera shows what it is asked to ---------------------------------------------------------

  /** The whole slot is on screen, a gap clear of either edge. */
  predicate OnScreen(s: Space, sid: SlotId, v: View, camera: real)
    requires Drawable(s, v)
  {
    match SceneOf(LayoutSlots(s, v), sid)
    case None => true
    case Some(p) => camera <= p.rect.x - v.gap && p.rect.Right() + v.gap <= camera + v.w
  }

  /** The same columns of slots, whichever tabs are up and wherever the camera stands. */
  predicate SameStrip(s: Space, t: Space) {
    t == s.(columns := t.columns, camera := t.camera) && SameLists(t.columns, s.columns)
  }

  lemma {:induction false} WidestSame(s: Space, t: Space, slots: seq<SlotId>)
    requires SameStrip(s, t)
    ensures WidestOf(t, slots) == WidestOf(s, slots)
  {
    if slots != [] {
      WidestSame(s, t, slots[1..]);
    }
  }

  lemma WidthSame(s: Space, t: Space, c: nat, v: View)
    requires Drawable(s, v) && SameStrip(s, t) && c < |s.columns|
    ensures ColumnWidth(t, t.columns[c], v) == ColumnWidth(s, s.columns[c], v)
  {
    hide UnitsWidth, WidestOf;
    WidestSame(s, t, s.columns[c].slots);
  }

  lemma {:induction false} ColXSame(s: Space, t: Space, c: nat, v: View)
    requires Drawable(s, v) && SameStrip(s, t) && c <= |s.columns|
    ensures ColX(t, c, v) == ColX(s, c, v)
    decreases c
  {
    hide ColumnWidth;
    if c > 0 {
      ColXSame(s, t, c - 1, v);
      WidthSame(s, t, c - 1, v);
    }
  }

  lemma FirstColumn(s: Space, c: nat, v: View)
    requires Drawable(s, v) && c <= |s.columns|
    ensures ColX(s, c, v) >= v.gap
  {
  }

  /** What the next scene draws after the slot was made visible. */
  function SceneAfter(s: Space, sid: SlotId, v: View): seq<SlotScene>
    requires Drawable(s, v)
  {
    LayoutSlots(Normalize(EnsureVisible(s, sid, v)), v)
  }

  lemma ScenedRect(s: Space, sid: SlotId, v: View)
    requires Inv(s) && Drawable(s, v) && sid in s.slots
    ensures var n := Normalize(EnsureVisible(s, sid, v));
      SceneOf(LayoutSlots(n, v), sid).Some? && MaxCamera(n, v) == MaxCamera(s, v)
    ensures var after, before := RectOf(SceneAfter(s, sid, v), sid), RectOf(LayoutSlots(s, v), sid);
      after.x == before.x && after.w == before.w
  {
    hide Inv, LayoutSlots, ColX, ColumnWidth, RowTop, RowHeight, EnsureVisible, Locate, Normalize;
    var e := EnsureVisible(s, sid, v);
    OnlyCamera(s, sid, v);
    CameraInv(s, e.camera);
    NormalizeInv(e);
    var n := Normalize(e);
    SlotDrawn(s, sid, v);
    SlotDrawn(n, sid, v);
    SameListsAgree(n.columns, s.columns);
    var (c, r) := Locate(s.columns, sid).value;
    ColXSame(s, n, c, v);
    WidthSame(s, n, c, v);
    ColXSame(s, n, |s.columns|, v);
  }

  lemma OnlyCamera(s: Space, sid: SlotId, v: View)
    requires Drawable(s, v)
    ensures EnsureVisible(s, sid, v) == s.(camera := EnsureVisible(s, sid, v).camera)
  {
  }

  lemma CameraInv(s: Space, camera: real)
    requires Inv(s)
    ensures Inv(s.(camera := camera))
  {
  }

  /** Making a slot visible leaves the camera alone when the slot is on screen
      already; and the scene drawn next, its camera clamped to the strip, has
      the whole of the slot on screen when the screen is wide enough for it. */
  lemma EnsuredIsOnScreen(s: Space, sid: SlotId, v: View)
    requires Inv(s) && Drawable(s, v) && sid in s.slots
    ensures OnScreen(s, sid, v, s.camera) ==> EnsureVisible(s, sid, v) == s
    ensures var t, rect := Scened(EnsureVisible(s, sid, v), v), RectOf(SceneAfter(s, sid, v), sid);
      SceneOf(SceneAfter(s, sid, v), sid).Some?
      && (rect.w + 2.0 * v.gap <= v.w ==> t.camera <= rect.x - v.gap && rect.Right() + v.gap <= t.camera + v.w)
  {
    hide Inv, LayoutSlots, ColX, ColumnWidth, RowTop, RowHeight, MaxCamera, Normalize;
    ScenedRect(s, sid, v);
    SlotDrawn(s, sid, v);
    StripHolds(s, sid, v);
    var e := EnsureVisible(s, sid, v);
    assert Normalize(e).camera == e.camera by { OnlyColumns(e); }
  }

  lemma OnlyColumns(s: Space)
    ensures Normalize(s) == s.(columns := Normalize(s).columns)
  {
  }

  /** The clamp to the strip takes no slot off the screen. */
  lemma StripHolds(s: Space, sid: SlotId, v: View)
    requires Inv(s) && Drawable(s, v) && sid in s.slots
    ensures var rect := RectOf(LayoutSlots(s, v), sid);
      rect.x - v.gap >= 0.0 && rect.Right() + v.gap - v.w <= MaxCamera(s, v)
  {
    hide Inv, LayoutSlots, ColX, ColumnWidth, RowTop, RowHeight;
    SlotDrawn(s, sid, v);
    var c := ColOf(s.columns, sid).value;
    ColumnsApart(s, c, |s.columns|, v);
    FirstColumn(s, c, v);
  }

  /** A slot too wide for the screen is shown from its left edge. */
  lemma EnsuredWideSlot(s: Space, sid: SlotId, v: View)
    requires Inv(s) && Drawable(s, v) && sid in s.slots
    requires RectOf(LayoutSlots(s, v), sid).w + 2.0 * v.gap > v.w
    ensures EnsureVisible(s, sid, v).camera == RectOf(LayoutSlots(s, v), sid).x - v.gap
  {
    hide Inv, LayoutSlots, ColX, ColumnWidth, RowTop, RowHeight;
    SlotDrawn(s, sid, v);
  }

  // ---- focus steps ------------------------------------------------------------------------------------

  /** `x` is among `slots`, and none of them is drawn nearer to `cur`'s centre. */
  predicate NearestIn(scenes: seq<SlotScene>, slots: seq<SlotId>, x: SlotId, cur: SlotId) {
    && x in slots
    && forall k :: 0 <= k < |slots| ==>
         Distance(MidOf(scenes, x), MidOf(scenes, cur)) <= Distance(MidOf(scenes, slots[k]), MidOf(scenes, cur))
  }

  /** `t` differs from `s` in focus, camera and raised tabs at most. */
  predicate OnlyFocus(s: Space, t: Space) {
    t.nextId == s.nextId && t.slots == s.slots && t.joins == s.joins && SameLists(t.columns, s.columns)
  }

  lemma SidewaysSteps(s: Space, cur: SlotId, b: nat, v: View)
    requires Inv(s) && Drawable(s, v) && b < |s.columns|
    ensures var t, slots := FocusSideways(s, cur, b, v), s.columns[b].slots;
      && slots != [] && Inv(t) && OnlyFocus(s, t) && t.focus.Some?
      && (if s.columns[b].tabbed then t.focus.value == slots[Min(s.columns[b].active, |slots| - 1)]
          else NearestIn(LayoutSlots(Normalize(s), v), slots, t.focus.value, cur))
  {
    hide Bag, LayoutSlots, MidOf, Distance, Normalize, MaxCamera;
    var slots := s.columns[b].slots;
    assert slots != [];
    var t := FocusSideways(s, cur, b, v);
    NormalizeInv(s);
    if s.columns[b].tabbed {
      var tab := Min(s.columns[b].active, |slots| - 1);
      Stands(s, slots[tab], b, tab);
      NormalizeInv(s.(focus := Some(slots[tab])));
    } else {
      var k :| 0 <= k < |slots| && slots[k] == t.focus.value;
      Stands(s, slots[k], b, k);
    }
  }

  /** One row up or down from `r`, where there is one. */
  function Row(r: nat, rows: nat, dir: Dir): Option<nat> {
    if dir == Up && r > 0 then Some(r - 1)
    else if dir == Down && r + 1 < rows then Some(r + 1)
    else None
  }

  lemma RowSteps(s: Space, dir: Dir, v: View, c: nat, r: nat)
    requires Inv(s) && Drawable(s, v) && (dir == Up || dir == Down)
    requires s.focus.Some? && Locate(s.columns, s.focus.value) == Some((c, r))
    ensures var t, slots := FocusDir(s, dir, v), s.columns[c].slots;
      Inv(t) && OnlyFocus(s, t)
      && t == match Row(r, |slots|, dir) case None => s case Some(q) => s.(focus := Some(slots[q]))
  {
    hide Inv, FocusSideways, Locate;
    var slots := s.columns[c].slots;
    if dir == Up && r > 0 {
      Stands(s, slots[r - 1], c, r - 1);
      LiveFocusInv(s, slots[r - 1]);
    } else if dir == Down && r + 1 < |slots| {
      Stands(s, slots[r + 1], c, r + 1);
      LiveFocusInv(s, slots[r + 1]);
    }
  }

  lemma FirstFocus(s: Space, dir: Dir, v: View)
    requires Inv(s) && Drawable(s, v) && s.focus.None?
    ensures var t := FocusDir(s, dir, v);
      Inv(t) && OnlyFocus(s, t) && t.focus == if s.columns == [] then None else Some(s.columns[0].slots[0])
  {
    hide Inv, FocusSideways, Locate;
    InvNoneEmpty(s);
    if s.columns != [] {
      Stands(s, s.columns[0].slots[0], 0, 0);
      LiveFocusInv(s, s.columns[0].slots[0]);
    }
  }

  lemma LiveFocusInv(s: Space, sid: SlotId)
    requires Inv(s) && sid in s.slots
    ensures Inv(s.(focus := Some(sid)))
  {
  }

  /** A focus step moves focus only: to the row above or below, to the shown
      tab of a tabbed column beside, or to the slot beside whose centre is
      nearest. With nothing focused it goes to the first slot there is. */
  lemma FocusDirSteps(s: Space, dir: Dir, v: View)
    requires Inv(s) && Drawable(s, v)
    ensures var t := FocusDir(s, dir, v); Inv(t) && OnlyFocus(s, t)
    ensures s.focus.None? ==>
      FocusDir(s, dir, v).focus == if s.columns == [] then None else Some(s.columns[0].slots[0])
    ensures s.focus.Some? && (dir == Up || dir == Down) ==>
      match Locate(s.columns, s.focus.value)
      case None => FocusDir(s, dir, v) == s
      case Some((c, r)) =>
        var slots := s.columns[c].slots;
        FocusDir(s, dir, v) == match Row(r, |slots|, dir) case None => s case Some(q) => s.(focus := Some(slots[q]))
    ensures s.focus.Some? && (dir == Left || dir == Right) ==>
      var t := FocusDir(s, dir, v);
      match Locate(s.columns, s.focus.value)
      case None => t == s
      case Some((c, _)) =>
        match Beside(|s.columns|, c, dir)
        case None => t == s
        case Some(b) =>
          var slots := s.columns[b].slots;
          slots != [] && t.focus.Some?
          && (if s.columns[b].tabbed then t.focus.value == slots[Min(s.columns[b].active, |slots| - 1)]
              else NearestIn(LayoutSlots(Normalize(s), v), slots, t.focus.value, s.focus.value))
  {
    hide Inv, LayoutSlots, NearestIn, Normalize, FocusSideways, Locate;
    if s.focus.None? {
      FirstFocus(s, dir, v);
    } else if dir == Up || dir == Down {
      if Locate(s.columns, s.focus.value).Some? {
        var (c, r) := Locate(s.columns, s.focus.value).value;
        RowSteps(s, dir, v, c, r);
      }
    } else if Locate(s.columns, s.focus.value).Some? {
      var (c, r) := Locate(s.columns, s.focus.value).value;
      if Beside(|s.columns|, c, dir).Some? {
        SidewaysSteps(s, s.focus.value, Beside(|s.columns|, c, dir).value, v);
      }
    }
  }

  // ---- snapping -----------------------------------------------------------------------------------------

  lemma {:induction false} AlignmentsSame(s: Space, c: nat, v: View, camera: real)
    requires Drawable(s, v) && c <= |s.columns|
    ensures MaxCamera(s.(camera := camera), v) == MaxCamera(s, v)
    ensures Alignments(s.(camera := camera), c, v) == Alignments(s, c, v)
    decreases c
  {
    hide ColumnWidth, ColX;
    ColXSame(s, s.(camera := camera), |s.columns|, v);
    if c > 0 {
      WidthSame(s, s.(camera := camera), c - 1, v);
      ColXSame(s, s.(camera := camera), c - 1, v);
      AlignmentsSame(s, c - 1, v, camera);
    }
  }

  /** Snapping lands on an alignment in range that no other beats, and stays. */
  lemma SnapIsNearest(s: Space, v: View)
    requires Drawable(s, v)
    ensures var t := SnapCamera(s, v);
      && 0.0 <= t.camera <= MaxCamera(s, v)
      && (s.columns != [] ==>
            var cur, all := Clamp(s.camera, 0.0, MaxCamera(s, v)), Alignments(s, |s.columns|, v);
            && t.camera in all
            && forall k :: 0 <= k < |all| ==> Distance(cur, t.camera) <= Distance(cur, all[k]))
      && SnapCamera(t, v) == t
  {
    hide Alignments, MaxCamera, Distance;
    var t := SnapCamera(s, v);
    AlignmentsSame(s, |s.columns|, v, t.camera);
    var all := Alignments(s, |s.columns|, v);
    if s.columns != [] {
      var k :| 0 <= k < |all| && all[k] == t.camera;
      assert Clamp(t.camera, 0.0, MaxCamera(s, v)) == t.camera;
      var again := Nearest(all, t.camera).value;
      DistanceZero(t.camera, again, all[k]);
    }
  }

  lemma DistanceZero(cur: real, a: real, b: real)
    requires b == cur && Distance(cur, a) <= Distance(cur, b)
    ensures a == cur
  {
  }

  // ---- rows fit the viewport ---------------------------------------------------------------------------------

  lemma {:induction false} UsedSnoc(s: Space, slots: seq<SlotId>, sid: SlotId)
    ensures UsedH(s, slots + [sid]) == UsedH(s, slots) + SlotGrid(s, sid).1
  {
    if slots == [] {
      assert ([sid])[1..] == [];
    } else {
      assert (slots + [sid])[1..] == slots[1..] + [sid];
      UsedSnoc(s, slots[1..], sid);
    }
  }

  lemma {:induction false} UsedPrefix(s: Space, slots: seq<SlotId>, n: nat)
    requires n <= |slots|
    ensures UsedH(s, slots[..n]) <= UsedH(s, slots)
    decreases |slots| - n
  {
    if n == |slots| {
      assert slots[..n] == slots;
    } else {
      UsedPrefix(s, slots, n + 1);
      assert slots[..n + 1] == slots[..n] + [slots[n]];
      UsedSnoc(s, slots[..n], slots[n]);
    }
  }

  /** In a column that is not overfull, a row starts below the rows asked for before it. */
  lemma {:induction false} PlainRowTop(s: Space, col: Column, n: nat, v: View)
    requires Drawable(s, v) && !Overfull(s, col) && n <= |col.slots|
    ensures RowTop(s, col.slots[..n], col, v)
         == v.gap + RowsSpan(UsedH(s, col.slots[..n]), RowUnit(s, v), v.gap)
    decreases n
  {
    hide RowUnit, UsedH, SlotGrid, RowsHeight, RowsSpan;
    if n == 0 {
      assert col.slots[..0] == [];
      NothingUsed(s, RowUnit(s, v), v.gap);
    } else {
      PlainRowTop(s, col, n - 1, v);
      assert col.slots[..n][..n - 1] == col.slots[..n - 1];
      assert col.slots[..n] == col.slots[..n - 1] + [col.slots[n - 1]];
      UsedSnoc(s, col.slots[..n - 1], col.slots[n - 1]);
      Distribute(UsedH(s, col.slots[..n - 1]), SlotGrid(s, col.slots[n - 1]).1, RowUnit(s, v), v.gap);
    }
  }

  lemma NothingUsed(s: Space, unit: real, gap: real)
    ensures UsedH(s, []) == 0 && RowsSpan(0, unit, gap) == 0.0
  {
  }

  lemma Distribute(a: nat, b: nat, unit: real, gap: real)
    ensures RowsSpan(a, unit, gap) + RowsHeight(b, unit, gap) + gap == RowsSpan(a + b, unit, gap)
  {
  }

  lemma UnitFills(s: Space, v: View)
    requires Drawable(s, v)
    ensures s.grid.h as real * RowUnit(s, v) == v.h - 2.0 * v.gap - (s.grid.h as real - 1.0) * v.gap
  {
    assert (s.grid.h - 1) as real == s.grid.h as real - 1.0;
    DivideBack(v.h - 2.0 * v.gap - (s.grid.h as real - 1.0) * v.gap, s.grid.h as real);
  }

  lemma DivideBack(a: real, h: real)
    requires h > 0.0
    ensures h * (a / h) == a
  {
    Quotient(a, h, a / h);
  }

  lemma Quotient(a: real, h: real, q: real)
    requires h > 0.0 && q == a / h
    ensures h * q == a
  {
    assert q * h == a;
  }

  lemma GridSpan(s: Space, v: View)
    requires Drawable(s, v)
    ensures RowsSpan(s.grid.h, RowUnit(s, v), v.gap) == v.h - v.gap
  {
    hide RowUnit;
    var h, u := s.grid.h as real, RowUnit(s, v);
    UnitFills(s, v);
    assert h * (u + v.gap) == h * u + h * v.gap;
    assert (h - 1.0) * v.gap == h * v.gap - v.gap;
  }

  lemma SpanGrows(a: nat, b: nat, unit: real, gap: real)
    requires a <= b && unit + gap >= 0.0
    ensures RowsSpan(a, unit, gap) <= RowsSpan(b, unit, gap)
  {
    Scale((b - a) as real, unit + gap);
    assert b as real * (unit + gap) == a as real * (unit + gap) + (b - a) as real * (unit + gap);
  }

  lemma Scale(a: real, x: real)
    requires a >= 0.0 && x >= 0.0
    ensures a * x >= 0.0
  {
  }

  /** A plain column that asks for no more rows than the grid has ends above
      the bottom margin, whatever its slots. */
  lemma PlainColumnFits(s: Space, c: nat, n: nat, v: View)
    requires Drawable(s, v) && v.gap <= v.h && c < |s.columns| && n < |s.columns[c].slots|
    requires !s.columns[c].tabbed && !Overfull(s, s.columns[c])
    ensures DrawnAt(s, c, n, v).rect.Bottom() <= v.h - v.gap
  {
    hide RowUnit, UsedH, SlotGrid, RowHeight, ColX, ColumnWidth, RowsSpan;
    var col := s.columns[c];
    var slots := col.slots;
    assert slots[..n + 1] == slots[..n] + [slots[n]];
    assert slots[..n + 1][..n] == slots[..n];
    PlainRowTop(s, col, n + 1, v);
    UsedPrefix(s, slots, n + 1);
    NotOverfull(s, col);
    GridSpan(s, v);
    UnitPositive(s, v);
    SpanGrows(UsedH(s, slots[..n + 1]), s.grid.h, RowUnit(s, v), v.gap);
  }

  lemma NotOverfull(s: Space, col: Column)
    requires !Overfull(s, col)
    ensures UsedH(s, col.slots) <= s.grid.h
  {
  }

  lemma UnitPositive(s: Space, v: View)
    requires Drawable(s, v) && v.gap <= v.h
    ensures RowUnit(s, v) + v.gap >= 0.0
  {
    GridSpan(s, v);
    NonNegative(s.grid.h, RowUnit(s, v) + v.gap);
  }

  lemma NonNegative(a: nat, x: real)
    requires a > 0 && a as real * x >= 0.0
    ensures x >= 0.0
  {
    assert x == (a as real * x) / a as real;
  }
}
