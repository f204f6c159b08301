/** Blocks flow left to right and wrap into rows. */
module CanvasFlow {
  import opened Base
  import opened SceneGraph
  import opened Canvas
  import opened CanvasApart

  datatype Extent = Extent(w: real, h: real)

  /** Where the next block goes, the height of the row, the width so far. */
  datatype Flow = Flow(x: real, y: real, rowH: real, wMax: real)

  predicate RowFull(f: Flow, w: real) {
    f.x > MARGIN && f.x + w > ROW_W
  }

  function PlaceNext(f: Flow, w: real): Point {
    if RowFull(f, w) then Point(MARGIN, f.y + f.rowH + BLOCK_GAP) else Point(f.x, f.y)
  }

  function FlowOn(f: Flow, size: Extent): Flow {
    var at, rowH := PlaceNext(f, size.w), if RowFull(f, size.w) then 0.0 else f.rowH;
    var x := at.x + (size.w + BLOCK_GAP);
    Flow(x, at.y, MaxReal(rowH, size.h), MaxReal(f.wMax, x - BLOCK_GAP + MARGIN))
  }

  /** After the first `k` blocks. */
  function FlowAt(sizes: seq<Extent>, k: nat): Flow
    requires k <= |sizes|
  {
    if k == 0 then Flow(MARGIN, MARGIN, 0.0, 0.0) else FlowOn(FlowAt(sizes, k - 1), sizes[k - 1])
  }

  function At(sizes: seq<Extent>, k: nat): Point
    requires k < |sizes|
  {
    PlaceNext(FlowAt(sizes, k), sizes[k].w)
  }

  predicate SizesOk(sizes: seq<Extent>) {
    forall k :: 0 <= k < |sizes| ==> sizes[k].w >= 0.0 && sizes[k].h >= 0.0
  }

  lemma {:induction false} FlowBasics(sizes: seq<Extent>, k: nat)
    requires SizesOk(sizes) && k <= |sizes|
    ensures var f := FlowAt(sizes, k);
      f.x >= MARGIN && f.y >= MARGIN && f.rowH >= 0.0 && f.wMax >= 0.0 && (k > 0 ==> f.x >= MARGIN + BLOCK_GAP)
  {
    if k > 0 {
      FlowBasics(sizes, k - 1);
    }
  }

  /** A block placed stays clear of everything after it. */
  lemma {:induction false} Cleared(sizes: seq<Extent>, i: nat, k: nat)
    requires SizesOk(sizes) && i < k <= |sizes|
    ensures var f, at, size := FlowAt(sizes, k), At(sizes, i), sizes[i];
      && ((at.y == f.y && at.x + size.w + BLOCK_GAP <= f.x && size.h <= f.rowH) || at.y + size.h + BLOCK_GAP <= f.y)
      && at.x + size.w + MARGIN <= f.wMax
    decreases k
  {
    FlowBasics(sizes, k - 1);
    if i < k - 1 {
      Cleared(sizes, i, k - 1);
    }
  }

  function BoundsAt(sizes: seq<Extent>, k: nat): Rect
    requires k < |sizes|
  {
    Rect(At(sizes, k).x, At(sizes, k).y, sizes[k].w, sizes[k].h)
  }

  /** Of two blocks the later is a gap to the right in the same row, or a gap
      below in a later row. */
  lemma BlocksApart(sizes: seq<Extent>, i: nat, j: nat)
    requires SizesOk(sizes) && i < j < |sizes|
    ensures var a, b := BoundsAt(sizes, i), BoundsAt(sizes, j);
      || (a.y == b.y && a.Right() + BLOCK_GAP <= b.x)
      || a.Bottom() + BLOCK_GAP <= b.y
  {
    Cleared(sizes, i, j);
    FlowBasics(sizes, j);
  }

  /** A row is no wider than its width unless one block fills it. */
  lemma RowsFit(sizes: seq<Extent>, k: nat)
    requires SizesOk(sizes) && k < |sizes|
    ensures var b := BoundsAt(sizes, k); b.x >= MARGIN && b.y >= MARGIN && (b.x == MARGIN || b.Right() <= ROW_W)
  {
    FlowBasics(sizes, k);
  }

  function CanvasW(sizes: seq<Extent>): real {
    MaxReal(FlowAt(sizes, |sizes|).wMax, MARGIN * 2.0)
  }

  function CanvasH(sizes: seq<Extent>): real {
    var f := FlowAt(sizes, |sizes|);
    MaxReal(f.y + f.rowH + MARGIN, MARGIN * 2.0)
  }

  /** Every block lies a margin inside the canvas. */
  lemma CanvasHolds(sizes: seq<Extent>, k: nat)
    requires SizesOk(sizes) && k < |sizes|
    ensures var b := BoundsAt(sizes, k);
      b.Right() + MARGIN <= CanvasW(sizes) && b.Bottom() + MARGIN <= CanvasH(sizes)
  {
    Cleared(sizes, k, |sizes|);
    FlowBasics(sizes, |sizes|);
  }

  // ---- blocks in their places ---------------------------------------------------------------

  function Moved(p: Point, dx: real, dy: real): Point {
    Point(p.x + dx, p.y + dy)
  }

  function MovedRect(r: Rect, dx: real, dy: real): Rect {
    Rect(r.x + dx, r.y + dy, r.w, r.h)
  }

  function MovedBox(b: NodeBox, dx: real, dy: real): NodeBox {
    b.(rect := MovedRect(b.rect, dx, dy), caption := Moved(b.caption, dx, dy))
  }

  function MovedArrow(a: Arrow, dx: real, dy: real): Arrow {
    a.(start := Moved(a.start, dx, dy), elbow := a.elbow + dx, end := Moved(a.end, dx, dy), textAt := Moved(a.textAt, dx, dy))
  }

  function Shifted(b: Block, dx: real, dy: real): Block {
    b.(title := Moved(b.title, dx, dy), noteAt := Moved(b.noteAt, dx, dy),
       nodes := seq(|b.nodes|, i requires 0 <= i < |b.nodes| => MovedBox(b.nodes[i], dx, dy)),
       arrows := seq(|b.arrows|, i requires 0 <= i < |b.arrows| => MovedArrow(b.arrows[i], dx, dy)),
       bounds := MovedRect(b.bounds, dx, dy))
  }

  /** A block as the source holds it while it is put in its place. */
  class Sheet {
    var title: Point
    var noteAt: Point
    var nodes: seq<NodeBox>
    var arrows: seq<Arrow>
    var bounds: Rect
    const scene: nat
    const note: seq<string>

    ghost function Value(): Block
      reads this
    {
      Block(scene, title, noteAt, note, nodes, arrows, bounds)
    }

    constructor (b: Block)
      ensures Value() == b
    {
      scene, note := b.scene, b.note;
      title, noteAt, nodes, arrows, bounds := b.title, b.noteAt, b.nodes, b.arrows, b.bounds;
    }

    method Shift(dx: real, dy: real)
      modifies this
      ensures Value() == Shifted(old(Value()), dx, dy)
    {
      title, noteAt := Moved(title, dx, dy), Moved(noteAt, dx, dy);
      for i := 0 to |nodes|
        invariant |nodes| == |old(nodes)|
        invariant title == Moved(old(title), dx, dy) && noteAt == Moved(old(noteAt), dx, dy)
        invariant arrows == old(arrows) && bounds == old(bounds)
        invariant forall k :: 0 <= k < i ==> nodes[k] == MovedBox(old(nodes)[k], dx, dy)
        invariant forall k :: i <= k < |nodes| ==> nodes[k] == old(nodes)[k]
      {
        nodes := nodes[i := MovedBox(nodes[i], dx, dy)];
      }
      ghost var moved := nodes;
      for i := 0 to |arrows|
        invariant |arrows| == |old(arrows)|
        invariant title == Moved(old(title), dx, dy) && noteAt == Moved(old(noteAt), dx, dy)
        invariant nodes == moved && bounds == old(bounds)
        invariant forall k :: 0 <= k < i ==> arrows[k] == MovedArrow(old(arrows)[k], dx, dy)
        invariant forall k :: i <= k < |arrows| ==> arrows[k] == old(arrows)[k]
      {
        arrows := arrows[i := MovedArrow(arrows[i], dx, dy)];
      }
      bounds := MovedRect(bounds, dx, dy);
    }
  }

  // ---- the whole canvas ------------------------------------------------------------------------

  predicate AllShaped(plans: seq<Plan>) {
    forall k :: 0 <= k < |plans| ==> Shaped(plans[k])
  }

  function SizesOf(plans: seq<Plan>): (sizes: seq<Extent>)
    requires AllShaped(plans)
    ensures |sizes| == |plans|
  {
    seq(|plans|, k requires 0 <= k < |plans| => SizeOf(plans[k]))
  }

  function SizeOf(p: Plan): Extent
    requires Shaped(p)
  {
    var bounds := BlockOf(p, 0).bounds;
    Extent(bounds.w, bounds.h)
  }

  /** No lines of a height below nothing. */
  predicate AllLined(plans: seq<Plan>) {
    forall k :: 0 <= k < |plans| ==> plans[k].m.line >= 0.0
  }

  lemma SizesAreOk(plans: seq<Plan>)
    requires AllShaped(plans) && AllLined(plans)
    ensures SizesOk(SizesOf(plans))
  {
    hide Shaped;
    forall k | 0 <= k < |plans| ensures SizeOf(plans[k]).w >= 0.0 && SizeOf(plans[k]).h >= 0.0 {
      BoundsNotNegative(plans[k]);
    }
  }

  lemma BoundsNotNegative(p: Plan)
    requires Shaped(p) && p.m.line >= 0.0
    ensures SizeOf(p).w >= 0.0 && SizeOf(p).h >= 0.0
  {
    hide Bottom, Span, DescriptionOf, BandTop;
    HeadInside(p, 0);
    BandsBelow(p, 0);
  }

  /** A node's mount and caption, on the canvas. */
  function RegionAt(plans: seq<Plan>, k: nat, i: nat): Rect
    requires AllShaped(plans) && k < |plans| && i < Size(plans[k])
  {
    MovedRect(Region(plans[k], i), At(SizesOf(plans), k).x, At(SizesOf(plans), k).y)
  }

  lemma RegionInBlock(plans: seq<Plan>, k: nat, i: nat)
    requires AllShaped(plans) && AllLined(plans) && k < |plans| && i < Size(plans[k])
    ensures Inside(RegionAt(plans, k, i), BoundsAt(SizesOf(plans), k))
  {
    hide Region, At, Shaped, SizeOf;
    RegionInside(plans[k], 0, i);
    SizeIsBounds(plans[k]);
  }

  lemma SizeIsBounds(p: Plan)
    requires Shaped(p)
    ensures BlockOf(p, 0).bounds == Rect(0.0, 0.0, SizeOf(p).w, SizeOf(p).h)
  {
  }

  ghost predicate AllGood(plans: seq<Plan>) {
    forall k :: 0 <= k < |plans| ==> Good(plans[k])
  }

  lemma AllGoodShaped(plans: seq<Plan>)
    requires AllGood(plans)
    ensures AllShaped(plans)
  {
    hide Good, Shaped;
    forall k | 0 <= k < |plans| ensures Shaped(plans[k]) {
      GoodIsShaped(plans[k]);
    }
  }

  lemma InsideApart(a: Rect, b: Rect, c: Rect, d: Rect)
    requires Inside(a, c) && Inside(b, d) && Apart(c, d)
    ensures Apart(a, b)
  {
  }

  lemma MovedApart(a: Rect, b: Rect, dx: real, dy: real)
    requires Apart(a, b)
    ensures Apart(MovedRect(a, dx, dy), MovedRect(b, dx, dy))
  {
  }

  /** No two nodes anywhere on the canvas overlap, captions and all. */
  lemma AllNodesApart(plans: seq<Plan>, k: nat, i: nat, l: nat, j: nat)
    requires AllGood(plans) && AllLined(plans) && k < |plans| && i < Size(plans[k]) && l < |plans| && j < Size(plans[l])
    requires k != l || i != j
    ensures AllShaped(plans) && Apart(RegionAt(plans, k, i), RegionAt(plans, l, j))
  {
    hide Good, Shaped, Region, SizesOf, At, Size, MovedRect;
    AllGoodShaped(plans);
    if k == l {
      NodesApart(plans[k], i, j);
      MovedApart(Region(plans[k], i), Region(plans[k], j), At(SizesOf(plans), k).x, At(SizesOf(plans), k).y);
    } else {
      var sizes := SizesOf(plans);
      SizesAreOk(plans);
      RegionInBlock(plans, k, i);
      RegionInBlock(plans, l, j);
      if k < l {
        BlocksApart(sizes, k, l);
      } else {
        BlocksApart(sizes, l, k);
      }
      InsideApart(RegionAt(plans, k, i), RegionAt(plans, l, j), BoundsAt(sizes, k), BoundsAt(sizes, l));
    }
  }
}
