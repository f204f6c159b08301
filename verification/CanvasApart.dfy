/** Nothing a block draws runs into anything else it draws. */
module CanvasApart {
  import opened Base
  import opened Dag
  import opened SceneGraph
  import opened Canvas

  // ---- columns and bands ------------------------------------------------------------------

  lemma {:induction false} ItemInColumn(p: Plan, i: nat, k: nat)
    requires Shaped(p) && i < k <= Size(p)
    ensures ItemW(p, i) <= ColW(p, p.layer[i], k)
  {
    hide ItemW, Shaped;
    if i < k - 1 {
      ItemInColumn(p, i, k - 1);
    }
  }

  lemma {:induction false} LabelInGap(p: Plan, i: nat, k: nat)
    requires Shaped(p) && i < k <= |LinksOf(p)|
    ensures LinkW(p, i) <= LabelW(p, p.layer[LinksOf(p)[i].from], k)
  {
    hide LinkW, LinksOf;
    if i < k - 1 {
      LabelInGap(p, i, k - 1);
    }
  }

  /** Each column starts a gap past the end of any column before it. */
  lemma {:induction false} ColumnsApart(p: Plan, l: nat, m: nat)
    requires Shaped(p) && l < m
    ensures ColX(p, l) + WidthOf(p, l) + GapOf(p, l) <= ColX(p, m)
    decreases m
  {
    hide Shaped, ColW, LabelW;
    if l < m - 1 {
      ColumnsApart(p, l, m - 1);
    }
  }

  lemma {:induction false} InBand(p: Plan, i: nat, k: nat)
    requires Shaped(p) && i < k <= Size(p)
    ensures p.scene.nodes[i].height <= TallIn(p, p.row[i], k)
    ensures |NoteOf(p, i)| <= LinesIn(p, p.row[i], k)
  {
    hide NoteOf;
    if i < k - 1 {
      InBand(p, i, k - 1);
    }
  }

  lemma CaptionAtLeast(p: Plan, r: nat, lines: nat)
    requires p.m.line >= 0.0
    requires Shaped(p) && lines <= LinesIn(p, r, Size(p))
    ensures LineH(p) >= 0.0 && CaptionH(p, r) >= LineH(p) * (1.0 + lines as real) >= LineH(p)
  {
    hide LinesIn;
    Scales(LineH(p), 1.0 + lines as real, 1.0 + LinesIn(p, r, Size(p)) as real);
    Scales(LineH(p), 1.0, 1.0 + lines as real);
  }

  lemma Scales(c: real, a: real, b: real)
    requires c >= 0.0 && a <= b
    ensures c * a <= c * b
  {
  }

  /** Each band starts a gap below the end of any band above it. */
  lemma {:induction false} BandsApart(p: Plan, r: nat, s: nat)
    requires p.m.line >= 0.0
    requires Shaped(p) && r < s
    ensures NodeTop(p, r) + TallIn(p, r, Size(p)) + ROW_GAP <= BandTop(p, s)
    decreases s
  {
    hide Shaped, TallIn, CaptionH;
    if r < s - 1 {
      BandsApart(p, r, s - 1);
      CaptionAtLeast(p, s - 1, 0);
    }
  }

  lemma {:induction false} BandsBelow(p: Plan, r: nat)
    requires p.m.line >= 0.0
    requires Shaped(p)
    ensures BandTop(p, r) >= NoteBottom(p) + 48.0 && NoteBottom(p) >= NoteTop(p) >= 6.0
  {
    hide TallIn, CaptionH, DescriptionOf;
    Scales(LineH(p), 0.0, |DescriptionOf(p)| as real);
    if r > 0 {
      BandsBelow(p, r - 1);
      CaptionAtLeast(p, r - 1, 0);
    }
  }

  // ---- nodes apart --------------------------------------------------------------------------

  predicate Apart(a: Rect, b: Rect) {
    a.Right() <= b.x || b.Right() <= a.x || a.Bottom() <= b.y || b.Bottom() <= a.y
  }

  /** A node's mount and the caption above it. */
  function Region(p: Plan, i: nat): Rect
    requires Shaped(p) && i < Size(p)
  {
    var box := BoxOf(p, i);
    Rect(box.caption.x, box.caption.y, ItemW(p, i), box.rect.Bottom() - box.caption.y)
  }

  /** The caption ends above its mount, and neither is wider than the region. */
  lemma RegionHolds(p: Plan, i: nat)
    requires p.m.line >= 0.0
    requires Shaped(p) && i < Size(p)
    ensures var box, region := BoxOf(p, i), Region(p, i);
      && box.caption.y + LineH(p) * (1.0 + |box.note| as real) + CAPTION_GAP <= box.rect.y
      && box.rect.x == region.x && box.rect.Right() <= region.Right() && box.rect.Bottom() == region.Bottom()
      && TextW(p.m, p.scene.nodes[i].name, TEXT_PT) <= region.w && Widest(p.m, box.note) <= region.w
  {
    hide ColX, BandTop, LinesIn, NoteOf;
    InBand(p, i, Size(p));
    CaptionAtLeast(p, p.row[i], |NoteOf(p, i)|);
  }

  lemma OneRowOneNode(p: Plan, i: nat, j: nat)
    requires Good(p) && i < Size(p) && j < Size(p) && i != j && p.layer[i] == p.layer[j]
    ensures p.row[i] != p.row[j]
  {
    hide Beside;
    assert Ordered(p.layer, LinksOf(p), p.row, i, j) && Ordered(p.layer, LinksOf(p), p.row, j, i);
  }

  lemma LeftOf(p: Plan, i: nat, j: nat)
    requires Shaped(p) && i < Size(p) && j < Size(p) && p.layer[i] < p.layer[j]
    ensures Region(p, i).Right() + COL_GAP_MIN <= Region(p, j).x
  {
    hide ColX, ItemW, BandTop;
    ColumnsApart(p, p.layer[i], p.layer[j]);
    ItemInColumn(p, i, Size(p));
  }

  lemma AboveOf(p: Plan, i: nat, j: nat)
    requires p.m.line >= 0.0
    requires Shaped(p) && i < Size(p) && j < Size(p) && p.row[i] < p.row[j]
    ensures Region(p, i).Bottom() + ROW_GAP <= Region(p, j).y
  {
    hide ColX, ItemW, BandTop, TallIn;
    BandsApart(p, p.row[i], p.row[j]);
    InBand(p, i, Size(p));
  }

  /** No two nodes' mounts or captions overlap. */
  lemma NodesApart(p: Plan, i: nat, j: nat)
    requires p.m.line >= 0.0
    requires Good(p) && i < Size(p) && j < Size(p) && i != j
    ensures Shaped(p) && Apart(Region(p, i), Region(p, j))
  {
    hide Good, Shaped, Region;
    GoodIsShaped(p);
    if p.layer[i] < p.layer[j] {
      LeftOf(p, i, j);
    } else if p.layer[j] < p.layer[i] {
      LeftOf(p, j, i);
    } else {
      OneRowOneNode(p, i, j);
      if p.row[i] < p.row[j] {
        AboveOf(p, i, j);
      } else {
        AboveOf(p, j, i);
      }
    }
  }

  // ---- arrows -----------------------------------------------------------------------------------

  lemma LongestClimbs(n: nat, arcs: seq<Arc>, layer: seq<nat>, a: nat, b: nat)
    requires Layered(n, arcs, layer) && a < n && b < n && Arc(a, b) in arcs
    ensures layer[a] < layer[b]
  {
    assert LongestTo(arcs, a, layer[a]) && LongestTo(arcs, b, layer[b]);
    var p :| WalkTo(arcs, a, p) && |p| == layer[a] + 1;
    assert WalkTo(arcs, b, p + [b]);
  }

  lemma {:induction false} LinksAreArcs(scene: Scene, k: nat)
    requires AllResolve(scene, |scene.edges|) && k <= |scene.edges|
    ensures |Links(scene, k)| == k
    ensures forall i: nat :: i < k ==> Links(scene, k)[i] == Link(i, ArcOf(scene, i).from, ArcOf(scene, i).to)
  {
    hide Index;
    if k > 0 {
      LinksAreArcs(scene, k - 1);
      assert Resolves(scene, k - 1);
      Found(scene.nodes, scene.edges[k - 1].from);
      Found(scene.nodes, scene.edges[k - 1].to);
    }
  }

  ghost predicate Sound(scene: Scene) {
    AllResolve(scene, |scene.edges|) && !Cyclic(Arcs(scene))
  }

  lemma LinkClimbs(p: Plan, k: nat)
    requires Good(p) && Sound(p.scene) && k < |LinksOf(p)|
    ensures LinksOf(p)[k].from < Size(p) && LinksOf(p)[k].to < Size(p)
    ensures p.layer[LinksOf(p)[k].from] < p.layer[LinksOf(p)[k].to]
  {
    hide Cyclic, Layered, Links, RowsOk, Index;
    LinksAreArcs(p.scene, |p.scene.edges|);
    ArcsWithin(p.scene);
    var link := LinksOf(p)[k];
    assert Arcs(p.scene)[k] == Arc(link.from, link.to);
    LongestClimbs(Size(p), Arcs(p.scene), p.layer, link.from, link.to);
  }

  /** An arrow leaves to the right and arrives from the left, its elbow and its
      words in the gap between. */
  lemma ArrowsAcross(p: Plan, k: nat)
    requires Good(p) && Sound(p.scene) && k < |LinksOf(p)|
    ensures Shaped(p)
    ensures var arrow := ArrowOf(p, k);
      && arrow.start.x < arrow.elbow < arrow.end.x
      && arrow.start.x < arrow.textAt.x && arrow.textAt.x + LinkW(p, k) < arrow.end.x
  {
    hide ColX, BandTop, LinkW, LabelW, ColW, Cyclic, Links, RowsOk, Layered, ItemW, NoteOf;
    GoodIsShaped(p);
    LinkClimbs(p, k);
    var link := LinksOf(p)[k];
    ColumnsApart(p, p.layer[link.from], p.layer[link.to]);
    ItemInColumn(p, link.from, Size(p));
    MountInItem(p, link.from);
    LabelInGap(p, k, |LinksOf(p)|);
  }

  lemma MountInItem(p: Plan, i: nat)
    requires Shaped(p) && i < Size(p)
    ensures p.scene.nodes[i].width <= ItemW(p, i)
  {
  }

  // ---- the block's bounds ---------------------------------------------------------------------------

  lemma {:induction false} InSpan(p: Plan, l: nat, k: nat)
    requires Shaped(p) && l < k
    ensures ColX(p, l) + WidthOf(p, l) <= Span(p, k)
  {
    hide ColX, ColW, Shaped;
    if l < k - 1 {
      InSpan(p, l, k - 1);
    }
  }

  lemma BottomHolds(boxes: seq<NodeBox>, least: real)
    ensures least <= Bottom(boxes, least)
    ensures forall j :: 0 <= j < |boxes| ==> boxes[j].rect.y + boxes[j].rect.h <= Bottom(boxes, least)
  {
  }

  predicate Inside(a: Rect, b: Rect) {
    b.x <= a.x && a.Right() <= b.Right() && b.y <= a.y && a.Bottom() <= b.Bottom()
  }

  /** The bounds hold the title and the description. */
  lemma HeadInside(p: Plan, si: nat)
    requires Shaped(p)
    ensures var b := BlockOf(p, si);
      && b.bounds.x == b.bounds.y == 0.0
      && b.noteAt.y + |b.note| as real * LineH(p) <= b.bounds.h
      && TextW(p.m, p.scene.name, TITLE_PT) <= b.bounds.w && Widest(p.m, b.note) <= b.bounds.w
  {
    hide DescriptionOf, Widest, TextW, Bottom, Span;
    BottomHolds(BoxesOf(p), NoteBottom(p));
  }

  /** The bounds hold every mount and its caption; captions start below the
      description. */
  lemma RegionInside(p: Plan, si: nat, i: nat)
    requires p.m.line >= 0.0
    requires Shaped(p) && i < Size(p)
    ensures var b := BlockOf(p, si);
      && Inside(Region(p, i), b.bounds)
      && Region(p, i).y > b.noteAt.y + |b.note| as real * LineH(p)
  {
    hide ColX, BandTop, ColW, DescriptionOf, ItemW, Widest, TextW, NoteOf, CaptionH, Span, Bottom;
    var boxes := BoxesOf(p);
    assert boxes[i] == BoxOf(p, i);
    BottomHolds(boxes, NoteBottom(p));
    InSpan(p, p.layer[i], LayerCount(p.layer));
    ItemInColumn(p, i, Size(p));
    BandsBelow(p, p.row[i]);
  }

  /** The arrow's line is inside too. */
  lemma ArrowInside(p: Plan, si: nat, k: nat)
    requires p.m.line >= 0.0 && Sized(p.scene)
    requires Good(p) && Sound(p.scene) && k < |LinksOf(p)|
    ensures Shaped(p)
    ensures var arrow, bounds := ArrowOf(p, k), BlockOf(p, si).bounds;
      && 0.0 <= arrow.start.x && arrow.end.x <= bounds.w
      && 0.0 <= arrow.start.y <= bounds.h && 0.0 <= arrow.end.y <= bounds.h
  {
    hide ColX, BandTop, NodeTop, LinkW, LabelW, ColW, Cyclic, Links, RowsOk, Layered, ItemW, NoteOf, Bottom, DescriptionOf, Widest;
    GoodIsShaped(p);
    var link := LinksOf(p)[k];
    RegionInside(p, si, link.from);
    RegionInside(p, si, link.to);
    RegionHolds(p, link.from);
    RegionHolds(p, link.to);
    RegionDown(p, link.from);
    RegionDown(p, link.to);
    ItemAtLeast(p, link.to);
  }

  lemma ItemAtLeast(p: Plan, i: nat)
    requires Shaped(p) && i < Size(p)
    ensures ItemW(p, i) >= 0.0
  {
    hide NoteOf;
  }

  lemma RegionDown(p: Plan, i: nat)
    requires p.m.line >= 0.0
    requires Shaped(p) && i < Size(p)
    ensures BoxOf(p, i).rect.y >= Region(p, i).y
  {
    hide ColX, BandTop, LinesIn, NoteOf;
    CaptionAtLeast(p, p.row[i], 0);
  }

  // ---- an edge's words ---------------------------------------------------------------------------------

  lemma {:induction false} TallestBefore(p: Plan, r: nat, k: nat) returns (j: nat)
    requires Shaped(p) && k <= Size(p) && TallIn(p, r, k) > 0.0
    ensures j < k && p.row[j] == r && p.scene.nodes[j].height == TallIn(p, r, k)
  {
    j := k - 1;
    if p.row[j] != r || p.scene.nodes[j].height < TallIn(p, r, k - 1) {
      j := TallestBefore(p, r, k - 1);
    }
  }

  lemma TallAttained(p: Plan, i: nat) returns (j: nat)
    requires Sized(p.scene)
    requires Shaped(p) && i < Size(p)
    ensures j < Size(p) && p.row[j] == p.row[i] && p.scene.nodes[j].height == TallIn(p, p.row[i], Size(p))
  {
    hide TallIn;
    InBand(p, i, Size(p));
    j := i;
    if TallIn(p, p.row[i], Size(p)) > 0.0 {
      j := TallestBefore(p, p.row[i], Size(p));
    }
  }

  lemma {:induction false} BottomAtMost(boxes: seq<NodeBox>, least: real, most: real)
    requires least <= most && forall i :: 0 <= i < |boxes| ==> boxes[i].rect.y + boxes[i].rect.h <= most
    ensures Bottom(boxes, least) <= most
  {
    if boxes != [] {
      BottomAtMost(boxes[..|boxes| - 1], least, most);
    }
  }

  /** No node is in a later row than `i`. */
  predicate LastRow(p: Plan, i: nat)
    requires Shaped(p) && i < Size(p)
  {
    forall j: nat :: j < Size(p) ==> p.row[j] <= p.row[i]
  }

  /** In the last row the block ends with the tallest node. */
  lemma EndsWithTallest(p: Plan, i: nat)
    requires p.m.line >= 0.0 && Sized(p.scene)
    requires Shaped(p) && i < Size(p) && LastRow(p, i)
    ensures Bottom(BoxesOf(p), NoteBottom(p)) == NodeTop(p, p.row[i]) + TallIn(p, p.row[i], Size(p))
  {
    hide TallIn, BandTop, DescriptionOf, NoteOf, ItemW, ColX, CaptionH;
    var boxes, r := BoxesOf(p), p.row[i];
    var most := NodeTop(p, r) + TallIn(p, r, Size(p));
    var t := TallAttained(p, i);
    assert boxes[t].rect.y + boxes[t].rect.h == most;
    BandsBelow(p, r);
    CaptionAtLeast(p, r, 0);
    forall j: nat | j < Size(p) ensures boxes[j].rect.y + boxes[j].rect.h <= most {
      InBand(p, j, Size(p));
      if p.row[j] < r {
        BandsApart(p, p.row[j], r);
      }
    }
    BottomAtMost(boxes, NoteBottom(p), most);
  }

  /** The words of a descending edge hang below the arrow's head. They end
      above the bottom of the bounds exactly when a later row follows, or a node
      of the target's own row reaches down as far. */
  lemma WordsBelow(p: Plan, si: nat, k: nat)
    requires p.m.line >= 0.0 && Sized(p.scene)
    requires Shaped(p) && k < |LinksOf(p)|
    requires ArrowOf(p, k).start.y < ArrowOf(p, k).end.y
    ensures var arrow, to := ArrowOf(p, k), LinksOf(p)[k].to;
      && to < Size(p)
      && (arrow.textAt.y + LineH(p) <= BlockOf(p, si).bounds.h
          <==> !LastRow(p, to)
               || MinReal(p.scene.nodes[to].height / 2.0, ARROW_Y_MAX) + 10.0 + LineH(p) <= TallIn(p, p.row[to], Size(p)))
  {
    hide TallIn, BandTop, DescriptionOf, NoteOf, ItemW, ColX, CaptionH, Bottom, LabelW, LinkW;
    var to := LinksOf(p)[k].to;
    if LastRow(p, to) {
      EndsWithTallest(p, to);
    } else {
      var j: nat :| j < Size(p) && p.row[j] > p.row[to];
      BandsApart(p, p.row[to], p.row[j]);
      InBand(p, to, Size(p));
      CaptionAtLeast(p, p.row[j], 0);
      assert BoxesOf(p)[j] == BoxOf(p, j);
      BottomHolds(BoxesOf(p), NoteBottom(p));
    }
  }

  /** Where an edge's words are drawn. */
  function WordsOf(p: Plan, k: nat): Rect
    requires Shaped(p) && k < |LinksOf(p)|
  {
    Rect(ArrowOf(p, k).textAt.x, ArrowOf(p, k).textAt.y, LinkW(p, k), LineH(p))
  }

  predicate Descends(p: Plan, k: nat)
    requires Shaped(p) && k < |LinksOf(p)|
  {
    ArrowOf(p, k).start.y < ArrowOf(p, k).end.y
  }

  /** Something is drawn as far down as the words under the head of a descending edge. */
  predicate RoomBelow(p: Plan, k: nat)
    requires Shaped(p) && k < |LinksOf(p)| && LinksOf(p)[k].to < Size(p)
  {
    var to := LinksOf(p)[k].to;
    !LastRow(p, to) || MinReal(p.scene.nodes[to].height / 2.0, ARROW_Y_MAX) + 10.0 + LineH(p) <= TallIn(p, p.row[to], Size(p))
  }

  lemma WordsSideways(p: Plan, si: nat, k: nat)
    requires p.m.line >= 0.0 && Sized(p.scene)
    requires Good(p) && Sound(p.scene) && k < |LinksOf(p)|
    ensures Shaped(p)
    ensures var words, b := WordsOf(p, k), BlockOf(p, si).bounds; b.x <= words.x && words.Right() <= b.Right()
  {
    hide Good, Sound, LinksOf, ArrowOf, BlockOf, LinkW;
    ArrowsAcross(p, k);
    ArrowInside(p, si, k);
    BoundsAtZero(p, si);
  }

  lemma BoundsAtZero(p: Plan, si: nat)
    requires Shaped(p)
    ensures BlockOf(p, si).bounds.x == 0.0 && BlockOf(p, si).bounds.y == 0.0
  {
  }

  lemma WordsHigh(p: Plan, si: nat, k: nat)
    requires p.m.line >= 0.0 && Sized(p.scene)
    requires Good(p) && Sound(p.scene) && k < |LinksOf(p)|
    ensures Shaped(p)
    ensures WordsOf(p, k).y >= 0.0
    ensures !Descends(p, k) ==> WordsOf(p, k).Bottom() <= BlockOf(p, si).bounds.h
  {
    hide BandTop, DescriptionOf, NoteOf, ItemW, ColX, CaptionH, Bottom, LabelW, LinkW, Good, Sound, NoteBottom;
    GoodIsShaped(p);
    ArrowInside(p, si, k);
    var link := LinksOf(p)[k];
    BandsBelow(p, p.row[link.to]);
    CaptionAtLeast(p, p.row[link.to], 0);
    BandsBelow(p, p.row[link.from]);
    CaptionAtLeast(p, p.row[link.from], 0);
  }

  /** In a scene whose edges name nodes and do not go round, an edge's words lie
      wholly inside the bounds, unless the edge descends to the last row and
      nothing in it reaches down as far. */
  lemma WordsInside(p: Plan, si: nat, k: nat)
    requires p.m.line >= 0.0 && Sized(p.scene)
    requires Good(p) && Sound(p.scene) && k < |LinksOf(p)|
    ensures Shaped(p) && LinksOf(p)[k].to < Size(p)
    ensures Inside(WordsOf(p, k), BlockOf(p, si).bounds) <==> !Descends(p, k) || RoomBelow(p, k)
  {
    hide Good, Sound, LinksOf, ArrowOf, BlockOf, LinkW, TallIn, LastRow, LineH;
    GoodIsShaped(p);
    WordsSideways(p, si, k);
    WordsHigh(p, si, k);
    BoundsAtZero(p, si);
    LinkEnds(p, k);
    if Descends(p, k) {
      WordsBelow(p, si, k);
    }
  }

  lemma LinkEnds(p: Plan, k: nat)
    requires Shaped(p) && k < |LinksOf(p)|
    ensures LinksOf(p)[k].from < Size(p) && LinksOf(p)[k].to < Size(p)
  {
  }

  // ---- scenes at fault -------------------------------------------------------------------------------------

  /** What the title and the description take up, which can reach past the columns. */
  function HeadW(p: Plan): real
    requires Shaped(p)
  {
    MaxReal(TextW(p.m, p.scene.name, TITLE_PT), Widest(p.m, DescriptionOf(p)))
  }

  lemma OneColumn(p: Plan)
    requires Good(p) && !Sound(p.scene) && Size(p) > 0
    ensures Shaped(p) && LayerCount(p.layer) == 1 && Span(p, 1) == WidthOf(p, 0) && ColX(p, 0) == 0.0
    ensures forall i: nat :: i < Size(p) ==> p.layer[i] == 0
  {
    hide RowsOk, Cyclic, Layered, ColW;
    GoodIsShaped(p);
    ZeroLayers(p.layer);
    OneSpan(p);
  }

  lemma OneSpan(p: Plan)
    requires Shaped(p)
    ensures Span(p, 1) == WidthOf(p, 0) && ColX(p, 0) == 0.0
  {
    hide ColW, Shaped;
    assert Span(p, 0) == 0.0;
  }

  lemma {:induction false} ZeroLayers(layer: seq<nat>)
    requires layer != [] && forall i :: 0 <= i < |layer| ==> layer[i] == 0
    ensures LayerCount(layer) == 1
  {
    if |layer| > 1 {
      ZeroLayers(layer[..|layer| - 1]);
    }
  }

  /** Where an edge names no node, or the edges go round, all nodes stand in one
      column, and every arrow turns right of it, its words right of it too. They
      are within the bounds only where title or description reach as far. */
  lemma FaultedArrows(p: Plan, si: nat, k: nat)
    requires Good(p) && !Sound(p.scene) && k < |LinksOf(p)|
    ensures Shaped(p)
    ensures var arrow, columns, b := ArrowOf(p, k), Span(p, LayerCount(p.layer)), BlockOf(p, si).bounds;
      && arrow.elbow >= columns + COL_GAP_MIN / 2.0 && arrow.textAt.x >= columns + LABEL_PAD / 2.0
      && (arrow.elbow <= b.w <==> arrow.elbow <= HeadW(p))
      && (arrow.textAt.x <= b.w <==> arrow.textAt.x <= HeadW(p))
      && (LinkW(p, k) >= 0.0 ==> (WordsOf(p, k).Right() <= b.w <==> WordsOf(p, k).Right() <= HeadW(p)))
  {
    hide Good, Sound, LinkW, LabelW, ColW, DescriptionOf, Widest, Bottom, TextW, NodeTop, BandTop, NoteOf;
    GoodIsShaped(p);
    LinkEnds(p, k);
    OneColumn(p);
    LabelInGap(p, k, |LinksOf(p)|);
    LabelNotNegative(p, 0, |LinksOf(p)|);
  }

  lemma LabelNotNegative(p: Plan, l: nat, k: nat)
    requires Shaped(p) && k <= |LinksOf(p)|
    ensures LabelW(p, l, k) >= 0.0
  {
  }

  function Box(name: string): Node {
    Node(name, [], 100.0, 40.0)
  }

  const ROUND: Scene := Scene("s", [], [Box("a"), Box("b"), Box("c")], [Edge("a", "b", ""), Edge("b", "a", "")])

  const ROUND_PLAN: Plan := Plan(ROUND, Metrics(0.5, 1.2), [0, 0, 0], [0, 1, 2])

  lemma RoundLinks()
    ensures AllResolve(ROUND, 2) && Arcs(ROUND) == [Arc(0, 1), Arc(1, 0)]
    ensures LinksOf(ROUND_PLAN) == [Link(0, 0, 1), Link(1, 1, 0)]
  {
    var nodes := ROUND.nodes;
    assert nodes[0].name == "a" && nodes[1..][0].name == "b";
    assert Index(nodes, "a") == Some(0) && Index(nodes[1..], "b") == Some(0) && Index(nodes, "b") == Some(1);
    assert Resolves(ROUND, 0) && Resolves(ROUND, 1);
    assert Links(ROUND, 0) == [] && Links(ROUND, 1) == [Link(0, 0, 1)];
  }

  lemma RoundCycles()
    ensures Cyclic([Arc(0, 1), Arc(1, 0)])
  {
    var p := [0, 1, 0];
    assert Walk([Arc(0, 1), Arc(1, 0)], p);
  }

  lemma RoundRows()
    ensures RowsOk([0, 0, 0], [Link(0, 0, 1), Link(1, 1, 0)], [0, 1, 2])
  {
    var layer, row, links := [0, 0, 0], [0, 1, 2], [Link(0, 0, 1), Link(1, 1, 0)];
    assert Members(layer, 0, 1) == 1 && Members(layer, 0, 2) == 2 && Members(layer, 0, 3) == 3;
    assert links[..1] == [Link(0, 0, 1)] && links[..1][..0] == [];
    assert Beside(layer, [], row, 0) == NO_ROW && Beside(layer, [], row, 1) == NO_ROW && Beside(layer, [], row, 2) == NO_ROW;
    assert Beside(layer, links[..1], row, 0) == NO_ROW && Beside(layer, links[..1], row, 1) == 0 && Beside(layer, links[..1], row, 2) == NO_ROW;
    assert Beside(layer, links, row, 0) == 0 && Beside(layer, links, row, 1) == 0 && Beside(layer, links, row, 2) == NO_ROW;
  }

  lemma RoundIsGood()
    ensures Good(ROUND_PLAN) && !Sound(ROUND)
  {
    hide Cyclic, Index, Resolves, Links, Layered;
    RoundLinks();
    RoundCycles();
    RoundRows();
  }

  /** Three boxes, two of them leading to each other: the arrow down turns, and
      its words stand, past the right end of the bounds, with a row still below. */
  lemma WordsAside(si: nat)
    ensures Good(ROUND_PLAN) && Shaped(ROUND_PLAN) && |LinksOf(ROUND_PLAN)| == 2
    ensures Descends(ROUND_PLAN, 0) && !LastRow(ROUND_PLAN, 1)
    ensures var arrow, w := ArrowOf(ROUND_PLAN, 0), BlockOf(ROUND_PLAN, si).bounds.w; arrow.elbow > w && arrow.textAt.x > w
  {
    hide Good, BlockOf, ArrowOf, HeadW, LinksOf, LinkW;
    RoundIsGood();
    GoodIsShaped(ROUND_PLAN);
    RoundLinks();
    FaultedArrows(ROUND_PLAN, si, 0);
    RoundHead();
    RoundDescends();
    assert ROUND_PLAN.row[2] > ROUND_PLAN.row[1];
  }

  lemma RoundHead()
    requires Shaped(ROUND_PLAN)
    ensures HeadW(ROUND_PLAN) == 15.0
  {
    assert DescriptionOf(ROUND_PLAN) == [];
  }

  lemma RoundDescends()
    requires Shaped(ROUND_PLAN) && LinksOf(ROUND_PLAN) == [Link(0, 0, 1), Link(1, 1, 0)]
    ensures Descends(ROUND_PLAN, 0)
  {
    hide ColX, BandTop, NoteOf, LinksOf, TallIn, LinkW;
    BandsApart(ROUND_PLAN, 0, 1);
    CaptionAtLeast(ROUND_PLAN, 1, 0);
  }

  // ---- words that stick out ------------------------------------------------------------------------------

  const STEP: Scene := Scene("s", [], [Node("a", [], 100.0, 10.0), Node("b", [], 100.0, 40.0)], [Edge("a", "b", "")])

  /** A low node, an arrow to a taller one beside it, and nothing below. */
  const STEP_PLAN: Plan := Plan(STEP, Metrics(0.5, 1.2), [0, 1], [0, 0])

  lemma OneArc(p: seq<nat>)
    requires Walk([Arc(0, 1)], p)
    ensures |p| <= 2 && (|p| == 2 ==> p == [0, 1])
  {
    hide Walk;
    if |p| >= 2 {
      ArcAt([Arc(0, 1)], p, 0);
      if |p| >= 3 {
        ArcAt([Arc(0, 1)], p, 1);
      }
    }
  }

  lemma ArcAt(arcs: seq<Arc>, p: seq<nat>, k: nat)
    requires Walk(arcs, p) && k + 1 < |p|
    ensures Arc(p[k], p[k + 1]) in arcs
  {
  }

  lemma OneArcLayers()
    ensures Layered(2, [Arc(0, 1)], [0, 1]) && !Cyclic([Arc(0, 1)])
  {
    var arcs := [Arc(0, 1)];
    assert WalkTo(arcs, 0, [0]) && WalkTo(arcs, 1, [0, 1]);
    forall p | Walk(arcs, p) ensures |p| <= 2 && (|p| == 2 ==> p == [0, 1]) {
      OneArc(p);
    }
    assert LongestTo(arcs, 0, 0) && LongestTo(arcs, 1, 1);
  }

  lemma StepLinks()
    ensures AllResolve(STEP, 1) && Arcs(STEP) == [Arc(0, 1)] && LinksOf(STEP_PLAN) == [Link(0, 0, 1)]
  {
    var nodes := STEP.nodes;
    assert nodes[0].name == "a" && nodes[1..][0].name == "b";
    assert Index(nodes, "a") == Some(0) && Index(nodes[1..], "b") == Some(0) && Index(nodes, "b") == Some(1);
    assert Resolves(STEP, 0);
    assert Links(STEP, 0) == [];
  }

  lemma StepIsGood()
    ensures Good(STEP_PLAN) && Sound(STEP)
  {
    hide Layered, Cyclic, Index, Resolves, Links;
    OneArcLayers();
    StepLinks();
    StepRows();
  }

  lemma StepRows()
    ensures RowsOk([0, 1], [Link(0, 0, 1)], [0, 0])
  {
    var layer := [0, 1];
    assert Members(layer, 0, 1) == 1 && Members(layer, 0, 2) == 1 && Members(layer, 1, 1) == 0;
  }

  lemma StepTall()
    ensures TallIn(STEP_PLAN, 0, 2) == 40.0 && LastRow(STEP_PLAN, 1)
  {
    assert TallIn(STEP_PLAN, 0, 1) == 10.0;
  }

  /** Its words end past the block's bounds. */
  lemma WordsStickOut(si: nat)
    ensures Good(STEP_PLAN) && Shaped(STEP_PLAN) && |LinksOf(STEP_PLAN)| == 1
    ensures ArrowOf(STEP_PLAN, 0).textAt.y + LineH(STEP_PLAN) > BlockOf(STEP_PLAN, si).bounds.h
  {
    hide TallIn, BlockOf, Good, LastRow, ItemW, ColX, NodeTop, BandTop;
    StepIsGood();
    GoodIsShaped(STEP_PLAN);
    StepLinks();
    StepTall();
    assert Sized(STEP);
    assert STEP_PLAN.scene.nodes[1].height == 40.0 && STEP_PLAN.scene.nodes[0].height == 10.0;
    StepDescends();
    WordsBelow(STEP_PLAN, si, 0);
  }

  lemma StepDescends()
    requires Shaped(STEP_PLAN) && LinksOf(STEP_PLAN) == [Link(0, 0, 1)]
    ensures ArrowOf(STEP_PLAN, 0).start.y < ArrowOf(STEP_PLAN, 0).end.y
  {
    hide NodeTop, ColX, BandTop, NoteOf;
    assert BoxOf(STEP_PLAN, 0).rect.y == BoxOf(STEP_PLAN, 1).rect.y;
  }
}
