/** Where a scene's states go on the canvas: the rules, and what they keep apart. */
module Canvas {
  import opened Base
  import opened Dag
  import opened SceneGraph
  import opened Wrap

  // ---- sizes ------------------------------------------------------------------------

  datatype Metrics = Metrics(adv: real, line: real)

  const TITLE_PT := 30.0
  const TEXT_PT := 16.0
  const MARGIN := 120.0
  const BLOCK_GAP := 420.0
  const COL_GAP_MIN := 200.0
  const ROW_GAP := 90.0
  const LABEL_PAD := 80.0
  const CAPTION_GAP := 14.0
  const NOTE_W_MIN := 320.0
  const ARROW_Y_MAX := 28.0
  const ROW_W := 5600.0

  /** The row of a node nothing leads to, when nodes are ordered. */
  const NO_ROW := MOST

  datatype Point = Point(x: real, y: real)

  datatype NodeBox = NodeBox(node: nat, rect: Rect, caption: Point, note: seq<string>)

  datatype Arrow = Arrow(edge: nat, start: Point, elbow: real, end: Point, textAt: Point, text: string)

  datatype Block = Block(scene: nat, title: Point, noteAt: Point, note: seq<string>,
                         nodes: seq<NodeBox>, arrows: seq<Arrow>, bounds: Rect)

  datatype Canvas = Canvas(blocks: seq<Block>, w: real, h: real)

  /** An edge whose ends are both nodes, by position. */
  datatype Link = Link(edge: nat, from: nat, to: nat)

  /** The edges between nodes that exist, of the first `k`. */
  function Links(scene: Scene, k: nat): seq<Link>
    requires k <= |scene.edges|
  {
    if k == 0 then []
    else
      var a, b := Index(scene.nodes, scene.edges[k - 1].from), Index(scene.nodes, scene.edges[k - 1].to);
      Links(scene, k - 1) + if a.Some? && b.Some? then [Link(k - 1, a.value, b.value)] else []
  }

  predicate LinksWithin(n: nat, links: seq<Link>) {
    forall k :: 0 <= k < |links| ==> links[k].from < n && links[k].to < n
  }

  // ---- rows: a node wants the row of whatever leads to it --------------------------------------

  /** The lowest row, already settled, of a node that leads to `i`. */
  function Beside(layer: seq<nat>, links: seq<Link>, row: seq<nat>, i: nat): nat
    requires |row| == |layer| && LinksWithin(|layer|, links) && i < |layer|
  {
    if links == [] then NO_ROW
    else
      var n := |links| - 1;
      var best := Beside(layer, links[..n], row, i);
      if links[n].to == i then
        Min(best, if layer[links[n].from] < layer[i] then row[links[n].from] else 0)
      else best
  }

  /** Authoring order breaks ties. */
  predicate Precedes(key: seq<nat>, i: nat, j: nat) {
    i < |key| && j < |key| && (key[i] < key[j] || (key[i] == key[j] && i < j))
  }

  /** How many of the first `k` nodes are in layer `l`. */
  function Members(layer: seq<nat>, l: nat, k: nat): nat
    requires k <= |layer|
  {
    if k == 0 then 0 else Members(layer, l, k - 1) + if layer[k - 1] == l then 1 else 0
  }

  predicate Ordered(layer: seq<nat>, links: seq<Link>, row: seq<nat>, i: nat, j: nat)
    requires |row| == |layer| && LinksWithin(|layer|, links) && i < |layer| && j < |layer|
  {
    var a, b := Beside(layer, links, row, i), Beside(layer, links, row, j);
    row[i] < row[j] <==> a < b || (a == b && i < j)
  }

  /** Each layer's nodes take its first rows, one each, in order of the row
      they want to be beside. */
  ghost predicate RowsOk(layer: seq<nat>, links: seq<Link>, row: seq<nat>) {
    && |row| == |layer| && LinksWithin(|layer|, links)
    && (forall i: nat :: i < |layer| ==> row[i] < Members(layer, layer[i], |layer|))
    && (forall i: nat, j: nat :: i < |layer| && j < |layer| && layer[i] == layer[j] ==> Ordered(layer, links, row, i, j))
  }

  // ---- a plan ----------------------------------------------------------------------------

  datatype Plan = Plan(scene: Scene, m: Metrics, layer: seq<nat>, row: seq<nat>)

  function Size(p: Plan): nat {
    |p.scene.nodes|
  }

  function LinksOf(p: Plan): seq<Link> {
    Links(p.scene, |p.scene.edges|)
  }

  /** No node smaller than nothing. */
  predicate Sized(scene: Scene) {
    forall i :: 0 <= i < |scene.nodes| ==> scene.nodes[i].width >= 0.0 && scene.nodes[i].height >= 0.0
  }

  /** Layers by the longest chain, or all of them 0 where the edges are at fault. */
  ghost predicate LayersOk(scene: Scene, layer: seq<nat>) {
    && |layer| == |scene.nodes|
    && if AllResolve(scene, |scene.edges|) && !Cyclic(Arcs(scene)) then Layered(|scene.nodes|, Arcs(scene), layer)
       else forall i :: 0 <= i < |layer| ==> layer[i] == 0
  }

  ghost predicate Good(p: Plan) {
    LayersOk(p.scene, p.layer) && RowsOk(p.layer, LinksOf(p), p.row)
  }

  predicate Shaped(p: Plan) {
    |p.layer| == |p.row| == Size(p) && LinksWithin(Size(p), LinksOf(p))
  }

  lemma GoodIsShaped(p: Plan)
    requires Good(p)
    ensures Shaped(p)
  {
  }

  // ---- widths and columns --------------------------------------------------------------------

  function TextW(m: Metrics, s: string, pt: real): real {
    |s| as real * m.adv * pt
  }

  function Widest(m: Metrics, lines: seq<string>): (w: real)
    ensures w >= 0.0
  {
    if lines == [] then 0.0
    else MaxReal(Widest(m, lines[..|lines| - 1]), TextW(m, lines[|lines| - 1], TEXT_PT))
  }

  function NoteOf(p: Plan, i: nat): seq<string>
    requires i < Size(p)
  {
    Wrapped(p.scene.nodes[i].note, Columns(MaxReal(p.scene.nodes[i].width, NOTE_W_MIN), p.m.adv * TEXT_PT))
  }

  /** A node and its caption, the wider of them. */
  function ItemW(p: Plan, i: nat): real
    requires i < Size(p)
  {
    var node := p.scene.nodes[i];
    MaxReal(MaxReal(node.width, TextW(p.m, node.name, TEXT_PT)), Widest(p.m, NoteOf(p, i)))
  }

  function ColW(p: Plan, l: nat, k: nat): (w: real)
    requires Shaped(p) && k <= Size(p)
    ensures w >= 0.0
  {
    if k == 0 then 0.0
    else
      var w := ColW(p, l, k - 1);
      if p.layer[k - 1] == l then MaxReal(w, ItemW(p, k - 1)) else w
  }

  /** The widest label leaving layer `l`, of the first `k` links. */
  function LabelW(p: Plan, l: nat, k: nat): (w: real)
    requires Shaped(p) && k <= |LinksOf(p)|
    ensures w >= 0.0
  {
    if k == 0 then 0.0
    else
      var w := LabelW(p, l, k - 1);
      if p.layer[LinksOf(p)[k - 1].from] == l then MaxReal(w, LinkW(p, k - 1)) else w
  }

  function LinkW(p: Plan, k: nat): real
    requires k < |LinksOf(p)|
  {
    LinkHasEdge(p.scene, |p.scene.edges|, k);
    TextW(p.m, p.scene.edges[LinksOf(p)[k].edge].text, TEXT_PT)
  }

  lemma LinkHasEdge(scene: Scene, e: nat, k: nat)
    requires e <= |scene.edges| && k < |Links(scene, e)|
    ensures Links(scene, e)[k].edge < e
  {
  }

  function WidthOf(p: Plan, l: nat): real
    requires Shaped(p)
  {
    ColW(p, l, Size(p))
  }

  function GapOf(p: Plan, l: nat): real
    requires Shaped(p)
  {
    MaxReal(COL_GAP_MIN, LabelW(p, l, |LinksOf(p)|) + LABEL_PAD)
  }

  function ColX(p: Plan, l: nat): (x: real)
    requires Shaped(p)
    ensures x >= 0.0
  {
    if l == 0 then 0.0 else ColX(p, l - 1) + (WidthOf(p, l - 1) + GapOf(p, l - 1))
  }

  /** What the first `l` columns span. */
  function Span(p: Plan, l: nat): (x: real)
    requires Shaped(p)
    ensures x >= 0.0
  {
    if l == 0 then 0.0 else MaxReal(Span(p, l - 1), ColX(p, l - 1) + WidthOf(p, l - 1))
  }

  function LayerCount(layer: seq<nat>): (n: nat)
    ensures forall i :: 0 <= i < |layer| ==> layer[i] < n
  {
    if layer == [] then 0 else
      var n := LayerCount(layer[..|layer| - 1]);
      if layer[|layer| - 1] >= n then layer[|layer| - 1] + 1 else n
  }

  // ---- bands -----------------------------------------------------------------------------------

  function LineH(p: Plan): real {
    p.m.line * TEXT_PT
  }

  function DescriptionOf(p: Plan): seq<string>
    requires Shaped(p)
  {
    Wrapped(p.scene.note, Columns(MaxReal(Span(p, LayerCount(p.layer)), NOTE_W_MIN), p.m.adv * TEXT_PT))
  }

  function NoteTop(p: Plan): real {
    p.m.line * TITLE_PT + 6.0
  }

  function NoteBottom(p: Plan): real
    requires Shaped(p)
  {
    NoteTop(p) + |DescriptionOf(p)| as real * LineH(p)
  }

  /** The longest note among the first `k` nodes in row `r`, in lines. */
  function LinesIn(p: Plan, r: nat, k: nat): nat
    requires Shaped(p) && k <= Size(p)
  {
    if k == 0 then 0
    else
      var n := LinesIn(p, r, k - 1);
      if p.row[k - 1] == r then Max(n, |NoteOf(p, k - 1)|) else n
  }

  function TallIn(p: Plan, r: nat, k: nat): (h: real)
    requires Shaped(p) && k <= Size(p)
    ensures h >= 0.0
  {
    if k == 0 then 0.0
    else
      var h := TallIn(p, r, k - 1);
      if p.row[k - 1] == r then MaxReal(h, p.scene.nodes[k - 1].height) else h
  }

  function CaptionH(p: Plan, r: nat): real
    requires Shaped(p)
  {
    LineH(p) * (1.0 + LinesIn(p, r, Size(p)) as real)
  }

  function BandTop(p: Plan, r: nat): real
    requires Shaped(p)
    decreases r, 0
  {
    if r == 0 then NoteBottom(p) + 48.0 else NodeTop(p, r - 1) + TallIn(p, r - 1, Size(p)) + ROW_GAP
  }

  function NodeTop(p: Plan, r: nat): real
    requires Shaped(p)
    decreases r, 1
  {
    BandTop(p, r) + CaptionH(p, r) + CAPTION_GAP
  }

  // ---- the block ----------------------------------------------------------------------------------

  function BoxOf(p: Plan, i: nat): NodeBox
    requires Shaped(p) && i < Size(p)
  {
    var node, x, r := p.scene.nodes[i], ColX(p, p.layer[i]), p.row[i];
    NodeBox(i, Rect(x, NodeTop(p, r), node.width, node.height), Point(x, BandTop(p, r)), NoteOf(p, i))
  }

  function ArrowY(box: NodeBox): real {
    box.rect.y + MinReal(box.rect.h / 2.0, ARROW_Y_MAX)
  }

  function ArrowOf(p: Plan, k: nat): Arrow
    requires Shaped(p) && k < |LinksOf(p)|
  {
    LinkHasEdge(p.scene, |p.scene.edges|, k);
    var link := LinksOf(p)[k];
    var a, b, l := BoxOf(p, link.from), BoxOf(p, link.to), p.layer[link.from];
    var start, end := Point(a.rect.x + a.rect.w, ArrowY(a)), Point(b.rect.x, ArrowY(b));
    var elbow := ColX(p, l) + WidthOf(p, l) + GapOf(p, l) / 2.0;
    var y := if start.y < end.y then end.y + 10.0 else end.y - 10.0 - LineH(p);
    Arrow(link.edge, start, elbow, end, Point(elbow - LinkW(p, k) / 2.0, y), p.scene.edges[link.edge].text)
  }

  function BoxesOf(p: Plan): seq<NodeBox>
    requires Shaped(p)
  {
    seq(Size(p), i requires 0 <= i < Size(p) => BoxOf(p, i))
  }

  function ArrowsOf(p: Plan): seq<Arrow>
    requires Shaped(p)
  {
    seq(|LinksOf(p)|, k requires 0 <= k < |LinksOf(p)| => ArrowOf(p, k))
  }

  function Bottom(boxes: seq<NodeBox>, least: real): (b: real)
    ensures b >= least && forall i :: 0 <= i < |boxes| ==> boxes[i].rect.y + boxes[i].rect.h <= b
  {
    if boxes == [] then least
    else
      var last := boxes[|boxes| - 1];
      MaxReal(Bottom(boxes[..|boxes| - 1], least), last.rect.y + last.rect.h)
  }

  function BlockOf(p: Plan, si: nat): Block
    requires Shaped(p)
  {
    var boxes := BoxesOf(p);
    var titleW := MaxReal(TextW(p.m, p.scene.name, TITLE_PT), Widest(p.m, DescriptionOf(p)));
    Block(si, Point(0.0, 0.0), Point(0.0, NoteTop(p)), DescriptionOf(p), boxes, ArrowsOf(p),
          Rect(0.0, 0.0, MaxReal(Span(p, LayerCount(p.layer)), titleW), Bottom(boxes, NoteBottom(p))))
  }
}
