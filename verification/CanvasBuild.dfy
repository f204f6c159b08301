/** The canvas as the code builds it: rows, columns and bands filled in place. */
module CanvasBuild {
  import opened Base
  import opened Dag
  import opened SceneGraph
  import opened Wrap
  import opened Canvas
  import opened CanvasApart
  import opened CanvasFlow

  // ---- a layer in order -------------------------------------------------------------

  predicate Ranked(key: seq<nat>, s: seq<nat>) {
    forall a, b :: 0 <= a < b < |s| ==> Precedes(key, s[a], s[b])
  }

  function InsertByKey(key: seq<nat>, s: seq<nat>, x: nat): seq<nat> {
    if s == [] || Precedes(key, x, s[0]) then [x] + s else [s[0]] + InsertByKey(key, s[1..], x)
  }

  lemma {:induction false} Inserted(key: seq<nat>, s: seq<nat>, x: nat)
    requires Ranked(key, s) && x < |key| && x !in s
    requires forall k :: 0 <= k < |s| ==> s[k] < |key|
    ensures var r := InsertByKey(key, s, x);
      && Ranked(key, r) && |r| == |s| + 1
      && forall v :: v in r <==> v in s || v == x
  {
    if s != [] && !Precedes(key, x, s[0]) {
      Inserted(key, s[1..], x);
      var rest := InsertByKey(key, s[1..], x);
      assert s == [s[0]] + s[1..];
      forall b | 0 <= b < |rest| ensures Precedes(key, s[0], rest[b]) {
        assert rest[b] in rest;
      }
    } else {
      assert forall b :: 0 <= b < |s| ==> Precedes(key, x, s[b]);
    }
  }

  /** `sort_by_key`, authoring order breaking ties. */
  method SortByKey(members: seq<nat>, key: seq<nat>) returns (sorted: seq<nat>)
    requires forall k :: 0 <= k < |members| ==> members[k] < |key|
    requires forall i, j :: 0 <= i < j < |members| ==> members[i] != members[j]
    ensures Ranked(key, sorted) && |sorted| == |members|
    ensures forall v :: v in sorted <==> v in members
  {
    sorted := [];
    for k := 0 to |members|
      invariant Ranked(key, sorted) && |sorted| == k
      invariant forall v :: v in sorted <==> v in members[..k]
    {
      assert members[k] !in members[..k];
      assert forall j :: 0 <= j < |sorted| ==> sorted[j] in members[..k];
      Inserted(key, sorted, members[k]);
      sorted := InsertByKey(key, sorted, members[k]);
      assert members[..k + 1] == members[..k] + [members[k]];
    }
    assert members[..|members|] == members;
  }

  method MembersOf(layer: seq<nat>, l: nat) returns (members: seq<nat>)
    ensures forall k :: 0 <= k < |members| ==> members[k] < |layer|
    ensures forall i, j :: 0 <= i < j < |members| ==> members[i] != members[j]
    ensures forall i: nat :: i in members <==> i < |layer| && layer[i] == l
    ensures |members| == Members(layer, l, |layer|)
  {
    members := [];
    for i := 0 to |layer|
      invariant forall k :: 0 <= k < |members| ==> members[k] < i
      invariant forall a, b :: 0 <= a < b < |members| ==> members[a] != members[b]
      invariant forall v: nat :: v in members <==> v < i && layer[v] == l
      invariant |members| == Members(layer, l, i)
    {
      if layer[i] == l {
        members := members + [i];
      }
    }
  }

  /** The lowest row of a node that leads to `i`. */
  method KeyOf(layer: seq<nat>, links: seq<Link>, row: array<nat>, i: nat) returns (key: nat)
    requires row.Length == |layer| && LinksWithin(|layer|, links) && i < |layer|
    requires forall a: nat :: a < |layer| && layer[a] >= layer[i] ==> row[a] == 0
    ensures key == Beside(layer, links, row[..], i)
  {
    key := NO_ROW;
    for k := 0 to |links|
      invariant key == Beside(layer, links[..k], row[..], i)
    {
      assert links[..k + 1][..k] == links[..k];
      if links[k].to == i {
        key := Min(key, row[links[k].from]);
      }
    }
    assert links[..|links|] == links;
  }

  // ---- rows, layer by layer ---------------------------------------------------------------

  /** The layers below `l` have their rows, the others none yet. */
  ghost predicate Settled(layer: seq<nat>, links: seq<Link>, row: seq<nat>, l: nat) {
    && |row| == |layer| && LinksWithin(|layer|, links)
    && (forall i: nat :: i < |layer| && layer[i] >= l ==> row[i] == 0)
    && (forall i: nat :: i < |layer| && layer[i] < l ==> row[i] < Members(layer, layer[i], |layer|))
    && (forall i: nat, j: nat :: i < |layer| && j < |layer| && layer[i] == layer[j] < l ==> Ordered(layer, links, row, i, j))
  }

  /** Rows of later layers have no say. */
  lemma {:induction false} BesideLower(layer: seq<nat>, links: seq<Link>, was: seq<nat>, now: seq<nat>, i: nat)
    requires |was| == |now| == |layer| && LinksWithin(|layer|, links) && i < |layer|
    requires forall a: nat :: a < |layer| && layer[a] < layer[i] ==> was[a] == now[a]
    ensures Beside(layer, links, was, i) == Beside(layer, links, now, i)
  {
    if links != [] {
      BesideLower(layer, links[..|links| - 1], was, now, i);
    }
  }

  /** `sorted` got the rows of layer `l`, in order. */
  ghost predicate Given(layer: seq<nat>, l: nat, was: seq<nat>, now: seq<nat>, sorted: seq<nat>) {
    && |was| == |now| == |layer|
    && (forall r: nat :: r < |sorted| ==> sorted[r] < |layer| && now[sorted[r]] == r)
    && (forall i: nat :: i < |layer| && layer[i] != l ==> now[i] == was[i])
    && (forall i: nat :: i < |layer| && layer[i] == l ==> i in sorted)
  }

  lemma OrderGiven(layer: seq<nat>, links: seq<Link>, was: seq<nat>, now: seq<nat>, key: seq<nat>, sorted: seq<nat>, l: nat, i: nat, j: nat)
    requires LinksWithin(|layer|, links) && Given(layer, l, was, now, sorted) && |key| == |layer|
    requires Ranked(key, sorted)
    requires forall v: nat :: v < |layer| && layer[v] == l ==> key[v] == Beside(layer, links, now, v)
    requires i < |layer| && j < |layer| && layer[i] == layer[j] == l
    ensures Ordered(layer, links, now, i, j)
  {
    hide Beside;
    var a :| 0 <= a < |sorted| && sorted[a] == i;
    var b :| 0 <= b < |sorted| && sorted[b] == j;
    assert a < b ==> Precedes(key, i, j);
    assert b < a ==> Precedes(key, j, i);
  }

  lemma SettledNext(layer: seq<nat>, links: seq<Link>, was: seq<nat>, now: seq<nat>, key: seq<nat>, sorted: seq<nat>, l: nat)
    requires Settled(layer, links, was, l) && Given(layer, l, was, now, sorted) && |key| == |layer|
    requires Ranked(key, sorted) && |sorted| == Members(layer, l, |layer|)
    requires forall v: nat :: v < |layer| && layer[v] == l ==> key[v] == Beside(layer, links, was, v)
    ensures Settled(layer, links, now, l + 1)
  {
    hide Beside, Members;
    forall v: nat | v < |layer| && layer[v] <= l ensures Beside(layer, links, was, v) == Beside(layer, links, now, v) {
      BesideLower(layer, links, was, now, v);
    }
    forall i: nat, j: nat | i < |layer| && j < |layer| && layer[i] == layer[j] < l + 1
      ensures Ordered(layer, links, now, i, j)
    {
      if layer[i] == l {
        OrderGiven(layer, links, was, now, key, sorted, l, i, j);
      } else {
        assert Ordered(layer, links, was, i, j);
      }
    }
    forall i: nat | i < |layer| && layer[i] < l + 1 ensures now[i] < Members(layer, layer[i], |layer|) {
      if layer[i] == l {
        var r :| 0 <= r < |sorted| && sorted[r] == i;
      }
    }
  }

  method Keys(layer: seq<nat>, links: seq<Link>, row: array<nat>, members: seq<nat>, l: nat) returns (keys: seq<nat>)
    requires row.Length == |layer| && LinksWithin(|layer|, links)
    requires forall a: nat :: a < |layer| && layer[a] >= l ==> row[a] == 0
    requires forall i: nat :: i in members <==> i < |layer| && layer[i] == l
    ensures |keys| == |layer|
    ensures forall v: nat :: v < |layer| && layer[v] == l ==> keys[v] == Beside(layer, links, row[..], v)
  {
    hide Beside;
    var key := new nat[|layer|](_ => 0);
    for k := 0 to |members|
      invariant forall j :: 0 <= j < k ==> members[j] < |layer| && key[members[j]] == Beside(layer, links, row[..], members[j])
    {
      assert members[k] in members;
      var best := KeyOf(layer, links, row, members[k]);
      key[members[k]] := best;
    }
    keys := key[..];
  }

  /** Each node's row in its layer. */
  method Rows(layer: seq<nat>, links: seq<Link>) returns (rows: seq<nat>)
    requires LinksWithin(|layer|, links)
    ensures RowsOk(layer, links, rows)
  {
    hide Beside, Members, Ranked;
    var row := new nat[|layer|](_ => 0);
    var nLayers := LayerCount(layer);
    for l := 0 to nLayers
      invariant Settled(layer, links, row[..], l)
    {
      ghost var was := row[..];
      var members := MembersOf(layer, l);
      var key := Keys(layer, links, row, members, l);
      var sorted := SortByKey(members, key);
      AllIn(sorted, members);
      Positions(sorted, key);
      for r := 0 to |sorted|
        invariant forall q: nat :: q < r ==> row[sorted[q]] == q
        invariant forall i: nat :: i < |layer| && layer[i] != l ==> row[i] == was[i]
      {
        row[sorted[r]] := r;
      }
      assert Given(layer, l, was, row[..], sorted);
      SettledNext(layer, links, was, row[..], key, sorted, l);
    }
    rows := row[..];
    assert forall i: nat, j: nat :: i < |layer| && j < |layer| && layer[i] == layer[j] ==> Ordered(layer, links, rows, i, j);
  }

  lemma AllIn(sorted: seq<nat>, members: seq<nat>)
    requires forall v :: v in sorted <==> v in members
    ensures forall r: nat :: r < |sorted| ==> sorted[r] in members
  {
  }

  lemma Positions(sorted: seq<nat>, key: seq<nat>)
    requires Ranked(key, sorted)
    ensures forall a: nat, b: nat :: a < b < |sorted| ==> sorted[a] != sorted[b]
  {
    forall a: nat, b: nat | a < b < |sorted| ensures sorted[a] != sorted[b] {
      assert Precedes(key, sorted[a], sorted[b]);
    }
  }

  // ---- columns and bands -------------------------------------------------------------------

  predicate NotesOk(p: Plan, notes: seq<seq<string>>) {
    Shaped(p) && |notes| == Size(p) && forall i: nat :: i < Size(p) ==> notes[i] == NoteOf(p, i)
  }

  lemma NotesShaped(p: Plan, notes: seq<seq<string>>)
    requires NotesOk(p, notes)
    ensures Shaped(p)
  {
  }

  method Notes(p: Plan) returns (notes: seq<seq<string>>)
    requires Shaped(p)
    ensures NotesOk(p, notes)
  {
    hide Wrapped;
    notes := [];
    for i := 0 to Size(p)
      invariant |notes| == i && forall j: nat :: j < i ==> notes[j] == NoteOf(p, j)
    {
      var node := p.scene.nodes[i];
      var note := WrapText(node.note, MaxReal(node.width, NOTE_W_MIN), p.m.adv * TEXT_PT);
      notes := notes + [note];
    }
  }

  method ColumnWidth(p: Plan, notes: seq<seq<string>>, l: nat) returns (w: real)
    requires NotesOk(p, notes)
    ensures w == WidthOf(p, l)
  {
    hide NoteOf, Widest, TextW, LinksOf;
    w := 0.0;
    for i := 0 to Size(p)
      invariant w == ColW(p, l, i)
    {
      if p.layer[i] == l {
        var node := p.scene.nodes[i];
        w := MaxReal(w, MaxReal(MaxReal(node.width, TextW(p.m, node.name, TEXT_PT)), Widest(p.m, notes[i])));
      }
    }
  }

  method GapWidth(p: Plan, l: nat) returns (gap: real)
    requires Shaped(p)
    ensures gap == GapOf(p, l)
  {
    hide LinkW;
    var links := LinksOf(p);
    var w := 0.0;
    for k := 0 to |links|
      invariant w == LabelW(p, l, k)
    {
      if p.layer[links[k].from] == l {
        w := MaxReal(w, LinkW(p, k));
      }
    }
    gap := MaxReal(COL_GAP_MIN, w + LABEL_PAD);
  }

  lemma ColumnStep(p: Plan, l: nat)
    requires Shaped(p)
    ensures ColX(p, 0) == Span(p, 0) == 0.0
    ensures ColX(p, l + 1) == ColX(p, l) + (WidthOf(p, l) + GapOf(p, l))
    ensures Span(p, l + 1) == MaxReal(Span(p, l), ColX(p, l) + WidthOf(p, l))
  {
    hide Shaped, WidthOf, GapOf;
  }

  /** The columns from left to right, and how far the last of them reaches. */
  method ColumnsOf(p: Plan, notes: seq<seq<string>>) returns (colX: seq<real>, colW: seq<real>, gap: seq<real>, contentW: real)
    requires NotesOk(p, notes)
    ensures |colX| == |colW| == |gap| == LayerCount(p.layer)
    ensures forall l: nat :: l < |colX| ==> colX[l] == ColX(p, l) && colW[l] == WidthOf(p, l) && gap[l] == GapOf(p, l)
    ensures contentW == Span(p, LayerCount(p.layer))
  {
    hide NoteOf, ColW, LabelW, LinksOf, WidthOf, GapOf, ColX, Span, NotesOk, Shaped;
    NotesShaped(p, notes);
    var n := LayerCount(p.layer);
    var xs, ws, gaps := new real[n](_ => 0.0), new real[n](_ => 0.0), new real[n](_ => COL_GAP_MIN);
    var x := 0.0;
    contentW := 0.0;
    ColumnStep(p, 0);
    for l := 0 to n
      invariant x == ColX(p, l) && contentW == Span(p, l)
      invariant forall j: nat :: j < l ==> xs[j] == ColX(p, j) && ws[j] == WidthOf(p, j) && gaps[j] == GapOf(p, j)
    {
      ColumnStep(p, l);
      xs[l] := x;
      var w := ColumnWidth(p, notes, l);
      var g := GapWidth(p, l);
      ws[l] := w;
      gaps[l] := g;
      contentW := MaxReal(contentW, x + w);
      x := x + (w + g);
    }
    colX, colW, gap := xs[..], ws[..], gaps[..];
  }

  method BandOf(p: Plan, notes: seq<seq<string>>, r: nat) returns (lines: nat, h: real)
    requires NotesOk(p, notes)
    ensures lines == LinesIn(p, r, Size(p)) && h == TallIn(p, r, Size(p))
  {
    hide NoteOf;
    lines, h := 0, 0.0;
    for i := 0 to Size(p)
      invariant lines == LinesIn(p, r, i) && h == TallIn(p, r, i)
    {
      if p.row[i] == r {
        lines, h := Max(lines, |notes[i]|), MaxReal(h, p.scene.nodes[i].height);
      }
    }
  }

  method RowCount(p: Plan) returns (n: nat)
    requires Shaped(p) && RowsOk(p.layer, LinksOf(p), p.row)
    ensures forall i: nat :: i < Size(p) ==> p.row[i] < n
  {
    hide Members, Beside, LinksOf;
    n := 0;
    for l := 0 to LayerCount(p.layer)
      invariant forall m: nat :: m < l ==> Members(p.layer, m, |p.layer|) <= n
    {
      n := Max(n, Members(p.layer, l, |p.layer|));
    }
  }

  lemma BandStep(p: Plan, r: nat)
    requires Shaped(p)
    ensures BandTop(p, 0) == NoteBottom(p) + 48.0
    ensures NodeTop(p, r) == BandTop(p, r) + LineH(p) * (1.0 + LinesIn(p, r, Size(p)) as real) + CAPTION_GAP
    ensures BandTop(p, r + 1) == NodeTop(p, r) + TallIn(p, r, Size(p)) + ROW_GAP
  {
    hide Shaped, LinesIn, TallIn, NoteBottom;
  }

  /** The bands from the top down: where each one's captions start, and its nodes. */
  method BandsOf(p: Plan, notes: seq<seq<string>>, n: nat) returns (bandTop: seq<real>, nodeTop: seq<real>)
    requires NotesOk(p, notes)
    ensures |bandTop| == |nodeTop| == n
    ensures forall r: nat :: r < n ==> bandTop[r] == BandTop(p, r) && nodeTop[r] == NodeTop(p, r)
  {
    hide NoteOf, LinesIn, TallIn, DescriptionOf, BandTop, NodeTop, NoteBottom, NotesOk, Shaped;
    NotesShaped(p, notes);
    BandStep(p, 0);
    var bands, tops := new real[n](_ => 0.0), new real[n](_ => 0.0);
    var y := NoteBottom(p) + 48.0;
    for r := 0 to n
      invariant y == BandTop(p, r)
      invariant forall q: nat :: q < r ==> bands[q] == BandTop(p, q) && tops[q] == NodeTop(p, q)
    {
      var lines, h := BandOf(p, notes, r);
      BandStep(p, r);
      bands[r] := y;
      tops[r] := y + LineH(p) * (1.0 + lines as real) + CAPTION_GAP;
      y := tops[r] + h + ROW_GAP;
    }
    bandTop, nodeTop := bands[..], tops[..];
  }

  // ---- the block ------------------------------------------------------------------------------

  lemma {:induction false} LinksAreWithin(scene: Scene, k: nat)
    requires k <= |scene.edges|
    ensures LinksWithin(|scene.nodes|, Links(scene, k))
  {
    if k > 0 {
      LinksAreWithin(scene, k - 1);
    }
  }

  /** The layers, rows and sizes a scene is laid out by. */
  method PlanFor(scene: Scene, m: Metrics) returns (p: Plan)
    ensures p.scene == scene && p.m == m && Good(p)
  {
    hide Cyclic, Layered, Links;
    var found := SceneGraph.Layers(scene);
    var layer := seq(|scene.nodes|, _ => 0);
    if found.Ok? {
      assert Layered(|scene.nodes|, Arcs(scene), found.value);
      LayeredLength(|scene.nodes|, Arcs(scene), found.value);
      layer := found.value;
    }
    LinksAreWithin(scene, |scene.edges|);
    var row := Rows(layer, Links(scene, |scene.edges|));
    p := Plan(scene, m, layer, row);
  }

  lemma LayeredLength(n: nat, arcs: seq<Arc>, layer: seq<nat>)
    requires Layered(n, arcs, layer)
    ensures |layer| == n
  {
  }

  /** The block of one plan, its corner at zero. */
  method BlockFor(p: Plan, si: nat) returns (b: Block)
    requires Good(p)
    ensures Shaped(p) && b == BlockOf(p, si)
  {
    hide Good, Wrapped, ColX, BandTop, NodeTop, NoteOf, Span, Widest, TextW, LinkW, Bottom, WidthOf, GapOf, Columns, LineH, NoteTop,
      NoteBottom, LinksOf, BoxOf, ArrowOf;
    GoodIsShaped(p);
    GoodRows(p);
    var notes := Notes(p);
    var colX, colW, gap, contentW := ColumnsOf(p, notes);
    var note := WrapText(p.scene.note, MaxReal(contentW, NOTE_W_MIN), p.m.adv * TEXT_PT);
    assert note == DescriptionOf(p);
    var nRows := RowCount(p);
    var bandTop, nodeTop := BandsOf(p, notes, nRows);
    var nodes := Boxes(p, notes, colX, bandTop, nodeTop);
    var arrows := Arrows(p, nodes, colX, colW, gap);
    var titleW := MaxReal(TextW(p.m, p.scene.name, TITLE_PT), Widest(p.m, note));
    b := Block(si, Point(0.0, 0.0), Point(0.0, NoteTop(p)), note, nodes, arrows,
               Rect(0.0, 0.0, MaxReal(contentW, titleW), Bottom(nodes, NoteTop(p) + |note| as real * LineH(p))));
    Bounds(p, note, nodes);
    assert b.bounds == BlockOf(p, si).bounds;
  }

  lemma Bounds(p: Plan, note: seq<string>, nodes: seq<NodeBox>)
    requires Shaped(p) && note == DescriptionOf(p) && nodes == BoxesOf(p)
    ensures Bottom(nodes, NoteTop(p) + |note| as real * LineH(p)) == Bottom(BoxesOf(p), NoteBottom(p))
  {
    hide LineH, NoteTop, Bottom, DescriptionOf, BoxesOf, Shaped;
    var d := DescriptionOf(p);
    assert |note| == |d|;
    assert NoteBottom(p) == NoteTop(p) + |d| as real * LineH(p);
    assert NoteTop(p) + |note| as real * LineH(p) == NoteBottom(p);
  }

  lemma GoodRows(p: Plan)
    requires Good(p)
    ensures RowsOk(p.layer, LinksOf(p), p.row)
  {
  }

  method Boxes(p: Plan, notes: seq<seq<string>>, colX: seq<real>, bandTop: seq<real>, nodeTop: seq<real>) returns (nodes: seq<NodeBox>)
    requires NotesOk(p, notes) && |colX| == LayerCount(p.layer) && |bandTop| == |nodeTop|
    requires forall i: nat :: i < Size(p) ==> p.row[i] < |bandTop|
    requires forall l: nat :: l < |colX| ==> colX[l] == ColX(p, l)
    requires forall r: nat :: r < |bandTop| ==> bandTop[r] == BandTop(p, r) && nodeTop[r] == NodeTop(p, r)
    ensures nodes == BoxesOf(p)
  {
    hide ColX, BandTop, NodeTop, NoteOf, LinksOf;
    nodes := [];
    for i := 0 to Size(p)
      invariant |nodes| == i && forall j: nat :: j < i ==> nodes[j] == BoxOf(p, j)
    {
      var node, l, r := p.scene.nodes[i], p.layer[i], p.row[i];
      nodes := nodes + [NodeBox(i, Rect(colX[l], nodeTop[r], node.width, node.height), Point(colX[l], bandTop[r]), notes[i])];
    }
  }

  method Arrows(p: Plan, nodes: seq<NodeBox>, colX: seq<real>, colW: seq<real>, gap: seq<real>) returns (arrows: seq<Arrow>)
    requires Shaped(p) && nodes == BoxesOf(p) && |colX| == |colW| == |gap| == LayerCount(p.layer)
    requires forall l: nat :: l < |colX| ==> colX[l] == ColX(p, l) && colW[l] == WidthOf(p, l) && gap[l] == GapOf(p, l)
    ensures arrows == ArrowsOf(p)
  {
    hide ColX, WidthOf, GapOf, BoxOf, ArrowY, LinkW, ArrowOf;
    var links := LinksOf(p);
    arrows := [];
    for k := 0 to |links|
      invariant |arrows| == k && forall j: nat :: j < k ==> arrows[j] == ArrowOf(p, j)
    {
      LinkHasEdge(p.scene, |p.scene.edges|, k);
      var link := links[k];
      var a, b, l := nodes[link.from], nodes[link.to], p.layer[link.from];
      var start, end := Point(a.rect.x + a.rect.w, ArrowY(a)), Point(b.rect.x, ArrowY(b));
      var elbow := colX[l] + colW[l] + gap[l] / 2.0;
      var y := if start.y < end.y then end.y + 10.0 else end.y - 10.0 - LineH(p);
      arrows := arrows + [Arrow(link.edge, start, elbow, end, Point(elbow - LinkW(p, k) / 2.0, y), p.scene.edges[link.edge].text)];
      ArrowBuilt(p, k, a, b, elbow);
    }
  }

  lemma ArrowBuilt(p: Plan, k: nat, a: NodeBox, b: NodeBox, elbow: real)
    requires Shaped(p) && k < |LinksOf(p)|
    requires a == BoxOf(p, LinksOf(p)[k].from) && b == BoxOf(p, LinksOf(p)[k].to)
    requires var l := p.layer[LinksOf(p)[k].from]; elbow == ColX(p, l) + WidthOf(p, l) + GapOf(p, l) / 2.0
    ensures LinksOf(p)[k].edge < |p.scene.edges|
    ensures var link, start, end := LinksOf(p)[k], Point(a.rect.x + a.rect.w, ArrowY(a)), Point(b.rect.x, ArrowY(b));
      var y := if start.y < end.y then end.y + 10.0 else end.y - 10.0 - LineH(p);
      ArrowOf(p, k) == Arrow(link.edge, start, elbow, end, Point(elbow - LinkW(p, k) / 2.0, y), p.scene.edges[link.edge].text)
  {
    hide ColX, WidthOf, GapOf, BoxOf, ArrowY, LinkW, LineH;
    LinkHasEdge(p.scene, |p.scene.edges|, k);
  }

  // ---- the canvas -------------------------------------------------------------------------------

  ghost predicate Laid(scenes: seq<Scene>, m: Metrics, plans: seq<Plan>, k: nat) {
    && |plans| == k <= |scenes| && AllGood(plans) && AllShaped(plans)
    && forall j: nat :: j < k ==> plans[j].scene == scenes[j] && plans[j].m == m
  }

  ghost predicate InPlace(plans: seq<Plan>, blocks: seq<Block>)
    requires AllShaped(plans)
  {
    && |blocks| == |plans|
    && forall j: nat :: j < |blocks| ==>
        blocks[j] == Shifted(BlockOf(plans[j], j), At(SizesOf(plans), j).x, At(SizesOf(plans), j).y)
  }

  lemma {:induction false} FlowPrefix(sizes: seq<Extent>, more: seq<Extent>, k: nat)
    requires k <= |sizes|
    ensures FlowAt(sizes + more, k) == FlowAt(sizes, k)
  {
    if k > 0 {
      FlowPrefix(sizes, more, k - 1);
    }
  }

  lemma OnePlanMore(scenes: seq<Scene>, m: Metrics, plans: seq<Plan>, p: Plan)
    requires |plans| < |scenes| && Laid(scenes, m, plans, |plans|)
    requires Good(p) && Shaped(p) && p.scene == scenes[|plans|] && p.m == m
    ensures Laid(scenes, m, plans + [p], |plans| + 1)
    ensures SizesOf(plans + [p]) == SizesOf(plans) + [SizeOf(p)]
    ensures forall j: nat :: j <= |plans| ==> FlowAt(SizesOf(plans + [p]), j) == FlowAt(SizesOf(plans), j)
    ensures forall j: nat :: j < |plans| ==> At(SizesOf(plans + [p]), j) == At(SizesOf(plans), j)
  {
    hide Good, Shaped, SizeOf, FlowAt;
    assert SizesOf(plans + [p]) == SizesOf(plans) + [SizeOf(p)];
    forall j: nat | j <= |plans| ensures FlowAt(SizesOf(plans + [p]), j) == FlowAt(SizesOf(plans), j) {
      FlowPrefix(SizesOf(plans), [SizeOf(p)], j);
    }
  }

  lemma OneBlockMore(plans: seq<Plan>, blocks: seq<Block>, p: Plan, at: Point)
    requires AllShaped(plans) && AllShaped(plans + [p]) && Shaped(p) && InPlace(plans, blocks)
    requires forall j: nat :: j < |plans| ==> At(SizesOf(plans + [p]), j) == At(SizesOf(plans), j)
    requires at == At(SizesOf(plans + [p]), |plans|)
    ensures InPlace(plans + [p], blocks + [Shifted(BlockOf(p, |plans|), at.x, at.y)])
  {
    hide Shaped, BlockOf, Shifted, SizesOf, At;
  }

  lemma FlowNext(sizes: seq<Extent>, k: nat, f: Flow, size: Extent)
    requires k < |sizes| && f == FlowAt(sizes, k) && size == sizes[k]
    ensures At(sizes, k) == PlaceNext(f, size.w) && FlowAt(sizes, k + 1) == FlowOn(f, size)
  {
  }

  lemma NoneLaid(scenes: seq<Scene>, m: Metrics)
    ensures Laid(scenes, m, [], 0) && InPlace([], []) && FlowAt(SizesOf([]), 0) == Flow(MARGIN, MARGIN, 0.0, 0.0)
  {
  }

  lemma LaidShaped(scenes: seq<Scene>, m: Metrics, plans: seq<Plan>, k: nat)
    requires Laid(scenes, m, plans, k)
    ensures AllShaped(plans) && |plans| == k
  {
  }

  /** No two blocks' bounds come closer than a block gap, and all lie a margin
      inside the canvas. */
  predicate BlocksClear(c: Canvas) {
    && (forall j, k :: 0 <= j < k < |c.blocks| ==> GapApart(c.blocks[j].bounds, c.blocks[k].bounds))
    && (forall k :: 0 <= k < |c.blocks| ==> MarginInside(c.blocks[k].bounds, c))
  }

  predicate GapApart(a: Rect, b: Rect) {
    (a.y == b.y && a.Right() + BLOCK_GAP <= b.x) || a.Bottom() + BLOCK_GAP <= b.y
  }

  predicate MarginInside(a: Rect, c: Canvas) {
    a.x >= MARGIN && a.y >= MARGIN && a.Right() + MARGIN <= c.w && a.Bottom() + MARGIN <= c.h
  }

  lemma BoundsInPlace(plans: seq<Plan>, blocks: seq<Block>, k: nat)
    requires AllShaped(plans) && InPlace(plans, blocks) && k < |plans|
    ensures blocks[k].bounds == BoundsAt(SizesOf(plans), k)
    ensures blocks[k].scene == k && |blocks[k].nodes| == Size(plans[k])
  {
    hide Shaped, At, SizeOf, ArrowsOf, BoxOf;
    BlockIsAt(plans[k], k);
    SizeOfBlock(plans[k], k);
  }

  lemma BlockIsAt(p: Plan, si: nat)
    requires Shaped(p)
    ensures var b := BlockOf(p, si); b.bounds.x == b.bounds.y == 0.0 && b.scene == si && |b.nodes| == Size(p)
  {
  }

  lemma LaidClear(plans: seq<Plan>, c: Canvas)
    requires AllShaped(plans) && AllLined(plans) && InPlace(plans, c.blocks)
    requires c.w == CanvasW(SizesOf(plans)) && c.h == CanvasH(SizesOf(plans))
    ensures BlocksClear(c)
  {
    hide Shaped, SizesOf, BlockOf, Shifted, At, CanvasW, CanvasH, InPlace, BoundsAt;
    SizesAreOk(plans);
    SamePlaces(plans, c.blocks);
    forall j, k | 0 <= j < k < |c.blocks| ensures GapApart(c.blocks[j].bounds, c.blocks[k].bounds) {
      BoundsInPlace(plans, c.blocks, j);
      BoundsInPlace(plans, c.blocks, k);
      BlocksApart(SizesOf(plans), j, k);
    }
    forall k | 0 <= k < |c.blocks| ensures MarginInside(c.blocks[k].bounds, c) {
      BoundsInPlace(plans, c.blocks, k);
      RowsFit(SizesOf(plans), k);
      CanvasHolds(SizesOf(plans), k);
    }
  }

  lemma SamePlaces(plans: seq<Plan>, blocks: seq<Block>)
    requires AllShaped(plans) && InPlace(plans, blocks)
    ensures |blocks| == |plans| == |SizesOf(plans)|
  {
    hide BlockOf, Shifted, At, Shaped;
  }

  lemma LaidScenes(scenes: seq<Scene>, m: Metrics, plans: seq<Plan>, blocks: seq<Block>)
    requires Laid(scenes, m, plans, |scenes|) && InPlace(plans, blocks)
    ensures |blocks| == |scenes|
    ensures forall k :: 0 <= k < |scenes| ==> blocks[k].scene == k && |blocks[k].nodes| == |scenes[k].nodes|
  {
    hide Shaped, SizesOf, BlockOf, Shifted, At, Good;
    forall k | 0 <= k < |scenes| ensures blocks[k].scene == k && |blocks[k].nodes| == |scenes[k].nodes| {
      BoundsInPlace(plans, blocks, k);
    }
  }

  /** The whole canvas: plan, block and place, scene after scene. */
  method Layout(scenes: seq<Scene>, m: Metrics) returns (c: Canvas, ghost plans: seq<Plan>)
    ensures Laid(scenes, m, plans, |scenes|) && InPlace(plans, c.blocks)
    ensures c.w == CanvasW(SizesOf(plans)) && c.h == CanvasH(SizesOf(plans))
    ensures m.line >= 0.0 ==> BlocksClear(c)
    ensures |c.blocks| == |scenes|
    ensures forall k :: 0 <= k < |scenes| ==> c.blocks[k].scene == k && |c.blocks[k].nodes| == |scenes[k].nodes|
  {
    hide Good, Shaped, BlockOf, Shifted, SizeOf, FlowAt, At, Laid, InPlace, AllShaped, BlocksClear;
    NoneLaid(scenes, m);
    var blocks: seq<Block> := [];
    var x, y, rowH, wMax := MARGIN, MARGIN, 0.0, 0.0;
    plans := [];
    for si := 0 to |scenes|
      invariant AllShaped(plans) && |plans| == si
      invariant Laid(scenes, m, plans, si) && InPlace(plans, blocks)
      invariant Flow(x, y, rowH, wMax) == FlowAt(SizesOf(plans), si)
    {
      var p := PlanFor(scenes[si], m);
      var b := BlockFor(p, si);
      SizeOfBlock(p, si);
      OnePlanMore(scenes, m, plans, p);
      LaidShaped(scenes, m, plans + [p], si + 1);
      FlowNext(SizesOf(plans + [p]), si, Flow(x, y, rowH, wMax), SizeOf(p));
      OneBlockMore(plans, blocks, p, PlaceNext(Flow(x, y, rowH, wMax), b.bounds.w));
      plans := plans + [p];
      if x > MARGIN && x + b.bounds.w > ROW_W {
        x := MARGIN;
        y := y + rowH + BLOCK_GAP;
        rowH := 0.0;
      }
      var sheet := new Sheet(b);
      sheet.Shift(x, y);
      x := x + (b.bounds.w + BLOCK_GAP);
      rowH := MaxReal(rowH, b.bounds.h);
      wMax := MaxReal(wMax, x - BLOCK_GAP + MARGIN);
      blocks := blocks + [Block(sheet.scene, sheet.title, sheet.noteAt, sheet.note, sheet.nodes, sheet.arrows, sheet.bounds)];
    }
    c := Canvas(blocks, MaxReal(wMax, MARGIN * 2.0), MaxReal(y + rowH + MARGIN, MARGIN * 2.0));
    if m.line >= 0.0 {
      LaidLined(scenes, m, plans);
      LaidClear(plans, c);
    }
    LaidScenes(scenes, m, plans, blocks);
  }

  lemma LaidLined(scenes: seq<Scene>, m: Metrics, plans: seq<Plan>)
    requires Laid(scenes, m, plans, |scenes|) && m.line >= 0.0
    ensures AllLined(plans)
  {
    hide Shaped, Good;
  }

  lemma SizeOfBlock(p: Plan, si: nat)
    requires Shaped(p)
    ensures Extent(BlockOf(p, si).bounds.w, BlockOf(p, si).bounds.h) == SizeOf(p)
  {
  }

  /** What is drawn of a node, its mount and its caption, lies in its region. */
  lemma DrawnInRegion(plans: seq<Plan>, blocks: seq<Block>, k: nat, i: nat)
    requires AllShaped(plans) && InPlace(plans, blocks) && k < |plans| && i < Size(plans[k])
    requires plans[k].m.line >= 0.0
    ensures i < |blocks[k].nodes|
    ensures var box, region := blocks[k].nodes[i], RegionAt(plans, k, i);
      && box.node == i && box.caption == Point(region.x, region.y)
      && Inside(box.rect, region)
      && box.caption.y + LineH(plans[k]) * (1.0 + |box.note| as real) + CAPTION_GAP <= box.rect.y
      && Widest(plans[k].m, box.note) <= region.w
  {
    hide Shaped, BlockOf, SizesOf, At, Region, ItemW, BoxOf, LineH, Widest;
    var p, at := plans[k], At(SizesOf(plans), k);
    RegionHolds(p, i);
    RegionDown(p, i);
    BlockNodes(p, k, i);
    ShiftedNode(BlockOf(p, k), at.x, at.y, i);
    CaptionCorner(p, i);
  }

  lemma CaptionCorner(p: Plan, i: nat)
    requires Shaped(p) && i < Size(p)
    ensures BoxOf(p, i).caption == Point(Region(p, i).x, Region(p, i).y) && BoxOf(p, i).node == i
  {
  }

  lemma BlockNodes(p: Plan, si: nat, i: nat)
    requires Shaped(p) && i < Size(p)
    ensures |BlockOf(p, si).nodes| == Size(p) && BlockOf(p, si).nodes[i] == BoxOf(p, i)
  {
  }

  lemma ShiftedNode(b: Block, dx: real, dy: real, i: nat)
    requires i < |b.nodes|
    ensures |Shifted(b, dx, dy).nodes| == |b.nodes| && Shifted(b, dx, dy).nodes[i] == MovedBox(b.nodes[i], dx, dy)
  {
  }

  /** In a scene whose edges name nodes and do not go round, every arrow is
      drawn from left to right over its elbow, its words between. */
  lemma DrawnAcross(plans: seq<Plan>, blocks: seq<Block>, k: nat, e: nat)
    requires AllGood(plans) && AllShaped(plans) && InPlace(plans, blocks) && k < |plans|
    requires Sound(plans[k].scene) && e < |LinksOf(plans[k])|
    ensures e < |blocks[k].arrows|
    ensures var arrow := blocks[k].arrows[e];
      && arrow.start.x < arrow.elbow < arrow.end.x
      && arrow.start.x < arrow.textAt.x && arrow.textAt.x + LinkW(plans[k], e) < arrow.end.x
  {
    hide Good, Shaped, BlockOf, SizesOf, At, Sound, LinksOf, LinkW, ArrowOf;
    var p, at := plans[k], At(SizesOf(plans), k);
    ArrowsAcross(p, e);
    BlockArrows(p, k, e);
    ShiftedArrow(BlockOf(p, k), at.x, at.y, e);
  }

  lemma BlockArrows(p: Plan, si: nat, e: nat)
    requires Shaped(p) && e < |LinksOf(p)|
    ensures |BlockOf(p, si).arrows| == |LinksOf(p)| && BlockOf(p, si).arrows[e] == ArrowOf(p, e)
  {
  }

  lemma ShiftedArrow(b: Block, dx: real, dy: real, e: nat)
    requires e < |b.arrows|
    ensures |Shifted(b, dx, dy).arrows| == |b.arrows| && Shifted(b, dx, dy).arrows[e] == MovedArrow(b.arrows[e], dx, dy)
  {
  }
}
