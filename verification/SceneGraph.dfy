/** A subject and its states: nodes by name, edges between them. */
module SceneGraph {
  import opened Base
  import opened Dag

  datatype Node = Node(name: string, note: seq<string>, width: real, height: real)

  datatype Edge = Edge(from: string, to: string, text: string)

  datatype Scene = Scene(name: string, note: seq<string>, nodes: seq<Node>, edges: seq<Edge>)

  /** What is wrong with a scene: the node or edge at fault. */
  datatype Fault = NamedTwice(node: nat) | NoName(node: nat) | NoSuchNode(edge: nat) | ToItself(edge: nat) | GoesRound

  predicate NamedAt(nodes: seq<Node>, name: string, i: nat) {
    i < |nodes| && nodes[i].name == name && forall k :: 0 <= k < i ==> nodes[k].name != name
  }

  predicate HasName(nodes: seq<Node>, name: string) {
    exists k :: 0 <= k < |nodes| && nodes[k].name == name
  }

  /** The first node of that name. */
  function Index(nodes: seq<Node>, name: string): (i: Option<nat>)
    ensures i.Some? ==> NamedAt(nodes, name, i.value)
    ensures i.None? ==> !HasName(nodes, name)
  {
    if nodes == [] then None
    else if nodes[0].name == name then Some(0)
    else
      match Index(nodes[1..], name)
      case None => None
      case Some(i) =>
        assert NamedAt(nodes, name, i + 1) by {
          assert forall k :: 0 < k <= i ==> nodes[k] == nodes[1..][k - 1];
        }
        Some(i + 1)
  }

  predicate NodeOk(scene: Scene, k: nat) {
    k < |scene.nodes| && scene.nodes[k].name != "" && !HasName(scene.nodes[..k], scene.nodes[k].name)
  }

  predicate Resolves(scene: Scene, k: nat) {
    k < |scene.edges| && HasName(scene.nodes, scene.edges[k].from) && HasName(scene.nodes, scene.edges[k].to)
  }

  predicate EdgeOk(scene: Scene, k: nat) {
    Resolves(scene, k) && scene.edges[k].from != scene.edges[k].to
  }

  predicate NodesOk(scene: Scene, upTo: nat) {
    forall k: nat :: k < upTo ==> NodeOk(scene, k)
  }

  predicate AllResolve(scene: Scene, upTo: nat) {
    forall k: nat :: k < upTo ==> Resolves(scene, k)
  }

  predicate EdgesOk(scene: Scene, upTo: nat) {
    AllResolve(scene, upTo) && forall k: nat :: k < upTo ==> EdgeOk(scene, k)
  }

  lemma Found(nodes: seq<Node>, name: string)
    ensures Index(nodes, name).Some? <==> HasName(nodes, name)
  {
  }

  /** The edges' ends, by position. */
  function ArcOf(scene: Scene, k: nat): Arc
    requires Resolves(scene, k)
  {
    Arc(Index(scene.nodes, scene.edges[k].from).value, Index(scene.nodes, scene.edges[k].to).value)
  }

  function Arcs(scene: Scene): seq<Arc>
    requires AllResolve(scene, |scene.edges|)
  {
    seq(|scene.edges|, k requires 0 <= k < |scene.edges| => ArcOf(scene, k))
  }

  lemma ArcsWithin(scene: Scene)
    requires AllResolve(scene, |scene.edges|)
    ensures Within(|scene.nodes|, Arcs(scene))
  {
    forall k | 0 <= k < |scene.edges| ensures Arcs(scene)[k].from < |scene.nodes| && Arcs(scene)[k].to < |scene.nodes| {
      var edge := scene.edges[k];
      assert Resolves(scene, k);
      assert Index(scene.nodes, edge.from).Some? && Index(scene.nodes, edge.to).Some?;
    }
  }

  /** No name shared or missing, no edge left hanging or looping, no cycle. */
  ghost predicate WellMade(scene: Scene) {
    && NodesOk(scene, |scene.nodes|)
    && EdgesOk(scene, |scene.edges|)
    && !Cyclic(Arcs(scene))
  }

  datatype Result<T> = Ok(value: T) | Err(fault: Fault)

  /** Each node's layer; an edge to nowhere, or a way round, is an error. */
  method Layers(scene: Scene) returns (layers: Result<seq<nat>>)
    ensures layers.Ok? ==> AllResolve(scene, |scene.edges|) && Layered(|scene.nodes|, Arcs(scene), layers.value)
    ensures layers.Ok? ==> !Cyclic(Arcs(scene))
    ensures layers.Err? ==>
      || (layers.fault == GoesRound && AllResolve(scene, |scene.edges|) && Cyclic(Arcs(scene)))
      || (layers.fault.NoSuchNode? && var k := layers.fault.edge;
          k < |scene.edges| && AllResolve(scene, k) && !Resolves(scene, k))
  {
    hide Cyclic, Layered, Index, HasName;
    var arcs: seq<Arc> := [];
    for k := 0 to |scene.edges|
      invariant AllResolve(scene, k) && |arcs| == k
      invariant forall j: nat :: j < k ==> arcs[j] == ArcOf(scene, j)
    {
      var a, b := Index(scene.nodes, scene.edges[k].from), Index(scene.nodes, scene.edges[k].to);
      Found(scene.nodes, scene.edges[k].from);
      Found(scene.nodes, scene.edges[k].to);
      if a.None? || b.None? {
        return Err(NoSuchNode(k));
      }
      assert Resolves(scene, k);
      arcs := arcs + [Arc(a.value, b.value)];
    }
    assert arcs == Arcs(scene);
    ArcsWithin(scene);
    var found := Dag.Layers(|scene.nodes|, arcs);
    match found {
      case Some(layer) => return Ok(layer);
      case None => return Err(GoesRound);
    }
  }

  /** The fault reported is the first: every node before it and, for an edge,
      every node and every edge before it are as they should be. */
  ghost predicate First(scene: Scene, fault: Fault) {
    match fault
    case NamedTwice(k) => k < |scene.nodes| && NodesOk(scene, k) && HasName(scene.nodes[..k], scene.nodes[k].name)
    case NoName(k) =>
      k < |scene.nodes| && NodesOk(scene, k) && scene.nodes[k].name == ""
      && !HasName(scene.nodes[..k], scene.nodes[k].name)
    case NoSuchNode(k) => NodesOk(scene, |scene.nodes|) && k < |scene.edges| && EdgesOk(scene, k) && !Resolves(scene, k)
    case ToItself(k) =>
      NodesOk(scene, |scene.nodes|) && EdgesOk(scene, k) && Resolves(scene, k) && scene.edges[k].from == scene.edges[k].to
    case GoesRound =>
      NodesOk(scene, |scene.nodes|) && EdgesOk(scene, |scene.edges|) && Cyclic(Arcs(scene))
  }

  method Check(scene: Scene) returns (fault: Option<Fault>)
    ensures fault.None? <==> WellMade(scene)
    ensures fault.Some? ==> First(scene, fault.value)
  {
    hide Cyclic, Layered, Index;
    var seen: set<string> := {};
    for k := 0 to |scene.nodes|
      invariant NodesOk(scene, k)
      invariant forall name :: name in seen <==> HasName(scene.nodes[..k], name)
    {
      var name := scene.nodes[k].name;
      if name in seen {
        assert !NodeOk(scene, k);
        return Some(NamedTwice(k));
      }
      if name == "" {
        assert !NodeOk(scene, k);
        return Some(NoName(k));
      }
      SeenOneMore(scene.nodes, k);
      seen := seen + {name};
    }
    for k := 0 to |scene.edges|
      invariant EdgesOk(scene, k)
    {
      var edge := scene.edges[k];
      Found(scene.nodes, edge.from);
      Found(scene.nodes, edge.to);
      if Index(scene.nodes, edge.from).None? || Index(scene.nodes, edge.to).None? {
        assert !EdgeOk(scene, k);
        return Some(NoSuchNode(k));
      }
      if edge.from == edge.to {
        assert !EdgeOk(scene, k);
        return Some(ToItself(k));
      }
    }
    var layers := Layers(scene);
    match layers {
      case Ok(_) => return None;
      case Err(wrong) =>
        assert AllResolve(scene, |scene.edges|);
        return Some(wrong);
    }
  }

  lemma SeenOneMore(nodes: seq<Node>, k: nat)
    requires k < |nodes|
    ensures forall name :: HasName(nodes[..k + 1], name) <==> HasName(nodes[..k], name) || name == nodes[k].name
  {
    forall name ensures HasName(nodes[..k + 1], name) <==> HasName(nodes[..k], name) || name == nodes[k].name {
      if HasName(nodes[..k], name) {
        var j :| 0 <= j < k && nodes[..k][j].name == name;
        assert nodes[..k + 1][j].name == name;
      }
      if name == nodes[k].name {
        assert nodes[..k + 1][k].name == name;
      }
      if HasName(nodes[..k + 1], name) && name != nodes[k].name {
        var j :| 0 <= j < k + 1 && nodes[..k + 1][j].name == name;
        assert nodes[..k][j].name == name;
      }
    }
  }
}
