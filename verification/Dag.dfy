/** Longest-chain layers of a directed graph: what they are, and the queue
    algorithm that finds them or finds that there is a cycle. */
module Dag {
  import opened Base

  datatype Arc = Arc(from: nat, to: nat)

  predicate Within(n: nat, arcs: seq<Arc>) {
    forall k :: 0 <= k < |arcs| ==> arcs[k].from < n && arcs[k].to < n
  }

  // ---- walks ----------------------------------------------------------------------

  /** A chain of arcs, as the nodes it visits. */
  predicate Walk(arcs: seq<Arc>, p: seq<nat>) {
    p != [] && forall k :: 0 <= k < |p| - 1 ==> Arc(p[k], p[k + 1]) in arcs
  }

  predicate WalkTo(arcs: seq<Arc>, v: nat, p: seq<nat>) {
    Walk(arcs, p) && p[|p| - 1] == v
  }

  ghost predicate Cyclic(arcs: seq<Arc>) {
    exists p :: Walk(arcs, p) && |p| >= 2 && p[0] == p[|p| - 1]
  }

  /** `len` is the length of the longest chain of arcs into `v`. */
  ghost predicate LongestTo(arcs: seq<Arc>, v: nat, len: nat) {
    && (exists p :: WalkTo(arcs, v, p) && |p| == len + 1)
    && (forall p :: WalkTo(arcs, v, p) ==> |p| <= len + 1)
  }

  ghost predicate Layered(n: nat, arcs: seq<Arc>, layer: seq<nat>) {
    |layer| == n && forall v: nat :: v < n ==> LongestTo(arcs, v, layer[v])
  }

  // ---- what the algorithm keeps -------------------------------------------------------

  /** How many arcs into `b` come from nodes not yet taken. */
  function Pending(arcs: seq<Arc>, taken: set<nat>, b: nat): nat {
    if arcs == [] then 0
    else
      var last := arcs[|arcs| - 1];
      Pending(arcs[..|arcs| - 1], taken, b) + if last.to == b && last.from !in taken then 1 else 0
  }

  /** The targets of the arcs out of `a`, in order, one for each arc. */
  function Out(arcs: seq<Arc>, a: nat): seq<nat> {
    if arcs == [] then []
    else
      var last := arcs[|arcs| - 1];
      Out(arcs[..|arcs| - 1], a) + if last.from == a then [last.to] else []
  }

  lemma {:induction false} PendingDrops(arcs: seq<Arc>, taken: set<nat>, a: nat, b: nat)
    requires a !in taken
    ensures Pending(arcs, taken, b) == Pending(arcs, taken + {a}, b) + multiset(Out(arcs, a))[b]
  {
    if arcs != [] {
      PendingDrops(arcs[..|arcs| - 1], taken, a, b);
    }
  }

  lemma {:induction false} NonePending(arcs: seq<Arc>, taken: set<nat>, b: nat)
    ensures Pending(arcs, taken, b) == 0 <==> (forall k :: 0 <= k < |arcs| && arcs[k].to == b ==> arcs[k].from in taken)
  {
    if arcs != [] {
      NonePending(arcs[..|arcs| - 1], taken, b);
    }
  }

  lemma {:induction false} OutIs(arcs: seq<Arc>, a: nat, b: nat)
    ensures b in Out(arcs, a) <==> Arc(a, b) in arcs
  {
    if arcs != [] {
      var rest := arcs[..|arcs| - 1];
      OutIs(rest, a, b);
      assert arcs == rest + [arcs[|arcs| - 1]];
    }
  }

  lemma {:induction false} OutWithin(n: nat, arcs: seq<Arc>, a: nat)
    requires Within(n, arcs)
    ensures forall k :: 0 <= k < |Out(arcs, a)| ==> Out(arcs, a)[k] < n
  {
    if arcs != [] {
      OutWithin(n, arcs[..|arcs| - 1], a);
    }
  }

  /** Arcs from taken nodes climb, and a node stands just above one of them. */
  ghost predicate Climbs(arcs: seq<Arc>, taken: set<nat>, layer: seq<nat>) {
    Rising(arcs, taken, layer) && Standing(arcs, taken, layer)
  }

  predicate Rising(arcs: seq<Arc>, taken: set<nat>, layer: seq<nat>) {
    forall k :: 0 <= k < |arcs| ==> Rises(arcs[k], taken, layer)
  }

  predicate Rises(arc: Arc, taken: set<nat>, layer: seq<nat>) {
    arc.from in taken && arc.from < |layer| && arc.to < |layer| ==> layer[arc.from] < layer[arc.to]
  }

  ghost predicate Standing(arcs: seq<Arc>, taken: set<nat>, layer: seq<nat>) {
    forall v: nat :: v < |layer| ==> layer[v] == 0 || Above(arcs, taken, layer, v)
  }

  ghost predicate Above(arcs: seq<Arc>, taken: set<nat>, layer: seq<nat>, v: nat) {
    exists a: nat :: a in taken && a < |layer| && v < |layer| && Arc(a, v) in arcs && layer[v] == layer[a] + 1
  }

  // ---- every node taken: the layers are the longest chains ------------------------------

  lemma {:induction false} WalkClimbs(n: nat, arcs: seq<Arc>, layer: seq<nat>, p: seq<nat>)
    requires Within(n, arcs) && |layer| == n && Walk(arcs, p) && |p| >= 2
    requires forall k :: 0 <= k < |arcs| ==> layer[arcs[k].from] < layer[arcs[k].to]
    ensures p[0] < n && p[|p| - 1] < n && layer[p[|p| - 1]] >= layer[p[0]] + |p| - 1
  {
    var q := p[..|p| - 1];
    assert Arc(p[|p| - 2], p[|p| - 1]) in arcs;
    if |q| >= 2 {
      assert Walk(arcs, q);
      WalkClimbs(n, arcs, layer, q);
    }
  }

  lemma {:induction false} ChainTo(n: nat, arcs: seq<Arc>, taken: set<nat>, layer: seq<nat>, v: nat) returns (p: seq<nat>)
    requires |layer| == n && v < n
    requires forall u: nat :: u < n ==> layer[u] == 0 || Above(arcs, taken, layer, u)
    ensures WalkTo(arcs, v, p) && |p| == layer[v] + 1
    decreases layer[v]
  {
    if layer[v] == 0 {
      p := [v];
    } else {
      assert Above(arcs, taken, layer, v);
      var a: nat :| a in taken && a < n && Arc(a, v) in arcs && layer[v] == layer[a] + 1;
      var q := ChainTo(n, arcs, taken, layer, a);
      p := q + [v];
    }
  }

  lemma AllTaken(n: nat, arcs: seq<Arc>, taken: set<nat>, layer: seq<nat>)
    requires Within(n, arcs) && |layer| == n && Climbs(arcs, taken, layer)
    requires forall v: nat :: v < n ==> v in taken
    ensures !Cyclic(arcs) && Layered(n, arcs, layer)
  {
    assert forall k :: 0 <= k < |arcs| ==> Rises(arcs[k], taken, layer);
    forall p | Walk(arcs, p) && |p| >= 2 ensures p[0] != p[|p| - 1] {
      WalkClimbs(n, arcs, layer, p);
    }
    forall v: nat | v < n ensures LongestTo(arcs, v, layer[v]) {
      var chain := ChainTo(n, arcs, taken, layer, v);
      forall p | WalkTo(arcs, v, p) ensures |p| <= layer[v] + 1 {
        if |p| >= 2 {
          WalkClimbs(n, arcs, layer, p);
        }
      }
    }
  }

  // ---- nothing left to take: a cycle -------------------------------------------------------

  lemma {:induction false} FewDistinct(n: nat, p: seq<nat>)
    requires forall k :: 0 <= k < |p| ==> p[k] < n
    requires forall i, j :: 0 <= i < j < |p| ==> p[i] != p[j]
    ensures |p| <= n
  {
    if |p| > 0 {
      var nodes := set k | 0 <= k < |p| :: p[k];
      DistinctCount(p);
      Counted(n, nodes);
    }
  }

  lemma {:induction false} DistinctCount(p: seq<nat>)
    requires forall i, j :: 0 <= i < j < |p| ==> p[i] != p[j]
    ensures |set k | 0 <= k < |p| :: p[k]| == |p|
  {
    if p != [] {
      var q := p[..|p| - 1];
      DistinctCount(q);
      assert (set k | 0 <= k < |p| :: p[k]) == (set k | 0 <= k < |q| :: q[k]) + {p[|p| - 1]};
    }
  }

  lemma {:induction false} Counted(n: nat, s: set<nat>)
    requires forall v :: v in s ==> v < n
    ensures |s| <= n
    ensures |s| == n ==> forall v: nat :: v < n ==> v in s
  {
    if n == 0 {
      assert s == {};
    } else {
      var rest := s - {n - 1};
      Counted(n - 1, rest);
      assert s == if n - 1 in s then rest + {n - 1} else rest;
    }
  }

  /** Walking back among the nodes left, one arc at a time. */
  lemma {:induction false} WalkBack(n: nat, arcs: seq<Arc>, taken: set<nat>, v: nat, len: nat) returns (p: seq<nat>)
    requires Within(n, arcs) && v < n && v !in taken
    requires forall u: nat :: u < n && u !in taken ==> Pending(arcs, taken, u) > 0
    ensures WalkTo(arcs, v, p) && |p| == len + 1
    ensures forall k :: 0 <= k < |p| ==> p[k] < n
    decreases len
  {
    if len == 0 {
      p := [v];
    } else {
      NonePending(arcs, taken, v);
      var k :| 0 <= k < |arcs| && arcs[k].to == v && arcs[k].from !in taken;
      var q := WalkBack(n, arcs, taken, arcs[k].from, len - 1);
      p := q + [v];
    }
  }

  lemma Stuck(n: nat, arcs: seq<Arc>, taken: set<nat>, v: nat)
    requires Within(n, arcs) && v < n && v !in taken
    requires forall u: nat :: u < n && u !in taken ==> Pending(arcs, taken, u) > 0
    ensures Cyclic(arcs)
  {
    var p := WalkBack(n, arcs, taken, v, n);
    if forall i, j :: 0 <= i < j < |p| ==> p[i] != p[j] {
      FewDistinct(n, p);
      assert false;
    }
    var i, j :| 0 <= i < j < |p| && p[i] == p[j];
    var q := p[i..j + 1];
    assert Walk(arcs, q);
  }

  // ---- the queue -----------------------------------------------------------------------

  /** `pending` counts the arcs into each node from nodes not taken, but for
      the first `seen` targets already crossed off. */
  ghost predicate Counts(arcs: seq<Arc>, taken: set<nat>, seen: seq<nat>, pending: seq<int>) {
    forall b: nat :: b < |pending| ==> pending[b] == Pending(arcs, taken, b) - multiset(seen)[b]
  }

  /** The queue holds, once each, the nodes not taken that nothing waits on. */
  ghost predicate Queued(queue: seq<nat>, taken: set<nat>, pending: seq<int>) {
    && (forall i, j :: 0 <= i < j < |queue| ==> queue[i] != queue[j])
    && (forall k :: 0 <= k < |queue| ==> Ready(queue[k], taken, pending))
    && (forall b: nat :: Ready(b, taken, pending) ==> b in queue)
  }

  ghost predicate Ready(b: nat, taken: set<nat>, pending: seq<int>) {
    b < |pending| && pending[b] == 0 && b !in taken
  }

  /** Layers raised past `a` for the targets seen so far. */
  ghost predicate Raised(was: seq<nat>, a: nat, seen: seq<nat>, layer: seq<nat>) {
    && |layer| == |was| && a < |was|
    && forall b: nat :: b < |was| ==> layer[b] == if b in seen then Max(was[b], was[a] + 1) else was[b]
  }

  /** One target crossed off. */
  lemma CrossOff(arcs: seq<Arc>, taken: set<nat>, seen: seq<nat>, b: nat, was: seq<int>, now: seq<int>)
    requires b < |was| && Counts(arcs, taken, seen, was)
    requires now == was[b := was[b] - 1]
    ensures Counts(arcs, taken, seen + [b], now)
  {
    forall c: nat | c < |now| ensures now[c] == Pending(arcs, taken, c) - multiset(seen + [b])[c] {
      assert multiset(seen + [b]) == multiset(seen) + multiset{b};
    }
  }

  lemma Requeue(queue: seq<nat>, taken: set<nat>, was: seq<int>, b: nat, now: seq<int>)
    requires b < |was| && b !in taken && was[b] > 0 && now == was[b := was[b] - 1]
    requires Queued(queue, taken, was)
    ensures Queued(if now[b] == 0 then queue + [b] else queue, taken, now)
  {
    assert !Ready(b, taken, was);
    forall c: nat | c < |was| && c != b ensures Ready(c, taken, now) == Ready(c, taken, was) {
    }
  }

  lemma RaiseOne(was: seq<nat>, a: nat, seen: seq<nat>, layer: seq<nat>, b: nat)
    requires Raised(was, a, seen, layer) && b < |was| && b != a && a !in seen
    ensures Raised(was, a, seen + [b], layer[b := Max(layer[b], layer[a] + 1)])
  {
  }

  /** When all of `a`'s targets are crossed off and raised, `a` is taken. */
  lemma Took(arcs: seq<Arc>, taken: set<nat>, a: nat, pending: seq<int>, was: seq<nat>, layer: seq<nat>)
    requires a < |was| && a !in taken && Climbs(arcs, taken, was)
    requires Counts(arcs, taken, Out(arcs, a), pending)
    requires Raised(was, a, Out(arcs, a), layer)
    requires Arc(a, a) !in arcs && Pending(arcs, taken, a) == 0
    requires forall b: nat :: b in taken ==> Pending(arcs, taken, b) == 0
    ensures Counts(arcs, taken + {a}, [], pending)
    ensures Climbs(arcs, taken + {a}, layer)
    ensures forall b: nat :: b in taken + {a} ==> Pending(arcs, taken + {a}, b) == 0
  {
    forall b: nat ensures Pending(arcs, taken, b) == Pending(arcs, taken + {a}, b) + multiset(Out(arcs, a))[b] {
      PendingDrops(arcs, taken, a, b);
    }
    TookClimbs(arcs, taken, a, was, layer);
  }

  /** A node taken is no target of one taken later. */
  lemma TakenStay(arcs: seq<Arc>, taken: set<nat>, a: nat)
    requires a !in taken && Arc(a, a) !in arcs
    requires forall b: nat :: b in taken ==> Pending(arcs, taken, b) == 0
    ensures forall b: nat :: b in taken + {a} ==> Arc(a, b) !in arcs
  {
    hide Pending;
    forall b: nat | b in taken ensures Arc(a, b) !in arcs {
      NonePending(arcs, taken, b);
    }
  }

  lemma TookClimbs(arcs: seq<Arc>, taken: set<nat>, a: nat, was: seq<nat>, layer: seq<nat>)
    requires a < |was| && a !in taken && Climbs(arcs, taken, was)
    requires Raised(was, a, Out(arcs, a), layer)
    requires Arc(a, a) !in arcs && Pending(arcs, taken, a) == 0
    requires forall b: nat :: b in taken ==> Pending(arcs, taken, b) == 0
    ensures Climbs(arcs, taken + {a}, layer)
  {
    hide Pending, Out, Above;
    forall b: nat ensures b in Out(arcs, a) <==> Arc(a, b) in arcs {
      OutIs(arcs, a, b);
    }
    TakenStay(arcs, taken, a);
    forall k | 0 <= k < |arcs| ensures Rises(arcs[k], taken + {a}, layer) {
      assert Rises(arcs[k], taken, was);
      assert arcs[k] == Arc(arcs[k].from, arcs[k].to);
    }
    forall v: nat | v < |layer| && layer[v] != 0 ensures Above(arcs, taken + {a}, layer, v) {
      StillAbove(arcs, taken, a, was, layer, v);
    }
  }

  lemma StillAbove(arcs: seq<Arc>, taken: set<nat>, a: nat, was: seq<nat>, layer: seq<nat>, v: nat)
    requires a < |was| && Raised(was, a, Out(arcs, a), layer) && v < |layer|
    requires forall b: nat :: b in taken + {a} ==> b !in Out(arcs, a)
    requires v in Out(arcs, a) ==> Arc(a, v) in arcs
    requires was[v] == 0 || Above(arcs, taken, was, v)
    ensures layer[v] == 0 || Above(arcs, taken + {a}, layer, v)
  {
    hide Out;
    if layer[v] != was[v] {
      assert a in taken + {a} && layer[v] == layer[a] + 1;
    } else if was[v] != 0 {
      var u: nat :| u in taken && u < |was| && Arc(u, v) in arcs && was[v] == was[u] + 1;
      assert u in taken + {a} && layer[v] == layer[u] + 1;
    }
  }

  lemma NoneTaken(arcs: seq<Arc>, layer: seq<nat>)
    requires forall v: nat :: v < |layer| ==> layer[v] == 0
    ensures Climbs(arcs, {}, layer)
  {
  }

  /** The next target of `a` still waits on it, and is neither `a` nor taken. */
  lemma StillWaits(arcs: seq<Arc>, taken: set<nat>, a: nat, j: nat, pending: seq<int>)
    requires a !in taken && Pending(arcs, taken, a) == 0
    requires forall v :: v in taken ==> Pending(arcs, taken, v) == 0
    requires j < |Out(arcs, a)| && Out(arcs, a)[j] < |pending|
    requires Counts(arcs, taken, Out(arcs, a)[..j], pending)
    ensures var b := Out(arcs, a)[j]; pending[b] > 0 && b != a && b !in taken
    ensures Arc(a, a) !in arcs && a !in Out(arcs, a)
  {
    var out := Out(arcs, a);
    var b := out[j];
    PendingDrops(arcs, taken, a, b);
    assert multiset(out)[b] > multiset(out[..j])[b] by {
      assert out == out[..j] + [b] + out[j + 1..];
    }
    NonePending(arcs, taken, a);
    OutIs(arcs, a, a);
  }

  lemma Popped(queue: seq<nat>, taken: set<nat>, pending: seq<int>)
    requires queue != [] && Queued(queue, taken, pending)
    ensures Ready(queue[0], taken, pending)
    ensures Queued(queue[1..], taken + {queue[0]}, pending)
  {
    var a, rest := queue[0], queue[1..];
    forall b: nat | Ready(b, taken + {a}, pending) ensures b in rest {
      assert Ready(b, taken, pending);
      var k :| 0 <= k < |queue| && queue[k] == b;
      assert rest[k - 1] == b;
    }
    forall k | 0 <= k < |rest| ensures Ready(rest[k], taken + {a}, pending) {
      assert rest[k] == queue[k + 1];
    }
  }

  /** Each node's targets, and how many arcs each node waits on. */
  method Adjacency(n: nat, arcs: seq<Arc>, outs: array<seq<nat>>, pending: array<int>)
    requires Within(n, arcs) && outs.Length == pending.Length == n
    requires forall a: nat :: a < n ==> outs[a] == [] && pending[a] == 0
    modifies outs, pending
    ensures forall a: nat :: a < n ==> outs[a] == Out(arcs, a)
    ensures Counts(arcs, {}, [], pending[..])
  {
    for k := 0 to |arcs|
      invariant forall a: nat :: a < n ==> outs[a] == Out(arcs[..k], a)
      invariant forall b: nat :: b < n ==> pending[b] == Pending(arcs[..k], {}, b)
    {
      assert arcs[..k + 1][..k] == arcs[..k];
      var arc := arcs[k];
      outs[arc.from] := outs[arc.from] + [arc.to];
      pending[arc.to] := pending[arc.to] + 1;
    }
    assert arcs[..|arcs|] == arcs;
  }

  method Roots(n: nat, pending: array<int>) returns (queue: seq<nat>)
    requires pending.Length == n
    ensures Queued(queue, {}, pending[..])
  {
    queue := [];
    for i := 0 to n
      invariant forall k :: 0 <= k < |queue| ==> queue[k] < i
      invariant Queued(queue, {}, pending[..i])
    {
      ghost var was := queue;
      if pending[i] == 0 {
        queue := queue + [i];
      }
      forall b: nat ensures Ready(b, {}, pending[..i + 1]) <==> Ready(b, {}, pending[..i]) || (b == i && pending[i] == 0) {
      }
      forall b: nat | Ready(b, {}, pending[..i + 1]) ensures b in queue {
        if b != i {
          assert b in was;
        }
      }
    }
    assert pending[..n] == pending[..];
  }

  /** Takes `a`: raises its targets past it and queues those it leaves waiting
      on nothing. */
  method Take(arcs: seq<Arc>, ghost taken: set<nat>, a: nat, out: seq<nat>,
              pending: array<int>, layer: array<nat>, queue: seq<nat>) returns (queued: seq<nat>)
    requires pending.Length == layer.Length && Within(layer.Length, arcs)
    requires a < layer.Length && a !in taken && Pending(arcs, taken, a) == 0 && out == Out(arcs, a)
    requires forall v :: v in taken ==> Pending(arcs, taken, v) == 0
    requires Counts(arcs, taken, [], pending[..]) && Climbs(arcs, taken, layer[..])
    requires Queued(queue, taken + {a}, pending[..])
    modifies pending, layer
    ensures Counts(arcs, taken + {a}, [], pending[..]) && Climbs(arcs, taken + {a}, layer[..])
    ensures Queued(queued, taken + {a}, pending[..])
    ensures forall v :: v in taken + {a} ==> Pending(arcs, taken + {a}, v) == 0
  {
    hide Pending, Counts, Queued, Climbs, Out, Raised;
    ghost var was := layer[..];
    queued := queue;
    OutWithin(layer.Length, arcs, a);
    NothingRaised(was, a);
    for j := 0 to |out|
      invariant Counts(arcs, taken, out[..j], pending[..])
      invariant Queued(queued, taken + {a}, pending[..])
      invariant Raised(was, a, out[..j], layer[..])
    {
      var b := out[j];
      StillWaits(arcs, taken, a, j, pending[..]);
      CrossOff(arcs, taken, out[..j], b, pending[..], pending[..][b := pending[b] - 1]);
      Requeue(queued, taken + {a}, pending[..], b, pending[..][b := pending[b] - 1]);
      RaiseOne(was, a, out[..j], layer[..], b);
      assert out[..j + 1] == out[..j] + [b];
      ghost var p, l := pending[..], layer[..];
      layer[b] := Max(layer[b], layer[a] + 1);
      assert layer[..] == l[b := Max(l[b], l[a] + 1)];
      pending[b] := pending[b] - 1;
      assert pending[..] == p[b := p[b] - 1];
      if pending[b] == 0 {
        queued := queued + [b];
      }
    }
    assert out[..|out|] == out;
    NoLoop(arcs, taken, a);
    Took(arcs, taken, a, pending[..], was, layer[..]);
  }

  lemma NothingRaised(was: seq<nat>, a: nat)
    requires a < |was|
    ensures Raised(was, a, [], was)
  {
  }

  lemma NoLoop(arcs: seq<Arc>, taken: set<nat>, a: nat)
    requires a !in taken && Pending(arcs, taken, a) == 0
    ensures Arc(a, a) !in arcs
  {
    NonePending(arcs, taken, a);
  }

  /** With the queue run dry, the nodes taken are all of them or there is a cycle. */
  lemma RunDry(n: nat, arcs: seq<Arc>, taken: set<nat>, pending: seq<int>, layer: seq<nat>)
    requires Within(n, arcs) && |pending| == |layer| == n && (forall v :: v in taken ==> v < n)
    requires Counts(arcs, taken, [], pending) && Queued([], taken, pending) && Climbs(arcs, taken, layer)
    ensures |taken| < n ==> Cyclic(arcs)
    ensures |taken| >= n ==> !Cyclic(arcs) && Layered(n, arcs, layer)
  {
    hide Climbs, Cyclic, Layered, Pending;
    Counted(n, taken);
    if forall v: nat :: v < n ==> v in taken {
      Subset(n, taken);
      AllTaken(n, arcs, taken, layer);
    } else {
      var v: nat :| v < n && v !in taken;
      forall u: nat | u < n && u !in taken ensures Pending(arcs, taken, u) > 0 {
        assert !Ready(u, taken, pending);
      }
      Stuck(n, arcs, taken, v);
    }
  }

  lemma {:induction false} Subset(n: nat, s: set<nat>)
    requires forall v: nat :: v < n ==> v in s
    ensures |s| >= n
  {
    if n > 0 {
      var rest := s - {n - 1};
      Subset(n - 1, rest);
      assert s == rest + {n - 1};
    }
  }

  lemma TakenReady(arcs: seq<Arc>, taken: set<nat>, a: nat, pending: seq<int>)
    requires Counts(arcs, taken, [], pending) && Ready(a, taken, pending)
    ensures Pending(arcs, taken, a) == 0 && a < |pending| && a !in taken
  {
  }

  /** Each node's layer, or that the arcs go round. */
  method Layers(n: nat, arcs: seq<Arc>) returns (layers: Option<seq<nat>>)
    requires Within(n, arcs)
    ensures layers.None? <==> Cyclic(arcs)
    ensures layers.Some? ==> Layered(n, arcs, layers.value)
  {
    hide Pending, Cyclic, Layered, Counts, Queued, Climbs, Out, Ready;
    var outs := new seq<nat>[n](_ => []);
    var pending := new int[n](_ => 0);
    Adjacency(n, arcs, outs, pending);
    var layer := new nat[n](_ => 0);
    var queue := Roots(n, pending);
    var done := 0;
    ghost var taken: set<nat> := {};
    NoneTaken(arcs, layer[..]);
    while queue != []
      invariant done == |taken| <= n
      invariant forall v :: v in taken ==> v < n
      invariant forall v :: v in taken ==> Pending(arcs, taken, v) == 0
      invariant Counts(arcs, taken, [], pending[..]) && Queued(queue, taken, pending[..])
      invariant Climbs(arcs, taken, layer[..])
      invariant forall a: nat :: a < n ==> outs[a] == Out(arcs, a)
      decreases n - done
    {
      var a := queue[0];
      Popped(queue, taken, pending[..]);
      TakenReady(arcs, taken, a, pending[..]);
      queue := Take(arcs, taken, a, outs[a], pending, layer, queue[1..]);
      done := done + 1;
      taken := taken + {a};
      Counted(n, taken);
    }
    RunDry(n, arcs, taken, pending[..], layer[..]);
    if done < n {
      return None;
    }
    return Some(layer[..]);
  }
}
