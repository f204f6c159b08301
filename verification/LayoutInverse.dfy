/** What one move undoes of another: which slots stand where, column by column. */
module LayoutInverse {
  import opened Base
  import opened LayoutModel
  import opened LayoutColumns
  import opened LayoutInvariant

  type Stacks = seq<seq<SlotId>>

  /** The slots of each column, top to bottom. */
  function StacksOf(cols: seq<Column>): (stacks: Stacks)
    ensures |stacks| == |cols| && forall c :: 0 <= c < |cols| ==> stacks[c] == cols[c].slots
  {
    seq(|cols|, c requires 0 <= c < |cols| => cols[c].slots)
  }

  lemma SettleStacks(s: Space)
    requires NoneEmpty(s.columns)
    ensures StacksOf(Settle(s).columns) == StacksOf(s.columns)
  {
    NormalizeSameLists(ValidateJoins(s));
  }

  lemma StacksUpdate(cols: seq<Column>, c: nat, col: Column)
    requires c < |cols|
    ensures StacksOf(cols[c := col]) == StacksOf(cols)[c := col.slots]
  {
  }

  lemma StacksInsert(cols: seq<Column>, at: nat, col: Column)
    requires at <= |cols|
    ensures StacksOf(InsertAt(cols, at, col)) == InsertAt(StacksOf(cols), at, col.slots)
  {
  }

  lemma StacksRemove(cols: seq<Column>, c: nat)
    requires c < |cols|
    ensures StacksOf(RemoveAt(cols, c)) == RemoveAt(StacksOf(cols), c)
  {
  }

  // ---- the moves, on stacks -------------------------------------------------------------

  /** The lone slot of column `c` at the bottom of its neighbour `t`. */
  function Consumed(l: Stacks, c: nat, t: nat): Stacks
    requires c < |l| && t < |l| && (t == c + 1 || c == t + 1) && |l[c]| == 1
  {
    if t < c then RemoveAt(l, c)[t := l[t] + l[c]] else RemoveAt(l, c)[c := l[t] + l[c]]
  }

  /** Row `r` of column `c` in a column of its own at `at`. */
  function Expelled(l: Stacks, c: nat, r: nat, at: nat): Stacks
    requires c < |l| && r < |l[c]| && at <= |l|
  {
    InsertAt(l[c := RemoveAt(l[c], r)], at, [l[c][r]])
  }

  lemma ConsumeOnStacks(s: Space, sid: SlotId, dir: Dir, c: nat, t: nat)
    requires Inv(s) && Locate(s.columns, sid) == Some((c, 0)) && |s.columns[c].slots| == 1
    requires (dir == Left || dir == Right) && Beside(|s.columns|, c, dir) == Some(t)
    ensures var u, at, l := ConsumeOrExpel(s, sid, dir), if t > c then c else t, StacksOf(s.columns);
      && Inv(u) && StacksOf(u.columns) == Consumed(l, c, t)
      && Locate(u.columns, sid) == Some((at, |l[t]|))
  {
    hide Inv, Settle, OnlyMoves, NoneEmpty, RemoveAt, StacksOf, Locate;
    ConsumeOrExpelMoves(s, sid, dir);
    InvNoneEmpty(s);
    var cols := RemoveAt(s.columns, c);
    var at := if t > c then t - 1 else t;
    RemovedAt(s.columns, c, t);
    var fuller := cols[at].slots + [sid];
    var next := cols[at := cols[at].(slots := fuller, active := |fuller| - 1)];
    NoneEmptyRemove(s.columns, c);
    NoneEmptyUpdate(cols, at, next[at]);
    SettleStacks(s.(columns := next));
    var l, u := StacksOf(s.columns), ConsumeOrExpel(s, sid, dir);
    StacksRemove(s.columns, c);
    StacksUpdate(cols, at, next[at]);
    assert l[c] == [sid];
    assert StacksOf(next) == Consumed(l, c, t);
    ConsumedAt(l, c, t);
    Stands(u, sid, at, |l[t]|);
  }

  lemma ExpelOnStacks(s: Space, sid: SlotId, dir: Dir, c: nat, r: nat)
    requires Inv(s) && Locate(s.columns, sid) == Some((c, r)) && |s.columns[c].slots| > 1
    requires dir == Left || dir == Right
    ensures var u, at, l := ConsumeOrExpel(s, sid, dir), if dir == Left then c else c + 1, StacksOf(s.columns);
      && Inv(u) && StacksOf(u.columns) == Expelled(l, c, r, at) && Locate(u.columns, sid) == Some((at, 0))
  {
    hide Inv, Settle, OnlyMoves, NoneEmpty, InsertAt, StacksOf, Locate;
    ConsumeOrExpelMoves(s, sid, dir);
    InvNoneEmpty(s);
    var rest := RemoveAt(s.columns[c].slots, r);
    var cols := s.columns[c := s.columns[c].(slots := rest)];
    var at := if dir == Left then c else c + 1;
    NoneEmptyUpdate(s.columns, c, s.columns[c].(slots := rest));
    NoneEmptyInsert(cols, at, Alone(sid));
    SettleStacks(s.(columns := InsertAt(cols, at, Alone(sid))));
    var l, u := StacksOf(s.columns), ConsumeOrExpel(s, sid, dir);
    StacksUpdate(s.columns, c, cols[c]);
    StacksInsert(cols, at, Alone(sid));
    assert StacksOf(InsertAt(cols, at, Alone(sid))) == Expelled(l, c, r, at);
    InsertedAt(l[c := RemoveAt(l[c], r)], at, [sid]);
    Stands(u, sid, at, 0);
  }

  function Opposite(dir: Dir): Dir {
    match dir
    case Left => Right
    case Right => Left
    case Up => Down
    case Down => Up
  }

  lemma ExpelAfterConsume(l: Stacks, c: nat, t: nat)
    requires c < |l| && t < |l| && (t == c + 1 || c == t + 1) && |l[c]| == 1
    ensures var at := if t > c then c else t;
      Expelled(Consumed(l, c, t), at, |l[t]|, if t > c then c else c) == l
  {
    var at := if t > c then c else t;
    var m := Consumed(l, c, t);
    assert m[at] == l[t] + l[c] && RemoveAt(m[at], |l[t]|) == l[t] && m[at][|l[t]|] == l[c][0];
    assert l[c] == [l[c][0]];
    var back := Expelled(m, at, |l[t]|, c);
    forall k | 0 <= k < |l| ensures back[k] == l[k] {
    }
  }

  /** A lone slot consumed to one side and expelled to the other is back where
      it was, and so is everybody else. */
  lemma ConsumeThenExpel(s: Space, sid: SlotId, dir: Dir)
    requires Inv(s) && (dir == Left || dir == Right) && Locate(s.columns, sid).Some?
    requires var c := Locate(s.columns, sid).value.0; |s.columns[c].slots| == 1 && Beside(|s.columns|, c, dir).Some?
    ensures var u := ConsumeOrExpel(ConsumeOrExpel(s, sid, dir), sid, Opposite(dir)); StacksOf(u.columns) == StacksOf(s.columns)
  {
    hide Inv, Consumed, Expelled, ConsumeOrExpel, NoneEmpty;
    var c := Locate(s.columns, sid).value.0;
    var t := Beside(|s.columns|, c, dir).value;
    var l, at := StacksOf(s.columns), if t > c then c else t;
    NeighbourHolds(s, t);
    ConsumeOnStacks(s, sid, dir, c, t);
    var u := ConsumeOrExpel(s, sid, dir);
    ConsumedAt(l, c, t);
    ExpelOnStacks(u, sid, Opposite(dir), at, |l[t]|);
    ExpelAfterConsume(l, c, t);
  }

  lemma NeighbourHolds(s: Space, t: nat)
    requires Inv(s) && t < |s.columns|
    ensures s.columns[t].slots != []
  {
  }

  lemma ConsumedAt(l: Stacks, c: nat, t: nat)
    requires c < |l| && t < |l| && (t == c + 1 || c == t + 1) && |l[c]| == 1
    ensures var at := if t > c then c else t;
      at < |Consumed(l, c, t)| && Consumed(l, c, t)[at] == l[t] + l[c]
  {
  }

  lemma ConsumeAfterExpel(l: Stacks, c: nat, r: nat, left: bool)
    requires c < |l| && r < |l[c]| && |l[c]| > 1
    ensures var e := Expelled(l, c, r, if left then c else c + 1);
      && |e| == |l| + 1
      && (if left then Consumed(e, c, c + 1) else Consumed(e, c + 1, c)) == l[c := RemoveAt(l[c], r) + [l[c][r]]]
  {
    var at, to := if left then c else c + 1, if left then c + 1 else c;
    var e := Expelled(l, c, r, at);
    assert e[at] == [l[c][r]] && e[to] == RemoveAt(l[c], r);
    var back := Consumed(e, at, to);
    forall k | 0 <= k < |l| ensures back[k] == l[c := RemoveAt(l[c], r) + [l[c][r]]][k] {
    }
  }

  /** A stacked slot expelled to one side and consumed from the other comes back
      to the bottom of its column: where it was exactly when it was the bottom. */
  lemma ExpelThenConsume(s: Space, sid: SlotId, dir: Dir)
    requires Inv(s) && (dir == Left || dir == Right) && Locate(s.columns, sid).Some?
    requires |s.columns[Locate(s.columns, sid).value.0].slots| > 1
    ensures var u := ConsumeOrExpel(ConsumeOrExpel(s, sid, dir), sid, Opposite(dir));
      var (c, r) := Locate(s.columns, sid).value;
      && StacksOf(u.columns) == StacksOf(s.columns)[c := RemoveAt(s.columns[c].slots, r) + [sid]]
      && (StacksOf(u.columns) == StacksOf(s.columns) <==> r == |s.columns[c].slots| - 1)
  {
    hide Inv, Consumed, Expelled, ConsumeOrExpel, NoneEmpty, RemoveAt;
    var (c, r) := Locate(s.columns, sid).value;
    var l, at := StacksOf(s.columns), if dir == Left then c else c + 1;
    ExpelOnStacks(s, sid, dir, c, r);
    var u := ConsumeOrExpel(s, sid, dir);
    ConsumeAfterExpel(l, c, r, dir == Left);
    ExpelledAt(l, c, r, at);
    ConsumeOnStacks(u, sid, Opposite(dir), at, if dir == Left then c + 1 else c);
    BottomIffSame(s, c, r);
    assert l[c := l[c]] == l;
  }

  lemma ExpelledAt(l: Stacks, c: nat, r: nat, at: nat)
    requires c < |l| && r < |l[c]| && at <= |l|
    ensures at < |Expelled(l, c, r, at)| && Expelled(l, c, r, at)[at] == [l[c][r]]
  {
  }

  /** Moving a row to the bottom changes nothing only at the bottom: no slot
      stands twice. */
  lemma BottomIffSame(s: Space, c: nat, r: nat)
    requires Inv(s) && c < |s.columns| && r < |s.columns[c].slots|
    ensures var slots := s.columns[c].slots; RemoveAt(slots, r) + [slots[r]] == slots <==> r == |slots| - 1
  {
    hide Bag, JoinsLive, OneParent;
    var slots := s.columns[c].slots;
    var n := |slots| - 1;
    if r < n && RemoveAt(slots, r) + [slots[r]] == slots {
      assert slots[n] == slots[r];
      Stands(s, slots[r], c, r);
      Stands(s, slots[r], c, n);
      assert false;
    }
  }

  // ---- the column's own pair --------------------------------------------------------------

  lemma ExpelBottomOnStacks(s: Space, sid: SlotId, c: nat)
    requires Inv(s) && ColOf(s.columns, sid) == Some(c) && |s.columns[c].slots| > 1
    ensures var l, n := StacksOf(s.columns), |s.columns[c].slots| - 1;
      Inv(ExpelBottom(s, sid)) && StacksOf(ExpelBottom(s, sid).columns) == Expelled(l, c, n, c + 1)
  {
    hide Inv, Settle, OnlyMoves, NoneEmpty, InsertAt, StacksOf, Locate;
    ExpelBottomMoves(s, sid);
    InvNoneEmpty(s);
    var slots := s.columns[c].slots;
    var n := |slots| - 1;
    assert RemoveAt(slots, n) == slots[..n];
    var cols := s.columns[c := s.columns[c].(slots := slots[..n])];
    NoneEmptyUpdate(s.columns, c, s.columns[c].(slots := slots[..n]));
    NoneEmptyInsert(cols, c + 1, Alone(slots[n]));
    SettleStacks(s.(columns := InsertAt(cols, c + 1, Alone(slots[n]))));
    StacksUpdate(s.columns, c, cols[c]);
    StacksInsert(cols, c + 1, Alone(slots[n]));
    assert StacksOf(InsertAt(cols, c + 1, Alone(slots[n]))) == Expelled(StacksOf(s.columns), c, n, c + 1);
  }

  /** The first slot of column `c + 1` at the bottom of column `c`. */
  function TakenIn(l: Stacks, c: nat): Stacks
    requires c + 1 < |l| && l[c + 1] != []
  {
    var m := if |l[c + 1]| == 1 then RemoveAt(l, c + 1) else l[c + 1 := l[c + 1][1..]];
    m[c := l[c] + [l[c + 1][0]]]
  }

  lemma ConsumeRightOnStacks(s: Space, sid: SlotId, c: nat)
    requires Inv(s) && ColOf(s.columns, sid) == Some(c) && c + 1 < |s.columns|
    ensures s.columns[c + 1].slots != []
    ensures Inv(ConsumeFromRight(s, sid)) && StacksOf(ConsumeFromRight(s, sid).columns) == TakenIn(StacksOf(s.columns), c)
  {
    hide Inv, Settle, OnlyMoves, NoneEmpty, RemoveAt, StacksOf, Locate;
    ConsumeFromRightMoves(s, sid);
    InvNoneEmpty(s);
    var right := s.columns[c + 1];
    NeighbourHolds(s, c + 1);
    RemovedAt(s.columns, c + 1, c);
    var cols := if |right.slots| == 1 then RemoveAt(s.columns, c + 1)
                else s.columns[c + 1 := right.(slots := right.slots[1..])];
    if |right.slots| == 1 {
      NoneEmptyRemove(s.columns, c + 1);
      StacksRemove(s.columns, c + 1);
    } else {
      NoneEmptyUpdate(s.columns, c + 1, right.(slots := right.slots[1..]));
      StacksUpdate(s.columns, c + 1, right.(slots := right.slots[1..]));
    }
    var next := cols[c := cols[c].(slots := cols[c].slots + [right.slots[0]])];
    NoneEmptyUpdate(cols, c, next[c]);
    StacksUpdate(cols, c, next[c]);
    SettleStacks(s.(columns := next));
    assert StacksOf(next) == TakenIn(StacksOf(s.columns), c);
  }

  lemma TakeInAfterExpel(l: Stacks, c: nat)
    requires c < |l| && |l[c]| > 1
    ensures var e := Expelled(l, c, |l[c]| - 1, c + 1);
      && c + 1 < |e| && e[c + 1] == [l[c][|l[c]| - 1]] && e[c] == l[c][..|l[c]| - 1] && TakenIn(e, c) == l
  {
    var n := |l[c]| - 1;
    var e := Expelled(l, c, n, c + 1);
    assert RemoveAt(l[c], n) == l[c][..n];
    var back := TakenIn(e, c);
    forall k | 0 <= k < |l| ensures back[k] == l[k] {
    }
  }

  /** Expelling the bottom slot and consuming from the right puts everybody
      back, when asked through a slot that stays. */
  lemma ExpelBottomThenConsumeRight(s: Space, sid: SlotId)
    requires Inv(s) && Locate(s.columns, sid).Some?
    requires var (c, r) := Locate(s.columns, sid).value; r < |s.columns[c].slots| - 1
    ensures StacksOf(ConsumeFromRight(ExpelBottom(s, sid), sid).columns) == StacksOf(s.columns)
  {
    hide Inv, Expelled, TakenIn, ExpelBottom, ConsumeFromRight, NoneEmpty;
    var (c, r) := Locate(s.columns, sid).value;
    ExpelBottomOnStacks(s, sid, c);
    TakeInAfterExpel(StacksOf(s.columns), c);
    Stands(ExpelBottom(s, sid), sid, c, r);
    ConsumeRightOnStacks(ExpelBottom(s, sid), sid, c);
  }

  lemma ExpelAfterTakeIn(l: Stacks, c: nat)
    requires c + 1 < |l| && l[c + 1] != [] && l[c] != []
    ensures var m := TakenIn(l, c);
      && c < |m| && m[c] == l[c] + [l[c + 1][0]]
      && (Expelled(m, c, |l[c]|, c + 1) == l <==> |l[c + 1]| == 1)
  {
    var m := TakenIn(l, c);
    assert RemoveAt(m[c], |l[c]|) == l[c];
    var back := Expelled(m, c, |l[c]|, c + 1);
    if |l[c + 1]| == 1 {
      assert l[c + 1] == [l[c + 1][0]];
      forall k | 0 <= k < |l| ensures back[k] == l[k] {
      }
    } else {
      assert |back| == |l| + 1;
    }
  }

  /** Consuming from the right and expelling the bottom gives the slot back to
      the right: to its old place exactly when it was alone there. */
  lemma ConsumeRightThenExpelBottom(s: Space, sid: SlotId)
    requires Inv(s) && Locate(s.columns, sid).Some?
    requires Locate(s.columns, sid).value.0 + 1 < |s.columns|
    ensures var c := Locate(s.columns, sid).value.0;
      StacksOf(ExpelBottom(ConsumeFromRight(s, sid), sid).columns) == StacksOf(s.columns) <==> |s.columns[c + 1].slots| == 1
  {
    hide Inv, Expelled, TakenIn, ExpelBottom, ConsumeFromRight, NoneEmpty;
    var (c, r) := Locate(s.columns, sid).value;
    var l := StacksOf(s.columns);
    NeighbourHolds(s, c);
    ConsumeRightOnStacks(s, sid, c);
    ExpelAfterTakeIn(l, c);
    Stands(ConsumeFromRight(s, sid), sid, c, r);
    ExpelBottomOnStacks(ConsumeFromRight(s, sid), sid, c);
  }

  // ---- a step and a step back -----------------------------------------------------------------

  /** The slot at row `r` of column `c` at row `min(r, …)` of its neighbour. */
  function Merged(l: Stacks, c: nat, r: nat, t: nat): Stacks
    requires c < |l| && r < |l[c]| && t < |l| && t != c
  {
    l[c := RemoveAt(l[c], r)][t := InsertAt(l[t], Min(r, |l[t]|), l[c][r])]
  }

  lemma MergeOnStacks(s: Space, sid: SlotId, dir: Dir, c: nat, r: nat, t: nat)
    requires Inv(s) && Locate(s.columns, sid) == Some((c, r)) && |s.columns[c].slots| > 1
    requires (dir == Left || dir == Right) && Beside(|s.columns|, c, dir) == Some(t)
    ensures var u, l := MoveSlot(s, sid, dir), StacksOf(s.columns);
      Inv(u) && StacksOf(u.columns) == Merged(l, c, r, t) && Locate(u.columns, sid) == Some((t, Min(r, |l[t]|)))
  {
    hide Inv, OnlyMoves;
    MoveSlotMoves(s, sid, dir);
    assert StacksOf(MoveSlot(s, sid, dir).columns) == Merged(StacksOf(s.columns), c, r, t);
  }

  lemma SwapOnStacks(s: Space, sid: SlotId, dir: Dir, c: nat, t: nat)
    requires Inv(s) && Locate(s.columns, sid) == Some((c, 0)) && |s.columns[c].slots| == 1
    requires (dir == Left || dir == Right) && Beside(|s.columns|, c, dir) == Some(t)
    ensures var u, l := MoveSlot(s, sid, dir), StacksOf(s.columns);
      Inv(u) && StacksOf(u.columns) == Swap(l, c, t) && Locate(u.columns, sid) == Some((t, 0))
  {
    hide Inv, OnlyMoves;
    MoveSlotMoves(s, sid, dir);
    assert StacksOf(MoveSlot(s, sid, dir).columns) == Swap(StacksOf(s.columns), c, t);
  }

  lemma MergeBack(l: Stacks, c: nat, r: nat, t: nat)
    requires c < |l| && r < |l[c]| && t < |l| && t != c
    ensures var m, q := Merged(l, c, r, t), Min(r, |l[t]|);
      && |m| == |l| && |m[t]| == |l[t]| + 1 && q < |m[t]| && m[t][q] == l[c][r]
      && Merged(m, t, q, c) == l[c := InsertAt(RemoveAt(l[c], r), Min(q, |l[c]| - 1), l[c][r])]
  {
    var m, q := Merged(l, c, r, t), Min(r, |l[t]|);
    InsertedAt(l[t], q, l[c][r]);
    InsertThenRemove(l[t], q, l[c][r]);
    var back := Merged(m, t, q, c);
    forall k | 0 <= k < |l| ensures back[k] == l[c := InsertAt(RemoveAt(l[c], r), Min(q, |l[c]| - 1), l[c][r])][k] {
    }
  }

  lemma StepAndBackAlone(s: Space, sid: SlotId, dir: Dir, c: nat, t: nat)
    requires Inv(s) && Locate(s.columns, sid) == Some((c, 0)) && |s.columns[c].slots| == 1
    requires (dir == Left || dir == Right) && Beside(|s.columns|, c, dir) == Some(t)
    ensures StacksOf(MoveSlot(MoveSlot(s, sid, dir), sid, Opposite(dir)).columns) == StacksOf(s.columns)
  {
    hide Inv, Swap, MoveSlot, Locate;
    SwapOnStacks(s, sid, dir, c, t);
    SwapTwice(StacksOf(s.columns), c, t);
    SwapOnStacks(MoveSlot(s, sid, dir), sid, Opposite(dir), t, c);
  }

  lemma StepAndBackStacked(s: Space, sid: SlotId, dir: Dir, c: nat, r: nat, t: nat)
    requires Inv(s) && Locate(s.columns, sid) == Some((c, r)) && |s.columns[c].slots| > 1
    requires (dir == Left || dir == Right) && Beside(|s.columns|, c, dir) == Some(t)
    ensures StacksOf(MoveSlot(MoveSlot(s, sid, dir), sid, Opposite(dir)).columns) == StacksOf(s.columns)
      <==> r <= |s.columns[t].slots|
  {
    hide Inv, Merged, MoveSlot, InsertAt, RemoveAt, Locate;
    var l := StacksOf(s.columns);
    var q := Min(r, |l[t]|);
    NeighbourHolds(s, t);
    MergeOnStacks(s, sid, dir, c, r, t);
    MergeBack(l, c, r, t);
    MergeOnStacks(MoveSlot(s, sid, dir), sid, Opposite(dir), t, q, c);
    BackInRow(s, c, r, Min(q, |l[c]| - 1));
    assert l[c := l[c]] == l;
  }

  /** A slot moved into the column beside and back stands in its own row again
      exactly when it was alone, or that column has as many rows to put above it. */
  lemma StepAndBack(s: Space, sid: SlotId, dir: Dir)
    requires Inv(s) && (dir == Left || dir == Right) && Locate(s.columns, sid).Some?
    requires Beside(|s.columns|, Locate(s.columns, sid).value.0, dir).Some?
    ensures var u := MoveSlot(MoveSlot(s, sid, dir), sid, Opposite(dir));
      var (c, r) := Locate(s.columns, sid).value;
      StacksOf(u.columns) == StacksOf(s.columns)
      <==> |s.columns[c].slots| == 1 || r <= |s.columns[Beside(|s.columns|, c, dir).value].slots|
  {
    hide Inv, MoveSlot, StacksOf;
    var (c, r) := Locate(s.columns, sid).value;
    var t := Beside(|s.columns|, c, dir).value;
    if |s.columns[c].slots| == 1 {
      StepAndBackAlone(s, sid, dir, c, t);
    } else {
      NeighbourHolds(s, c);
      StepAndBackStacked(s, sid, dir, c, r, t);
    }
  }

  lemma SwapTwice(l: Stacks, c: nat, t: nat)
    requires c < |l| && t < |l| && c != t
    ensures |Swap(l, c, t)| == |l| && Swap(l, c, t)[t] == l[c] && Swap(Swap(l, c, t), t, c) == l
  {
  }

  lemma BackInRow(s: Space, c: nat, r: nat, q: nat)
    requires Inv(s) && c < |s.columns| && r < |s.columns[c].slots| && q < |s.columns[c].slots|
    ensures var slots := s.columns[c].slots; InsertAt(RemoveAt(slots, r), q, slots[r]) == slots <==> q == r
  {
    hide Bag, JoinsLive, OneParent;
    var slots := s.columns[c].slots;
    if q == r {
      RemoveThenInsert(slots, r);
    } else if InsertAt(RemoveAt(slots, r), q, slots[r]) == slots {
      InsertedAt(RemoveAt(slots, r), q, slots[r]);
      Stands(s, slots[r], c, r);
      Stands(s, slots[q], c, q);
      assert false;
    }
  }
}
