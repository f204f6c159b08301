/** The invariant every workspace operation keeps, and what moves leave alone. */
module LayoutInvariant {
  import opened Base
  import opened LayoutModel
  import opened LayoutColumns

  // ---- the invariant --------------------------------------------------------------------

  predicate JoinsLive(cols: seq<Column>, joins: map<SlotId, SlotId>) {
    forall p :: p in joins ==> Adjacent(cols, p, joins[p])
  }

  predicate OneParent(joins: map<SlotId, SlotId>) {
    forall p, q :: p in joins && q in joins && joins[p] == joins[q] ==> p == q
  }

  /** Each slot in exactly one place and in the slot map, no empty column,
      focus live, joins from a live parent to a live child in the next
      column, no child with two parents. */
  predicate Inv(s: Space) {
    && Bag(s.columns) == multiset(s.slots.Keys)
    && NoneEmpty(s.columns)
    && (s.focus.Some? ==> s.focus.value in s.slots)
    && JoinsLive(s.columns, s.joins)
    && OneParent(s.joins)
  }

  lemma EmptyInv(k: nat)
    ensures Inv(EMPTY.(nextId := k))
  {
  }

  /** The columns hold a slot exactly when the slot map does. */
  lemma Located(s: Space, sid: SlotId)
    requires Bag(s.columns) == multiset(s.slots.Keys)
    ensures Locate(s.columns, sid).Some? <==> sid in s.slots
    ensures Bag(s.columns)[sid] <= 1
  {
    BagHas(s.columns, sid);
    assert sid in Bag(s.columns) <==> sid in s.slots.Keys;
  }

  /** In a workspace that keeps the invariant, a slot stands where it is found. */
  lemma Stands(s: Space, sid: SlotId, c: nat, r: nat)
    requires Inv(s) && c < |s.columns| && r < |s.columns[c].slots| && s.columns[c].slots[r] == sid
    ensures sid in s.slots && Locate(s.columns, sid) == Some((c, r))
  {
    Located(s, sid);
    PlaceIsUnique(s.columns, sid, c, r);
  }

  lemma NoneEmptyUpdate(cols: seq<Column>, c: nat, col: Column)
    requires NoneEmpty(cols) && c < |cols| && col.slots != []
    ensures NoneEmpty(cols[c := col])
  {
  }

  lemma NoneEmptyInsert(cols: seq<Column>, at: nat, col: Column)
    requires NoneEmpty(cols) && at <= |cols| && col.slots != []
    ensures NoneEmpty(InsertAt(cols, at, col))
  {
  }

  lemma NoneEmptyRemove(cols: seq<Column>, c: nat)
    requires NoneEmpty(cols) && c < |cols|
    ensures NoneEmpty(RemoveAt(cols, c))
  {
  }

  lemma NoneEmptyRemoveSlot(cols: seq<Column>, sid: SlotId)
    requires NoneEmpty(cols)
    ensures NoneEmpty(RemoveFromLayout(cols, sid))
  {
  }

  // ---- moves ------------------------------------------------------------------------------

  /** `t` shows the same slots as `s`: only places, strips, tabs and joins
      differ, and a join is left exactly when its pair still stands side by side. */
  predicate Rearranged(s: Space, t: Space) {
    && t == s.(columns := t.columns, joins := LiveJoins(t.columns, s.joins))
    && Bag(t.columns) == Bag(s.columns)
    && NoneEmpty(t.columns)
  }

  lemma RearrangedInv(s: Space, t: Space)
    requires Inv(s) && Rearranged(s, t)
    ensures Inv(t)
  {
  }

  lemma LiveJoinsSame(a: seq<Column>, b: seq<Column>, joins: map<SlotId, SlotId>)
    requires SameLists(a, b)
    ensures LiveJoins(a, joins) == LiveJoins(b, joins)
  {
    hide ColOf;
    forall p | p in joins ensures Adjacent(a, p, joins[p]) == Adjacent(b, p, joins[p]) {
      SameListsColOf(a, b, p);
      SameListsColOf(a, b, joins[p]);
    }
  }

  /** Validating and normalizing after a change of columns. */
  lemma SettleRearranges(s: Space, cols: seq<Column>)
    requires Bag(cols) == Bag(s.columns) && NoneEmpty(cols)
    ensures Rearranged(s, Settle(s.(columns := cols)))
    ensures SameLists(Settle(s.(columns := cols)).columns, cols)
    ensures Rearranged(s, ValidateJoins(s.(columns := cols)))
  {
    var v := ValidateJoins(s.(columns := cols));
    NormalizeSameLists(v);
    SameListsAgree(Normalize(v).columns, cols);
    LiveJoinsSame(Normalize(v).columns, cols, s.joins);
  }

  lemma InvNoneEmpty(s: Space)
    requires Inv(s)
    ensures NoneEmpty(s.columns)
  {
  }

  lemma NormalizeInv(s: Space)
    requires Inv(s)
    ensures Inv(Normalize(s)) && SameLists(Normalize(s).columns, s.columns)
    ensures Normalize(s) == s.(columns := Normalize(s).columns)
    ensures forall c :: 0 <= c < |s.columns| ==> Normalize(s).columns[c].tabbed == s.columns[c].tabbed
  {
    hide Inv, Normalize;
    InvNoneEmpty(s);
    NormalizeSameLists(s);
    SameListsInv(s, Normalize(s).columns);
  }

  lemma SameListsInv(s: Space, cols: seq<Column>)
    requires Inv(s) && SameLists(cols, s.columns)
    ensures Inv(s.(columns := cols))
  {
    hide Bag, Locate;
    SameListsAgree(cols, s.columns);
    forall p | p in s.joins ensures Adjacent(cols, p, s.joins[p]) {
      assert Adjacent(s.columns, p, s.joins[p]);
      SameListsColOf(cols, s.columns, p);
      SameListsColOf(cols, s.columns, s.joins[p]);
    }
  }

  lemma SameListsColOf(a: seq<Column>, b: seq<Column>, x: SlotId)
    requires SameLists(a, b)
    ensures ColOf(a, x) == ColOf(b, x)
  {
    SameListsAgree(a, b);
  }

  lemma RaiseInv(s: Space, sid: SlotId)
    requires Inv(s)
    ensures Inv(Activate(s, sid))
  {
    hide Inv;
    SameListsInv(s, Raise(s.columns, sid));
  }

  lemma ToggleInv(s: Space, sid: SlotId)
    requires Inv(s)
    ensures Inv(ToggleTabbed(s, sid)) && SameLists(ToggleTabbed(s, sid).columns, s.columns)
  {
    hide Inv, Normalize;
    if ColOf(s.columns, sid).Some? {
      var c := ColOf(s.columns, sid).value;
      var cols := s.columns[c := s.columns[c].(tabbed := !s.columns[c].tabbed)];
      SameListsInv(s, cols);
      NormalizeInv(s.(columns := cols));
    }
  }

  /** Everybody but `sid` keeps their order and their company. */
  predicate OnlyMoves(s: Space, t: Space, sid: SlotId) {
    Rearranged(s, t) && Others(t.columns, {sid}) == Others(s.columns, {sid})
  }

  lemma OnlyMovesNothing(s: Space, sid: SlotId)
    requires Inv(s)
    ensures OnlyMoves(s, s, sid)
  {
  }

  lemma AloneKept(sid: SlotId)
    ensures Kept(Alone(sid).slots, {sid}) == []
  {
    KeptOne(sid, {sid});
  }

  /** Taking a slot of a stack out of its column. */
  lemma Unstacked(s: Space, sid: SlotId, c: nat, r: nat)
    requires Inv(s) && Locate(s.columns, sid) == Some((c, r)) && |s.columns[c].slots| > 1
    ensures var cols := s.columns[c := s.columns[c].(slots := RemoveAt(s.columns[c].slots, r))];
      && cols == RemoveFromLayout(s.columns, sid)
      && Bag(s.columns) == Bag(cols) + multiset{sid}
      && NoneEmpty(cols)
      && Others(cols, {sid}) == Others(s.columns, {sid})
  {
    hide Bag, Others, Kept, JoinsLive, OneParent;
    BagRemoveSlot(s.columns, sid);
    OthersRemoveSlot(s.columns, sid, {sid});
  }

  /** Taking a lone slot's column out. */
  lemma Lifted(s: Space, sid: SlotId, c: nat, r: nat)
    requires Inv(s) && Locate(s.columns, sid) == Some((c, r)) && |s.columns[c].slots| == 1
    ensures s.columns[c].slots == [sid]
    ensures var cols := RemoveAt(s.columns, c);
      && cols == RemoveFromLayout(s.columns, sid)
      && Bag(s.columns) == Bag(cols) + multiset{sid}
      && NoneEmpty(cols)
      && Others(cols, {sid}) == Others(s.columns, {sid})
  {
    hide Bag, Others, Kept, JoinsLive, OneParent;
    BagRemoveSlot(s.columns, sid);
    OthersRemoveSlot(s.columns, sid, {sid});
  }

  /** Putting a slot back as a column of its own. */
  lemma Dropped(cols: seq<Column>, at: nat, sid: SlotId)
    requires at <= |cols| && NoneEmpty(cols)
    ensures var out := InsertAt(cols, at, Alone(sid));
      && Bag(out) == Bag(cols) + multiset{sid}
      && NoneEmpty(out)
      && Others(out, {sid}) == Others(cols, {sid})
      && |out| == |cols| + 1 && out[at] == Alone(sid)
  {
    hide Bag, Others, Kept, InsertAt;
    AloneKept(sid);
    InsertedAt(cols, at, Alone(sid));
    NoneEmptyInsert(cols, at, Alone(sid));
    BagInsert(cols, at, Alone(sid));
    OthersInsert(cols, at, Alone(sid), {sid});
  }

  /** Putting a slot back into a column, at a row. */
  lemma Stacked(cols: seq<Column>, c: nat, row: nat, sid: SlotId, col: Column)
    requires c < |cols| && row <= |cols[c].slots| && NoneEmpty(cols)
    requires col.slots == InsertAt(cols[c].slots, row, sid)
    ensures Bag(cols[c := col]) == Bag(cols) + multiset{sid}
    ensures NoneEmpty(cols[c := col])
    ensures Others(cols[c := col], {sid}) == Others(cols, {sid})
  {
    hide Bag, Others, Kept;
    BagUpdate(cols, c, col);
    SlotsInsert(cols[c].slots, row, sid);
    Cancel(Bag(cols), multiset(cols[c].slots), sid, Bag(cols[c := col]));
    KeptInsert(cols[c].slots, row, sid, {sid});
    OthersUpdate(cols, c, col, {sid});
  }

  lemma PushIsInsert(slots: seq<SlotId>, sid: SlotId)
    ensures InsertAt(slots, |slots|, sid) == slots + [sid]
  {
  }

  /** What `Others` and a place say together, for a slot moved by validation alone. */
  lemma SettledMove(s: Space, cols: seq<Column>, sid: SlotId)
    requires Inv(s) && Bag(cols) == Bag(s.columns) && NoneEmpty(cols)
    requires Others(cols, {sid}) == Others(s.columns, {sid})
    ensures OnlyMoves(s, Settle(s.(columns := cols)), sid)
    ensures OnlyMoves(s, ValidateJoins(s.(columns := cols)), sid)
    ensures SameLists(Settle(s.(columns := cols)).columns, cols)
  {
    SettleRearranges(s, cols);
    SameListsAgree(Settle(s.(columns := cols)).columns, cols);
  }

  lemma ExpelMoves(s: Space, sid: SlotId, c: nat, r: nat, at: nat)
    requires Inv(s) && Locate(s.columns, sid) == Some((c, r)) && |s.columns[c].slots| > 1
    requires at == c || at == c + 1
    ensures var cols := s.columns[c := s.columns[c].(slots := RemoveAt(s.columns[c].slots, r))];
      && Dropping(s, Settle(s.(columns := InsertAt(cols, at, Alone(sid)))), sid, at)
      && Dropping(s, ValidateJoins(s.(columns := InsertAt(cols, at, Alone(sid)))), sid, at)
  {
    hide Bag, Others, Kept, LiveJoins, JoinsLive, OneParent, Rearranged, OnlyMoves, InsertAt, RemoveAt, Settle, ValidateJoins, Normalize, Inv;
    var cols := s.columns[c := s.columns[c].(slots := RemoveAt(s.columns[c].slots, r))];
    var out := InsertAt(cols, at, Alone(sid));
    Unstacked(s, sid, c, r);
    Dropped(cols, at, sid);
    SettledMove(s, out, sid);
    ValidateColumns(s.(columns := out));
    RearrangedInv(s, Settle(s.(columns := out)));
    RearrangedInv(s, ValidateJoins(s.(columns := out)));
  }

  /** `sid` moved into column `at` of its own. */
  predicate Dropping(s: Space, t: Space, sid: SlotId, at: nat) {
    OnlyMoves(s, t, sid) && Inv(t) && at < |t.columns| && t.columns[at].slots == [sid]
  }

  /** Column `c`, holding only `sid`, gone into column `n` beside it. */
  function Consumed(s: Space, sid: SlotId, c: nat, n: nat): Space
    requires c < |s.columns| && n < |s.columns| && (n == c + 1 || c == n + 1)
  {
    var cols := RemoveAt(s.columns, c);
    var at := if n > c then n - 1 else n;
    var fuller := cols[at].slots + [sid];
    Settle(s.(columns := cols[at := cols[at].(slots := fuller, active := |fuller| - 1)]))
  }

  lemma ConsumeMoves(s: Space, sid: SlotId, c: nat, r: nat, n: nat)
    requires n < |s.columns| && c < |s.columns| && (n == c + 1 || c == n + 1)
    requires Locate(s.columns, sid) == Some((c, r)) && |s.columns[c].slots| == 1 && Inv(s)
    ensures var t, at := Consumed(s, sid, c, n), if n > c then n - 1 else n;
      && OnlyMoves(s, t, sid) && Inv(t)
      && at < |t.columns| && t.columns[at].slots == s.columns[n].slots + [sid]
  {
    hide Bag, Others, Kept, LiveJoins, JoinsLive, OneParent, Rearranged, OnlyMoves, InsertAt, RemoveAt, Settle, ValidateJoins, Normalize, Inv;
    RemovedAt(s.columns, c, n);
    var cols := RemoveAt(s.columns, c);
    var at := if n > c then n - 1 else n;
    var fuller := cols[at].slots + [sid];
    var col := cols[at].(slots := fuller, active := |fuller| - 1);
    Lifted(s, sid, c, r);
    PushIsInsert(cols[at].slots, sid);
    Stacked(cols, at, |cols[at].slots|, sid, col);
    SettledMove(s, cols[at := col], sid);
    RearrangedInv(s, Settle(s.(columns := cols[at := col])));
  }

  /** Consuming or expelling moves one slot: to the bottom of the column
      beside a lone one, or into a column of its own beside a stacked one. */
  lemma ConsumeOrExpelMoves(s: Space, sid: SlotId, dir: Dir)
    requires Inv(s)
    ensures var t := ConsumeOrExpel(s, sid, dir); OnlyMoves(s, t, sid) && Inv(t)
    ensures Locate(s.columns, sid).Some? && (dir == Left || dir == Right) ==>
      var t, c := ConsumeOrExpel(s, sid, dir), Locate(s.columns, sid).value.0;
      if |s.columns[c].slots| > 1 then Dropping(s, t, sid, if dir == Left then c else c + 1)
      else match Beside(|s.columns|, c, dir)
        case None => t == s
        case Some(n) =>
          var at := if n > c then n - 1 else n;
          at < |t.columns| && t.columns[at].slots == s.columns[n].slots + [sid]
  {
    hide Inv, Locate, OnlyMoves, InsertAt, RemoveAt, Settle;
    OnlyMovesNothing(s, sid);
    InvNoneEmpty(s);
    if Locate(s.columns, sid).Some? && (dir == Left || dir == Right) {
      var (c, r) := Locate(s.columns, sid).value;
      if |s.columns[c].slots| > 1 {
        ExpelMoves(s, sid, c, r, if dir == Left then c else c + 1);
      } else {
        assert s.columns[c].slots != [];
        if Beside(|s.columns|, c, dir).Some? {
          ConsumeMoves(s, sid, c, r, Beside(|s.columns|, c, dir).value);
        }
      }
    }
  }

  /** The first slot of the column right of `c`, taken out of it. */
  lemma TakenFromRight(s: Space, c: nat)
    requires Inv(s) && c + 1 < |s.columns|
    ensures var right := s.columns[c + 1];
      right.slots != []
      && var moved := right.slots[0];
         var cols := if |right.slots| == 1 then RemoveAt(s.columns, c + 1)
                     else s.columns[c + 1 := right.(slots := right.slots[1..])];
         && Bag(s.columns) == Bag(cols) + multiset{moved} && NoneEmpty(cols)
         && Others(cols, {moved}) == Others(s.columns, {moved})
         && c < |cols| && cols[c] == s.columns[c]
  {
    hide Bag, Others, Kept, JoinsLive, OneParent;
    var right := s.columns[c + 1];
    assert right.slots != [];
    Stands(s, right.slots[0], c + 1, 0);
    if |right.slots| == 1 {
      Lifted(s, right.slots[0], c + 1, 0);
    } else {
      assert RemoveAt(right.slots, 0) == right.slots[1..];
      Unstacked(s, right.slots[0], c + 1, 0);
    }
  }

  /** Consuming from the right moves the next column's first slot to the bottom of this one. */
  lemma ConsumeFromRightMoves(s: Space, sid: SlotId)
    requires Inv(s)
    ensures Inv(ConsumeFromRight(s, sid))
    ensures match ColOf(s.columns, sid)
      case None => ConsumeFromRight(s, sid) == s
      case Some(c) =>
        if c + 1 >= |s.columns| then ConsumeFromRight(s, sid) == s
        else
          s.columns[c + 1].slots != []
          && var t, moved := ConsumeFromRight(s, sid), s.columns[c + 1].slots[0];
             OnlyMoves(s, t, moved) && c < |t.columns| && t.columns[c].slots == s.columns[c].slots + [moved]
  {
    hide Bag, Others, Kept, LiveJoins, JoinsLive, OneParent, Rearranged, OnlyMoves, Settle, Inv, NoneEmpty, RemoveAt;
    if ColOf(s.columns, sid).Some? && ColOf(s.columns, sid).value + 1 < |s.columns| {
      var c := ColOf(s.columns, sid).value;
      TakenFromRight(s, c);
      var right := s.columns[c + 1];
      var moved := right.slots[0];
      var cols := if |right.slots| == 1 then RemoveAt(s.columns, c + 1)
                  else s.columns[c + 1 := right.(slots := right.slots[1..])];
      var col := cols[c].(slots := cols[c].slots + [moved]);
      PushIsInsert(cols[c].slots, moved);
      Stacked(cols, c, |cols[c].slots|, moved, col);
      SettledMove(s, cols[c := col], moved);
      RearrangedInv(s, ConsumeFromRight(s, sid));
    }
  }

  /** Expelling the bottom slot gives it the next column to itself. */
  lemma ExpelBottomMoves(s: Space, sid: SlotId)
    requires Inv(s)
    ensures Inv(ExpelBottom(s, sid))
    ensures match ColOf(s.columns, sid)
      case None => ExpelBottom(s, sid) == s
      case Some(c) =>
        var n := |s.columns[c].slots|;
        if n < 2 then ExpelBottom(s, sid) == s
        else Dropping(s, ExpelBottom(s, sid), s.columns[c].slots[n - 1], c + 1)
  {
    hide Bag, Others, Kept, LiveJoins, JoinsLive, OneParent, Rearranged, OnlyMoves, Settle, InsertAt;
    if ColOf(s.columns, sid).Some? {
      var c := ColOf(s.columns, sid).value;
      var slots := s.columns[c].slots;
      if |slots| >= 2 {
        var moved := slots[|slots| - 1];
        Stands(s, moved, c, |slots| - 1);
        assert RemoveAt(slots, |slots| - 1) == slots[..|slots| - 1];
        ExpelMoves(s, moved, c, |slots| - 1, c + 1);
      }
    }
  }

  lemma KeptSwap(slots: seq<SlotId>, i: nat, j: nat)
    requires i < |slots| && j < |slots| && (j == i + 1 || i == j + 1)
    ensures Kept(Swap(slots, i, j), {slots[i]}) == Kept(slots, {slots[i]})
    ensures multiset(Swap(slots, i, j)) == multiset(slots)
  {
    hide Kept, InsertAt, RemoveAt, Swap;
    var rest := RemoveAt(slots, i);
    RemoveThenInsert(slots, i);
    SwapIsMove(slots, i, j);
    SlotsSwap(slots, i, j);
    LengthsAgree(slots, i);
    KeptInsert(rest, i, slots[i], {slots[i]});
    KeptInsert(rest, j, slots[i], {slots[i]});
  }

  lemma LengthsAgree<T>(s: seq<T>, i: nat)
    requires i < |s|
    ensures |RemoveAt(s, i)| == |s| - 1
  {
  }

  lemma VerticalMoves(s: Space, sid: SlotId, c: nat, r: nat, dir: Dir)
    requires Inv(s) && Locate(s.columns, sid) == Some((c, r)) && (dir == Up || dir == Down)
    ensures OnlyMoves(s, ValidateJoins(s.(columns := MoveVertically(s, c, r, dir))), sid)
  {
    hide Bag, Others, Kept, LiveJoins, Rearranged, OnlyMoves, Settle, Swap, ValidateJoins, Inv, NoneEmpty, Locate;
    InvNoneEmpty(s);
    var slots := s.columns[c].slots;
    var cols := MoveVertically(s, c, r, dir);
    if dir == Up && r > 0 {
      KeptSwap(slots, r, r - 1);
      EditKeeps(s, c, cols[c], sid);
    } else if dir == Down && r + 1 < |slots| {
      KeptSwap(slots, r, r + 1);
      EditKeeps(s, c, cols[c], sid);
    }
    SettledMove(s, cols, sid);
  }

  /** Reordering a column around one slot. */
  lemma EditKeeps(s: Space, c: nat, col: Column, sid: SlotId)
    requires Inv(s) && c < |s.columns| && multiset(col.slots) == multiset(s.columns[c].slots)
    requires Kept(col.slots, {sid}) == Kept(s.columns[c].slots, {sid})
    ensures Bag(s.columns[c := col]) == Bag(s.columns) && NoneEmpty(s.columns[c := col])
    ensures Others(s.columns[c := col], {sid}) == Others(s.columns, {sid})
  {
    hide Bag, Others, Kept;
    BagUpdate(s.columns, c, col);
    CancelSame(Bag(s.columns[c := col]), multiset(col.slots), Bag(s.columns));
    OthersUpdate(s.columns, c, col, {sid});
    assert s.columns[c].slots[0] in multiset(s.columns[c].slots);
    assert s.columns[c].slots[0] in multiset(col.slots);
  }

  lemma CancelSame(a: multiset<SlotId>, k: multiset<SlotId>, b: multiset<SlotId>)
    requires a + k == b + k
    ensures a == b
  {
    forall e ensures a[e] == b[e] {
      assert (a + k)[e] == (b + k)[e];
    }
  }

  /** Swapping whole columns, one of them a lone slot's. */
  lemma SwapColumns(cols: seq<Column>, c: nat, t: nat, sid: SlotId)
    requires NoneEmpty(cols) && c < |cols| && t < |cols| && (t == c + 1 || c == t + 1)
    requires cols[c].slots == [sid]
    ensures Bag(Swap(cols, c, t)) == Bag(cols) && NoneEmpty(Swap(cols, c, t))
    ensures Others(Swap(cols, c, t), {sid}) == Others(cols, {sid})
  {
    hide Bag, Others, Kept, InsertAt, RemoveAt, Swap;
    var rest := RemoveAt(cols, c);
    LengthsAgree(cols, c);
    RemoveThenInsert(cols, c);
    SwapIsMove(cols, c, t);
    AloneKept(sid);
    BagInsert(rest, c, cols[c]);
    BagInsert(rest, t, cols[c]);
    OthersInsert(rest, c, cols[c], {sid});
    OthersInsert(rest, t, cols[c], {sid});
    SwapNoneEmpty(cols, c, t);
  }

  lemma SwapNoneEmpty(cols: seq<Column>, c: nat, t: nat)
    requires NoneEmpty(cols) && c < |cols| && t < |cols|
    ensures NoneEmpty(Swap(cols, c, t))
  {
  }

  lemma SwapMoves(s: Space, sid: SlotId, c: nat, r: nat, b: nat)
    requires Inv(s) && Locate(s.columns, sid) == Some((c, r)) && |s.columns[c].slots| == 1
    requires b < |s.columns| && (b == c + 1 || c == b + 1)
    ensures var t := ValidateJoins(s.(columns := Swap(s.columns, c, b)));
      OnlyMoves(s, t, sid) && Inv(t) && Locate(t.columns, sid) == Some((b, 0))
  {
    hide Bag, Others, Kept, LiveJoins, JoinsLive, OneParent, Rearranged, OnlyMoves, InsertAt, RemoveAt, Settle, Normalize;
    Lifted(s, sid, c, r);
    SwapColumns(s.columns, c, b, sid);
    SettledMove(s, Swap(s.columns, c, b), sid);
    var t := ValidateJoins(s.(columns := Swap(s.columns, c, b)));
    RearrangedInv(s, t);
    Stands(t, sid, b, 0);
  }

  lemma MergeMoves(s: Space, sid: SlotId, c: nat, r: nat, b: nat)
    requires Inv(s) && Locate(s.columns, sid) == Some((c, r)) && |s.columns[c].slots| > 1
    requires b < |s.columns| && b != c
    ensures var row := Min(r, |s.columns[b].slots|);
      var cols := s.columns[c := s.columns[c].(slots := RemoveAt(s.columns[c].slots, r))];
      var t := ValidateJoins(s.(columns := cols[b := cols[b].(slots := InsertAt(cols[b].slots, row, sid))]));
      OnlyMoves(s, t, sid) && Inv(t) && Locate(t.columns, sid) == Some((b, row))
  {
    hide Bag, Others, Kept, LiveJoins, JoinsLive, OneParent, Rearranged, OnlyMoves, RemoveAt, Settle, Normalize, Inv;
    var row := Min(r, |s.columns[b].slots|);
    var cols := s.columns[c := s.columns[c].(slots := RemoveAt(s.columns[c].slots, r))];
    Unstacked(s, sid, c, r);
    var col := cols[b].(slots := InsertAt(cols[b].slots, row, sid));
    Stacked(cols, b, row, sid, col);
    SettledMove(s, cols[b := col], sid);
    var t := ValidateJoins(s.(columns := cols[b := col]));
    RearrangedInv(s, t);
    Stands(t, sid, b, row);
  }

  lemma VerticalLands(s: Space, sid: SlotId, c: nat, r: nat, dir: Dir)
    requires Inv(s) && Locate(s.columns, sid) == Some((c, r)) && (dir == Up || dir == Down)
    ensures var t := ValidateJoins(s.(columns := MoveVertically(s, c, r, dir)));
      OnlyMoves(s, t, sid) && Inv(t)
      && Locate(t.columns, sid) == Some((c, RowAfter(r, |s.columns[c].slots|, dir)))
  {
    hide Bag, Others, Kept, LiveJoins, JoinsLive, OneParent, Rearranged, InsertAt, RemoveAt, Settle, Normalize, Inv;
    VerticalMoves(s, sid, c, r, dir);
    var t := ValidateJoins(s.(columns := MoveVertically(s, c, r, dir)));
    RearrangedInv(s, t);
    Stands(t, sid, c, RowAfter(r, |s.columns[c].slots|, dir));
  }

  /** The row one step up or down, stopping at the ends. */
  function RowAfter(r: nat, n: nat, dir: Dir): nat {
    if dir == Up then (if r == 0 then 0 else r - 1) else if r + 1 >= n then r else r + 1
  }

  /** Alone in its column, the slot takes it past the next one. */
  lemma LoneSteps(s: Space, sid: SlotId, dir: Dir, c: nat)
    requires Inv(s) && Locate(s.columns, sid) == Some((c, 0)) && (dir == Left || dir == Right) && |s.columns[c].slots| == 1
    ensures var t := MoveSlot(s, sid, dir);
      && OnlyMoves(s, t, sid) && Inv(t)
      && match Beside(|s.columns|, c, dir) case None => t == s case Some(b) => Locate(t.columns, sid) == Some((b, 0))
  {
    hide Inv, OnlyMoves, ValidateJoins, Swap;
    OnlyMovesNothing(s, sid);
    if Beside(|s.columns|, c, dir).Some? {
      SwapMoves(s, sid, c, 0, Beside(|s.columns|, c, dir).value);
    }
  }

  /** In a stack, it leaves for the next column, or at the edge for one of its own. */
  lemma StackedSteps(s: Space, sid: SlotId, dir: Dir, c: nat, r: nat)
    requires Inv(s) && Locate(s.columns, sid) == Some((c, r)) && (dir == Left || dir == Right) && |s.columns[c].slots| > 1
    ensures var t := MoveSlot(s, sid, dir);
      && OnlyMoves(s, t, sid) && Inv(t)
      && match Beside(|s.columns|, c, dir)
         case None => Dropping(s, t, sid, if dir == Left then c else c + 1)
         case Some(b) => Locate(t.columns, sid) == Some((b, Min(r, |s.columns[b].slots|)))
  {
    hide Inv, OnlyMoves, ValidateJoins, InsertAt, RemoveAt, Locate;
    match Beside(|s.columns|, c, dir)
    case None => ExpelMoves(s, sid, c, r, if dir == Left then c else c + 1);
    case Some(b) =>
      assert b != c;
      MergeMoves(s, sid, c, r, b);
  }

  /** A step moves one slot: a row up or down, or sideways into the column
      beside (at its own row), past it when alone, or out at the edge. */
  lemma MoveSlotMoves(s: Space, sid: SlotId, dir: Dir)
    requires Inv(s)
    ensures var t := MoveSlot(s, sid, dir); OnlyMoves(s, t, sid) && Inv(t)
    ensures Locate(s.columns, sid).Some? ==>
      var t := MoveSlot(s, sid, dir);
      var (c, r) := Locate(s.columns, sid).value;
      var n := |s.columns[c].slots|;
      if dir == Up || dir == Down then Locate(t.columns, sid) == Some((c, RowAfter(r, n, dir)))
      else match Beside(|s.columns|, c, dir)
        case Some(b) =>
          Locate(t.columns, sid) == Some((b, if n == 1 then 0 else Min(r, |s.columns[b].slots|)))
        case None =>
          if n == 1 then t == s else Dropping(s, t, sid, if dir == Left then c else c + 1)
  {
    hide Inv, OnlyMoves, Dropping, ValidateJoins, Locate;
    OnlyMovesNothing(s, sid);
    if Locate(s.columns, sid).Some? {
      var (c, r) := Locate(s.columns, sid).value;
      if dir == Up || dir == Down {
        VerticalLands(s, sid, c, r, dir);
      } else if |s.columns[c].slots| == 1 {
        LoneSteps(s, sid, dir, c);
      } else {
        StackedSteps(s, sid, dir, c, r);
      }
    }
  }

  // ---- explicit placement ---------------------------------------------------------------

  lemma RefocusMoves(s: Space, t: Space, sid: SlotId)
    requires Inv(s) && sid in s.slots && OnlyMoves(s, t, sid)
    ensures var u := Refocus(t, sid);
      Inv(u) && u.focus == Some(sid) && OnlyMoves(s.(focus := Some(sid)), u, sid) && SameLists(u.columns, t.columns)
  {
    RearrangedInv(s, t);
    var f := t.(focus := Some(sid));
    NormalizeInv(f);
    SameListsAgree(Normalize(f).columns, f.columns);
    LiveJoinsSame(Normalize(f).columns, f.columns, s.joins);
  }

  lemma AnchorStays(s: Space, sid: SlotId, anchor: SlotId)
    requires Inv(s) && anchor != sid && anchor in s.slots
    ensures ColOf(RemoveFromLayout(s.columns, sid), anchor).Some?
  {
    Located(s, anchor);
    BagHas(s.columns, anchor);
    if Locate(s.columns, sid).Some? {
      BagRemoveSlot(s.columns, sid);
      BagHas(RemoveFromLayout(s.columns, sid), anchor);
    }
  }

  /** A placement the layout before the move can name. */
  predicate ValidTarget(s: Space, target: DropTarget) {
    match target
    case Into(col, _) => col < |s.columns|
    case Boundary(at) => at <= |s.columns|
  }

  /** Where a slot placed into a column ends up: with the slots that stood
      there, at the row counted without it. */
  predicate Landed(s: Space, t: Space, sid: SlotId, col: nat, row: nat)
    requires col < |s.columns|
  {
    match Anchor(s.columns[col].slots, sid)
    case None => SameLists(t.columns, s.columns)
    case Some(anchor) =>
      && Locate(t.columns, sid).Some? && ColOf(t.columns, anchor) == ColOf(t.columns, sid)
      && var (c, r) := Locate(t.columns, sid).value;
         r == Min(row, |t.columns[c].slots| - 1)
  }

  lemma AnchorInColumn(s: Space, sid: SlotId, col: nat)
    requires Inv(s) && col < |s.columns| && Anchor(s.columns[col].slots, sid).Some?
    ensures var anchor := Anchor(s.columns[col].slots, sid).value;
      anchor in s.slots && ColOf(RemoveFromLayout(s.columns, sid), anchor).Some?
  {
    hide RemoveFromLayout;
    var anchor := Anchor(s.columns[col].slots, sid).value;
    var k :| 0 <= k < |s.columns[col].slots| && s.columns[col].slots[k] == anchor;
    Stands(s, anchor, col, k);
    AnchorStays(s, sid, anchor);
  }

  /** Both ends of an insertion stand in the column it was made in. */
  lemma LandsBeside(t: Space, c: nat, at: nat, sid: SlotId, anchor: SlotId, before: seq<SlotId>)
    requires Inv(t) && c < |t.columns| && at <= |before| && t.columns[c].slots == InsertAt(before, at, sid)
    requires anchor in before
    ensures Locate(t.columns, sid) == Some((c, at)) && ColOf(t.columns, anchor) == Some(c)
  {
    hide Inv;
    assert t.columns[c].slots[at] == sid;
    Stands(t, sid, c, at);
    var j :| 0 <= j < |before| && before[j] == anchor;
    var k := if j < at then j else j + 1;
    assert t.columns[c].slots[k] == anchor;
    Stands(t, anchor, c, k);
  }

  lemma PlaceIntoMoves(s: Space, sid: SlotId, col: nat, row: nat)
    requires Inv(s) && sid in s.slots && col < |s.columns|
    ensures var t := Place(s, sid, Into(col, row));
      Inv(t) && OnlyMoves(s.(focus := Some(sid)), t, sid) && Landed(s, t, sid, col, row)
  {
    Located(s, sid);
    OnlyMovesNothing(s, sid);
    if Anchor(s.columns[col].slots, sid).None? {
      RefocusMoves(s, s, sid);
    } else {
      PlaceBesideMoves(s, sid, col, row);
    }
  }

  lemma PlaceBesideMoves(s: Space, sid: SlotId, col: nat, row: nat)
    requires Inv(s) && Locate(s.columns, sid).Some? && col < |s.columns| && Anchor(s.columns[col].slots, sid).Some?
    ensures var t := Place(s, sid, Into(col, row));
      Inv(t) && OnlyMoves(s.(focus := Some(sid)), t, sid) && Landed(s, t, sid, col, row)
  {
    hide Bag, Others, Kept, LiveJoins, JoinsLive, OneParent, Rearranged, OnlyMoves, ValidateJoins, Normalize, Refocus, RemoveFromLayout, Anchor;
    Located(s, sid);
    AnchorInColumn(s, sid, col);
    var anchor := Anchor(s.columns[col].slots, sid).value;
    var rest := RemoveFromLayout(s.columns, sid);
    BagRemoveSlot(s.columns, sid);
    OthersRemoveSlot(s.columns, sid, {sid});
    NoneEmptyRemoveSlot(s.columns, sid);
    var c := ColOf(rest, anchor).value;
    var at := Min(row, |rest[c].slots|);
    var into := rest[c].(slots := InsertAt(rest[c].slots, at, sid));
    Stacked(rest, c, at, sid, into);
    SettledMove(s, rest[c := into], sid);
    var v := ValidateJoins(s.(columns := rest[c := into]));
    ValidateColumns(s.(columns := rest[c := into]));
    RefocusMoves(s, v, sid);
    LandsBeside(Refocus(v, sid), c, at, sid, anchor, rest[c].slots);
  }

  lemma ValidateColumns(s: Space)
    ensures ValidateJoins(s).columns == s.columns
  {
  }

  /** Placed at a boundary, a slot gets a column of its own there; either
      edge of a column it has to itself leaves it in it. */
  lemma PlaceAtMoves(s: Space, sid: SlotId, at: nat)
    requires Inv(s) && Locate(s.columns, sid).Some? && at <= |s.columns|
    ensures var t, c := Place(s, sid, Boundary(at)), Locate(s.columns, sid).value.0;
      var lone := |s.columns[c].slots| == 1;
      && Inv(t) && OnlyMoves(s.(focus := Some(sid)), t, sid)
      && (if lone && (at == c || at == c + 1) then SameLists(t.columns, s.columns)
          else
            var ins := if lone && c < at then at - 1 else at;
            ins < |t.columns| && t.columns[ins].slots == [sid])
  {
    hide Bag, Others, Kept, LiveJoins, JoinsLive, OneParent, Rearranged, OnlyMoves, ValidateJoins, Normalize, Refocus, InsertAt, RemoveAt;
    OnlyMovesNothing(s, sid);
    Located(s, sid);
    var (c, r) := Locate(s.columns, sid).value;
    var lone := |s.columns[c].slots| == 1;
    if lone && (at == c || at == c + 1) {
      RefocusMoves(s, s, sid);
    } else {
      var ins := if lone && c < at then at - 1 else at;
      var rest := RemoveFromLayout(s.columns, sid);
      assert s.columns[c].slots != [];
      if lone { Lifted(s, sid, c, r); } else { Unstacked(s, sid, c, r); }
      Dropped(rest, ins, sid);
      SettledMove(s, InsertAt(rest, ins, Alone(sid)), sid);
      ValidateColumns(s.(columns := InsertAt(rest, ins, Alone(sid))));
      RefocusMoves(s, ValidateJoins(s.(columns := InsertAt(rest, ins, Alone(sid)))), sid);
    }
  }

  /** A slot or a place the layout does not have changes nothing. */
  lemma PlaceNowhere(s: Space, sid: SlotId, target: DropTarget)
    requires Inv(s) && (sid !in s.slots || !ValidTarget(s, target))
    ensures Place(s, sid, target) == s
  {
    Located(s, sid);
  }

  lemma PlaceInv(s: Space, sid: SlotId, target: DropTarget)
    requires Inv(s)
    ensures Inv(Place(s, sid, target))
  {
    if sid in s.slots && ValidTarget(s, target) {
      Located(s, sid);
      match target
      case Into(col, row) => PlaceIntoMoves(s, sid, col, row);
      case Boundary(at) => PlaceAtMoves(s, sid, at);
    } else {
      PlaceNowhere(s, sid, target);
    }
  }
}
