/** What opening, closing and replacing do to the slots, the columns and the joins. */
module LayoutClose {
  import opened Base
  import opened LayoutModel
  import opened LayoutColumns
  import opened LayoutInvariant

  // ---- closing, said outright -----------------------------------------------------------

  /** A column once the slots of `gone` have left it; thinned to one, it
      drops its tab strip. */
  function Thin(col: Column, gone: set<SlotId>): Column {
    var kept := Kept(col.slots, gone);
    col.(slots := kept, tabbed := col.tabbed && !(|kept| < |col.slots| && |kept| == 1))
  }

  /** The columns once the slots of `gone` have left, in order, without the
      ones that leaves empty. */
  function ThinAll(cols: seq<Column>, gone: set<SlotId>): seq<Column> {
    if cols == [] then []
    else (if Thin(cols[0], gone).slots == [] then [] else [Thin(cols[0], gone)]) + ThinAll(cols[1..], gone)
  }

  /** The joins both of whose ends stay. */
  function Without(joins: map<SlotId, SlotId>, gone: set<SlotId>): map<SlotId, SlotId> {
    map p | p in joins && p !in gone && joins[p] !in gone :: joins[p]
  }

  /** Everything joined below `sid`, transitively. */
  function Chain(joins: map<SlotId, SlotId>, sid: SlotId): (r: set<SlotId>)
    ensures sid !in joins ==> r == {}
    decreases |joins|
  {
    if sid !in joins then {}
    else
      FewerJoins(joins, sid);
      {joins[sid]} + Chain(joins - {sid}, joins[sid])
  }

  /** `t` is `s` without the slots of `gone`: nothing else closes, nobody
      changes order or company, no surviving pair comes apart, and focus is
      left alone unless it went, and then falls on a live slot if there is one. */
  predicate ClosedExactly(s: Space, t: Space, gone: set<SlotId>) {
    && t == s.(columns := t.columns, slots := t.slots, joins := t.joins, focus := t.focus)
    && t.slots == s.slots - gone
    && t.columns == ThinAll(s.columns, gone)
    && t.joins == Without(s.joins, gone)
    && FocusKept(s, t)
  }

  predicate FocusKept(s: Space, t: Space) {
    if s.focus.Some? && s.focus.value !in t.slots then
      if t.slots == map[] then t.focus == None else t.focus.Some? && t.focus.value in t.slots
    else t.focus == s.focus
  }

  // ---- thinning ----------------------------------------------------------------------------

  lemma {:induction false} ThinConcat(a: seq<Column>, b: seq<Column>, gone: set<SlotId>)
    ensures ThinAll(a + b, gone) == ThinAll(a, gone) + ThinAll(b, gone)
    decreases |a|
  {
    if a == [] {
      assert a + b == b;
    } else {
      assert (a + b)[1..] == a[1..] + b;
      ThinConcat(a[1..], b, gone);
    }
  }

  lemma ThinOne(col: Column, gone: set<SlotId>)
    ensures ThinAll([col], gone) == if Thin(col, gone).slots == [] then [] else [Thin(col, gone)]
  {
    assert [col][1..] == [];
  }

  lemma {:induction false} ThinNothing(cols: seq<Column>, gone: set<SlotId>)
    requires NoneEmpty(cols)
    requires forall c, x :: 0 <= c < |cols| && x in cols[c].slots ==> x !in gone
    ensures ThinAll(cols, gone) == cols
  {
    if cols != [] {
      KeptAll(cols[0].slots, gone);
      assert Thin(cols[0], gone) == cols[0];
      assert cols[0].slots != [];
      forall c | 0 <= c < |cols[1..]| ensures cols[1..][c] == cols[c + 1] {}
      assert NoneEmpty(cols[1..]);
      ThinNothing(cols[1..], gone);
      assert cols == [cols[0]] + cols[1..];
    }
  }

  lemma {:induction false} KeptTwice(s: seq<SlotId>, a: set<SlotId>, b: set<SlotId>)
    ensures Kept(Kept(s, a), b) == Kept(s, a + b)
  {
    if s != [] {
      KeptTwice(s[1..], a, b);
      var first := if s[0] in a then [] else [s[0]];
      KeptConcat(first, Kept(s[1..], a), b);
      if s[0] !in a {
        KeptOne(s[0], b);
      }
    }
  }

  /** Leaving in two goes is leaving in one. */
  lemma {:induction false} ThinTwice(cols: seq<Column>, a: set<SlotId>, b: set<SlotId>)
    ensures ThinAll(ThinAll(cols, a), b) == ThinAll(cols, a + b)
  {
    if cols != [] {
      ThinTwice(cols[1..], a, b);
      KeptTwice(cols[0].slots, a, b);
      var first := if Thin(cols[0], a).slots == [] then [] else [Thin(cols[0], a)];
      ThinConcat(first, ThinAll(cols[1..], a), b);
      if first == [] {
        assert Kept(cols[0].slots, a) == [];
        assert Kept(cols[0].slots, a + b) == [];
      } else {
        ThinOne(Thin(cols[0], a), b);
      }
    }
  }

  lemma WithoutTwice(joins: map<SlotId, SlotId>, a: set<SlotId>, b: set<SlotId>)
    ensures Without(Without(joins, a), b) == Without(joins, a + b)
  {
  }

  /** A slot's column without it, when it stands there once. */
  lemma {:induction false} KeptWithout(s: seq<SlotId>, r: nat, x: SlotId)
    requires r < |s| && s[r] == x && multiset(s)[x] <= 1
    ensures Kept(s, {x}) == RemoveAt(s, r)
  {
    KeptRemove(s, r, {x});
    SlotsRemove(s, r);
    var rest: seq<SlotId> := RemoveAt(s, r);
    assert multiset(rest)[x] == 0;
    forall y | y in rest ensures y !in {x} {
      assert y in multiset(rest);
    }
    KeptAll(rest, {x});
  }

  /** Detaching thins exactly the slot's column. */
  lemma DetachThins(s: Space, sid: SlotId, c: nat, r: nat)
    requires Inv(s) && Locate(s.columns, sid) == Some((c, r))
    ensures var removed := RemoveFromLayout(s.columns, sid);
      ThinAll(s.columns, {sid}) == if |removed| == |s.columns| then Untab(removed, c) else removed
  {
    hide Bag, ThinAll, Locate, JoinsLive, OneParent, Kept;
    var cols, col := s.columns, s.columns[c];
    Located(s, sid);
    BagSplit(cols, c);
    assert sid in multiset(col.slots);
    KeptWithout(col.slots, r, sid);
    ThinAround(cols, c, {sid});
    ElsewhereThin(cols[..c], sid, Bag(cols[..c]));
    ElsewhereThin(cols[c + 1..], sid, Bag(cols[c + 1..]));
    var kept := RemoveAt(col.slots, r);
    if kept != [] {
      var thin := col.(slots := kept);
      assert cols[c := thin] == cols[..c] + [thin] + cols[c + 1..];
      assert cols[c := thin][c := Thin(col, {sid})] == cols[..c] + [Thin(col, {sid})] + cols[c + 1..];
      assert cols[c := thin][c := thin] == cols[c := thin];
    }
  }

  lemma ThinAround(cols: seq<Column>, c: nat, gone: set<SlotId>)
    requires c < |cols|
    ensures ThinAll(cols, gone) ==
      ThinAll(cols[..c], gone)
      + (if Thin(cols[c], gone).slots == [] then [] else [Thin(cols[c], gone)])
      + ThinAll(cols[c + 1..], gone)
  {
    hide ThinAll;
    Around(cols, c);
    ThinConcat(cols[..c] + [cols[c]], cols[c + 1..], gone);
    ThinConcat(cols[..c], [cols[c]], gone);
    ThinOne(cols[c], gone);
  }

  lemma ElsewhereThin(cols: seq<Column>, sid: SlotId, bag: multiset<SlotId>)
    requires bag == Bag(cols) && bag[sid] == 0 && NoneEmpty(cols)
    ensures ThinAll(cols, {sid}) == cols
  {
    BagHas(cols, sid);
    ThinNothing(cols, {sid});
  }

  // ---- joins outlive a closing beside them ----------------------------------------------------

  /** Taking a slot out never separates a pair it is not part of. */
  lemma PairStays(s: Space, sid: SlotId, c: nat, r: nat, p: SlotId, q: SlotId)
    requires Inv(s) && Locate(s.columns, sid) == Some((c, r))
    requires p != sid && q != sid && Adjacent(s.columns, p, q)
    ensures Adjacent(RemoveFromLayout(s.columns, sid), p, q)
  {
    hide Bag, Locate;
    var cols := s.columns;
    var kept := RemoveAt(cols[c].slots, r);
    if kept == [] {
      assert cols[c].slots == [sid] by {
        assert |cols[c].slots| == 1;
      }
      ColOfRemove(cols, c, p);
      ColOfRemove(cols, c, q);
    } else {
      RemovedOthers(cols[c].slots, r, p);
      RemovedOthers(cols[c].slots, r, q);
      ColOfUpdate(cols, c, cols[c].(slots := kept), p);
      ColOfUpdate(cols, c, cols[c].(slots := kept), q);
    }
  }

  lemma RemovedOthers(s: seq<SlotId>, r: nat, x: SlotId)
    requires r < |s| && s[r] != x
    ensures x in RemoveAt(s, r) <==> x in s
  {
    if k :| 0 <= k < |s| && s[k] == x {
      assert RemoveAt(s, r)[if k < r then k else k - 1] == x;
    }
  }

  lemma UntabSame(cols: seq<Column>, c: nat)
    requires c < |cols|
    ensures SameLists(Untab(cols, c), cols)
  {
  }

  /** Focus falls on a slot the columns hold. */
  lemma FocusFalls(cols: seq<Column>, c: nat, r: nat, survived: bool)
    requires NoneEmpty(cols) && (survived ==> c < |cols|) && (!survived ==> c <= |cols|)
    ensures var f := FocusAfter(cols, c, r, survived);
      if cols == [] then f == None else f.Some? && f.value in Bag(cols)
  {
    if cols != [] {
      var at := if survived then c else if c == 0 then 0 else c - 1;
      assert cols[at].slots != [];
      BagHas(cols, FocusAfter(cols, c, r, survived).value);
    }
  }

  lemma DetachPair(s: Space, sid: SlotId, p: SlotId)
    requires Inv(s) && Locate(s.columns, sid).Some? && p in s.joins && p != sid && s.joins[p] != sid
    ensures Adjacent(Detach(s, sid).columns, p, s.joins[p])
  {
    hide Bag, RemoveFromLayout, Locate, Detach, Adjacent;
    var (c, r) := Locate(s.columns, sid).value;
    PairStays(s, sid, c, r, p, s.joins[p]);
    DetachBag(s, sid);
    AdjacentSame(Detach(s, sid).columns, RemoveFromLayout(s.columns, sid), p, s.joins[p]);
  }

  lemma AdjacentSame(a: seq<Column>, b: seq<Column>, p: SlotId, q: SlotId)
    requires SameLists(a, b)
    ensures Adjacent(a, p, q) == Adjacent(b, p, q)
  {
    hide ColOf;
    SameListsColOf(a, b, p);
    SameListsColOf(a, b, q);
  }

  lemma DetachJoins(s: Space, sid: SlotId)
    requires Inv(s) && Locate(s.columns, sid).Some?
    ensures Detach(s, sid).joins == Without(s.joins, {sid})
  {
    hide Bag, RemoveFromLayout, Locate, Adjacent, FocusAfter, Inv;
    forall p | p in s.joins && p != sid && s.joins[p] != sid
      ensures Adjacent(Detach(s, sid).columns, p, s.joins[p])
    {
      DetachPair(s, sid, p);
    }
  }

  lemma SlotsGone(slots: map<SlotId, PanelId>, sid: SlotId, bag: multiset<SlotId>)
    requires sid in slots && multiset(slots.Keys) == bag + multiset{sid}
    ensures multiset((slots - {sid}).Keys) == bag
  {
    forall x ensures multiset((slots - {sid}).Keys)[x] == bag[x] {
      assert multiset(slots.Keys)[x] == (bag + multiset{sid})[x];
    }
  }

  lemma DetachBag(s: Space, sid: SlotId)
    requires Inv(s) && Locate(s.columns, sid).Some?
    ensures var t := Detach(s, sid);
      Bag(t.columns) == multiset(t.slots.Keys) && NoneEmpty(t.columns) && SameLists(t.columns, RemoveFromLayout(s.columns, sid))
  {
    hide Bag, RemoveFromLayout, Locate;
    var (c, r) := Locate(s.columns, sid).value;
    var removed := RemoveFromLayout(s.columns, sid);
    Located(s, sid);
    BagRemoveSlot(s.columns, sid);
    NoneEmptyRemoveSlot(s.columns, sid);
    SlotsGone(s.slots, sid, Bag(removed));
    if |removed| == |s.columns| { UntabSame(removed, c); }
    SameListsAgree(Detach(s, sid).columns, removed);
  }

  lemma DetachFocus(s: Space, sid: SlotId)
    requires Inv(s) && Locate(s.columns, sid).Some?
    ensures FocusKept(s, Detach(s, sid))
  {
    hide Bag, RemoveFromLayout, Locate, FocusAfter, LiveJoins, Untab;
    var t := Detach(s, sid);
    var (c, r) := Locate(s.columns, sid).value;
    Located(s, sid);
    DetachBag(s, sid);
    RemovedLength(s.columns, sid, c, r);
    FocusFalls(t.columns, c, r, |RemoveFromLayout(s.columns, sid)| == |s.columns|);
    EmptyTogether(t);
  }

  lemma RemovedLength(cols: seq<Column>, sid: SlotId, c: nat, r: nat)
    requires Locate(cols, sid) == Some((c, r))
    ensures |RemoveFromLayout(cols, sid)| == |cols| || c <= |RemoveFromLayout(cols, sid)|
    ensures |Untab(cols, c)| == |cols|
  {
  }

  lemma EmptyTogether(s: Space)
    requires Bag(s.columns) == multiset(s.slots.Keys) && NoneEmpty(s.columns)
    ensures s.columns == [] <==> s.slots == map[]
  {
    if s.columns != [] {
      var x := s.columns[0].slots[0];
      BagHas(s.columns, x);
      Located(s, x);
    }
    if s.slots != map[] {
      var x :| x in s.slots;
      Located(s, x);
    }
  }

  lemma WithoutLive(s: Space, t: Space, gone: set<SlotId>)
    requires Inv(s) && t.joins == Without(s.joins, gone)
    ensures OneParent(t.joins)
  {
  }

  // ---- where focus falls --------------------------------------------------------------------

  /** The slot a column shows: of a tabbed one its tab, of a plain one its top. */
  function Shown(col: Column): Option<SlotId> {
    if col.slots == [] then None else Some(col.slots[if col.tabbed then Min(col.active, |col.slots| - 1) else 0])
  }

  /** Where focus falls from `sid`, as the columns stand before it goes: to the
      slot below it, else above; to the tab shown, where tabs are left to show;
      and with its column gone too, to the column on the left, else the right. */
  function FallFrom(cols: seq<Column>, sid: SlotId): Option<SlotId> {
    match Locate(cols, sid)
    case None => None
    case Some((c, r)) =>
      var col := cols[c];
      var rest := RemoveAt(col.slots, r);
      if |rest| > 1 && col.tabbed then Some(rest[Min(col.active, |rest| - 1)])
      else if rest != [] then Some(col.slots[if r + 1 < |col.slots| then r + 1 else r - 1])
      else if c > 0 then Shown(cols[c - 1])
      else if |cols| > 1 then Shown(cols[1])
      else None
  }

  lemma FocusLands(s: Space, sid: SlotId)
    requires NoneEmpty(s.columns) && s.focus == Some(sid) && Locate(s.columns, sid).Some?
    ensures Detach(s, sid).focus == FallFrom(s.columns, sid)
  {
    hide LiveJoins, Locate, FocusAfter, RemoveAt;
    var (c, r) := Locate(s.columns, sid).value;
    LengthsAgree(s.columns[c].slots, r);
    LengthsAgree(s.columns, c);
    if RemoveAt(s.columns[c].slots, r) != [] {
      FocusStays(s.columns, c, r);
    } else {
      FocusLeaves(s.columns, c, r);
    }
  }

  lemma FocusStays(cols: seq<Column>, c: nat, r: nat)
    requires c < |cols| && r < |cols[c].slots| && |cols[c].slots| > 1
    ensures var col, rest := cols[c], RemoveAt(cols[c].slots, r);
      FocusAfter(Untab(cols[c := col.(slots := rest)], c), c, r, true)
      == if |rest| > 1 && col.tabbed then Some(rest[Min(col.active, |rest| - 1)])
         else Some(col.slots[if r + 1 < |col.slots| then r + 1 else r - 1])
  {
    var col, rest := cols[c], RemoveAt(cols[c].slots, r);
    assert rest[Min(r, |rest| - 1)] == col.slots[if r + 1 < |col.slots| then r + 1 else r - 1];
    assert Untab(cols[c := col.(slots := rest)], c)[c] == col.(slots := rest, tabbed := col.tabbed && |rest| > 1);
  }

  lemma FocusLeaves(cols: seq<Column>, c: nat, r: nat)
    requires NoneEmpty(cols) && c < |cols| && r < |cols[c].slots| && RemoveAt(cols[c].slots, r) == []
    ensures FocusAfter(RemoveAt(cols, c), c, r, false)
         == if c > 0 then Shown(cols[c - 1]) else if |cols| > 1 then Shown(cols[1]) else None
  {
    assert r == 0;
    assert c > 0 ==> RemoveAt(cols, c)[c - 1] == cols[c - 1];
    assert c == 0 && |cols| > 1 ==> RemoveAt(cols, c)[0] == cols[1];
  }

  /** Focus while the slots of `order` go, one after the other. */
  function FocusOver(cols: seq<Column>, focus: Option<SlotId>, order: seq<SlotId>): Option<SlotId> {
    if order == [] then focus
    else
      var front, last := order[..|order| - 1], order[|order| - 1];
      var before := FocusOver(cols, focus, front);
      if before == Some(last) then FallFrom(ThinAll(cols, MembersOf(front)), last) else before
  }

  function MembersOf(order: seq<SlotId>): set<SlotId> {
    set x | x in order
  }

  /** What hangs below `sid`, in the order it closes: the deepest first. */
  function Below(joins: map<SlotId, SlotId>, sid: SlotId): seq<SlotId>
    decreases |joins|
  {
    if sid !in joins then []
    else
      FewerJoins(joins, sid);
      Below(joins - {sid}, joins[sid]) + [joins[sid]]
  }

  lemma {:induction false} BelowIsChain(joins: map<SlotId, SlotId>, sid: SlotId)
    ensures MembersOf(Below(joins, sid)) == Chain(joins, sid)
    decreases |joins|
  {
    if sid in joins {
      FewerJoins(joins, sid);
      BelowIsChain(joins - {sid}, joins[sid]);
    }
  }

  lemma FocusOverOne(cols: seq<Column>, focus: Option<SlotId>, order: seq<SlotId>, last: SlotId)
    ensures FocusOver(cols, focus, order + [last])
         == var before := FocusOver(cols, focus, order);
            if before == Some(last) then FallFrom(ThinAll(cols, MembersOf(order)), last) else before
  {
    assert (order + [last])[..|order|] == order;
  }

  lemma {:induction false} ChainFocus(s: Space, sid: SlotId)
    requires Inv(s)
    ensures CloseJoinedChain(s, sid).focus == FocusOver(s.columns, s.focus, Below(s.joins, sid))
    decreases |s.joins|
  {
    hide Inv, Detach, FocusOver, FallFrom, ThinAll;
    if sid !in s.joins {
      FocusOverNothing(s.columns, s.focus);
    } else {
      FewerJoins(s.joins, sid);
      var child := s.joins[sid];
      var cut := s.(joins := s.joins - {sid});
      DropJoinInv(s, sid);
      ChainFocus(cut, child);
      ChainSkipsSelf(s, sid);
      assert child in Chain(s.joins, sid);
      var t := CloseJoinedChain(cut, child);
      ChainExactly(cut, child);
      StillThere(cut, t, Chain(cut.joins, child), child);
      DetachExactly(t, child);
      BelowIsChain(cut.joins, child);
      FocusOverOne(s.columns, s.focus, Below(cut.joins, child), child);
    }
  }

  lemma FocusOverNothing(cols: seq<Column>, focus: Option<SlotId>)
    ensures FocusOver(cols, focus, []) == focus
  {
  }

  /** Detaching takes out one slot and nothing else. */
  lemma DetachExactly(s: Space, sid: SlotId)
    requires Inv(s) && sid in s.slots
    ensures ClosedExactly(s, Detach(s, sid), {sid}) && Inv(Detach(s, sid))
    ensures Detach(s, sid).focus == if s.focus == Some(sid) then FallFrom(s.columns, sid) else s.focus
  {
    hide Bag, RemoveFromLayout, Locate, ThinAll, LiveJoins, FocusAfter, FallFrom;
    Located(s, sid);
    if s.focus == Some(sid) {
      FocusLands(s, sid);
    }
    var (c, r) := Locate(s.columns, sid).value;
    var t := Detach(s, sid);
    DetachThins(s, sid, c, r);
    DetachJoins(s, sid);
    DetachBag(s, sid);
    DetachFocus(s, sid);
    LiveIsLive(s, sid);
    WithoutLive(s, t, {sid});
  }

  lemma LiveIsLive(s: Space, sid: SlotId)
    requires Locate(s.columns, sid).Some?
    ensures JoinsLive(Detach(s, sid).columns, Detach(s, sid).joins)
  {
    hide RemoveFromLayout, Locate, FocusAfter, ColOf;
  }

  // ---- chains ------------------------------------------------------------------------------------

  /** Dropping a join keeps everything else. */
  lemma DropJoinInv(s: Space, p: SlotId)
    requires Inv(s)
    ensures Inv(s.(joins := s.joins - {p}))
  {
  }

  /** A chain leads rightwards: it never comes back to where it started. */
  lemma {:induction false} ChainLeadsRight(cols: seq<Column>, joins: map<SlotId, SlotId>, sid: SlotId, x: SlotId)
    requires JoinsLive(cols, joins) && x in Chain(joins, sid)
    ensures ColOf(cols, sid).Some? && ColOf(cols, x).Some? && ColOf(cols, x).value > ColOf(cols, sid).value
    decreases |joins|
  {
    hide ColOf;
    FewerJoins(joins, sid);
    assert Adjacent(cols, sid, joins[sid]);
    if x != joins[sid] {
      assert JoinsLive(cols, joins - {sid});
      ChainLeadsRight(cols, joins - {sid}, joins[sid], x);
    }
  }

  lemma ChainSkipsSelf(s: Space, sid: SlotId)
    requires Inv(s)
    ensures sid !in Chain(s.joins, sid)
    ensures sid in s.joins ==> s.joins[sid] !in Chain(s.joins - {sid}, s.joins[sid])
    ensures forall x :: x in Chain(s.joins, sid) ==> x in s.slots
  {
    if sid in Chain(s.joins, sid) {
      ChainLeadsRight(s.columns, s.joins, sid, sid);
    }
    if sid in s.joins {
      var child := s.joins[sid];
      assert JoinsLive(s.columns, s.joins - {sid});
      if child in Chain(s.joins - {sid}, child) {
        ChainLeadsRight(s.columns, s.joins - {sid}, child, child);
      }
    }
    forall x | x in Chain(s.joins, sid) ensures x in s.slots {
      ChainLeadsRight(s.columns, s.joins, sid, x);
      Located(s, x);
    }
  }

  lemma FocusKeptThen(s: Space, t: Space, u: Space)
    requires FocusKept(s, t) && FocusKept(t, u)
    requires forall x :: x in u.slots ==> x in t.slots
    requires t.focus.Some? ==> t.focus.value in t.slots
    ensures FocusKept(s, u)
  {
    if s.focus.Some? && s.focus.value !in t.slots {
      assert s.focus.value !in u.slots;
      assert u.slots.Keys <= t.slots.Keys;
      assert t.slots == map[] ==> u.slots.Keys == {};
    }
  }

  /** Closing in two goes is closing in one. */
  lemma ClosedThen(s: Space, t: Space, u: Space, a: set<SlotId>, b: set<SlotId>)
    requires Inv(t) && ClosedExactly(s, t, a) && ClosedExactly(t, u, b)
    ensures ClosedExactly(s, u, a + b)
  {
    hide Inv, ThinAll, Without, FocusKept;
    ThinTwice(s.columns, a, b);
    WithoutTwice(s.joins, a, b);
    assert (s.slots - a) - b == s.slots - (a + b);
    InvFocus(t);
    FocusKeptThen(s, t, u);
  }

  lemma InvFocus(s: Space)
    requires Inv(s)
    ensures s.focus.Some? ==> s.focus.value in s.slots
  {
  }

  /** The join that leads to a closed child goes with it. */
  lemma LinkGoes(s: Space, t: Space, sid: SlotId, gone: set<SlotId>)
    requires sid in s.joins && s.joins[sid] in gone
    requires ClosedExactly(s.(joins := s.joins - {sid}), t, gone)
    ensures ClosedExactly(s, t, gone)
  {
    hide ThinAll;
    assert Without(s.joins - {sid}, gone) == Without(s.joins, gone);
  }

  /** Nothing closed is nothing changed. */
  lemma ClosedNothing(s: Space)
    requires Inv(s)
    ensures ClosedExactly(s, s, {})
  {
    hide Bag, ThinAll, Adjacent;
    ThinNothing(s.columns, {});
    assert s.slots - {} == s.slots;
    assert Without(s.joins, {}) == s.joins;
  }

  /** Closing a chain closes exactly what hangs below `sid`. */
  lemma {:induction false} ChainExactly(s: Space, sid: SlotId)
    requires Inv(s)
    ensures ClosedExactly(s, CloseJoinedChain(s, sid), Chain(s.joins, sid)) && Inv(CloseJoinedChain(s, sid))
    decreases |s.joins|
  {
    hide Inv, ClosedExactly, Detach;
    if sid !in s.joins {
      ClosedNothing(s);
    } else {
      FewerJoins(s.joins, sid);
      var child := s.joins[sid];
      var cut := s.(joins := s.joins - {sid});
      var below := Chain(cut.joins, child);
      DropJoinInv(s, sid);
      ChainSkipsSelf(s, sid);
      assert child in Chain(s.joins, sid);
      ChainExactly(cut, child);
      var t := CloseJoinedChain(cut, child);
      StillThere(cut, t, below, child);
      DetachExactly(t, child);
      var u := Detach(t, child);
      ClosedThen(cut, t, u, below, {child});
      LinkGoes(s, u, sid, below + {child});
      Gone(t, u, child);
      assert below + {child} == Chain(s.joins, sid);
    }
  }

  lemma StillThere(s: Space, t: Space, gone: set<SlotId>, x: SlotId)
    requires ClosedExactly(s, t, gone) && x in s.slots && x !in gone
    ensures x in t.slots
  {
  }

  lemma Gone(t: Space, u: Space, x: SlotId)
    requires ClosedExactly(t, u, {x})
    ensures u.(slots := u.slots - {x}) == u
  {
    hide ThinAll, Without;
    assert u.slots - {x} == u.slots;
  }

  /** Closing a slot closes exactly it and what hangs below it, in that order
      backwards, focus falling each time it is on the one that goes. */
  lemma CloseExactly(s: Space, sid: SlotId)
    requires Inv(s) && sid in s.slots
    ensures ClosedExactly(s, Close(s, sid), {sid} + Chain(s.joins, sid)) && Inv(Close(s, sid))
    ensures Close(s, sid).focus == FocusOver(s.columns, s.focus, Below(s.joins, sid) + [sid])
  {
    hide Inv, Detach, CloseJoinedChain, FallFrom, FocusOver, ThinAll, Without;
    ChainFocus(s, sid);
    BelowIsChain(s.joins, sid);
    FocusOverOne(s.columns, s.focus, Below(s.joins, sid), sid);
    var t := CloseJoinedChain(s, sid);
    ChainExactly(s, sid);
    ChainSkipsSelf(s, sid);
    StillThere(s, t, Chain(s.joins, sid), sid);
    DetachExactly(t, sid);
    ClosedThen(s, t, Detach(t, sid), Chain(s.joins, sid), {sid});
    assert Chain(s.joins, sid) + {sid} == {sid} + Chain(s.joins, sid);
  }

  /** A slot that is not there closes nothing. */
  lemma CloseNothing(s: Space, sid: SlotId)
    requires Inv(s) && sid !in s.slots
    ensures Close(s, sid) == s
  {
    Located(s, sid);
    assert sid in s.joins ==> Adjacent(s.columns, sid, s.joins[sid]);
  }

  lemma LiveStays(s: Space)
    requires Inv(s)
    ensures ValidateJoins(s) == s
  {
    assert LiveJoins(s.columns, s.joins) == s.joins;
  }

  /** Replacing closes exactly what hangs below the slot; it stays where it
      stands, still hanging from what it hung from, shows the new panel and
      has the focus. */
  lemma ReplaceExactly(s: Space, sid: SlotId, show: PanelId)
    requires Inv(s) && sid in s.slots
    ensures var t := Replace(s, sid, show);
      && Inv(t) && t.focus == Some(sid)
      && t.slots == (s.slots - Chain(s.joins, sid))[sid := show]
      && t.columns == ThinAll(s.columns, Chain(s.joins, sid))
      && t.joins == Without(s.joins, Chain(s.joins, sid))
      && t == s.(columns := t.columns, slots := t.slots, joins := t.joins, focus := t.focus)
  {
    hide CloseJoinedChain, ThinAll, Without, ValidateJoins, Inv, FocusKept;
    var closed := CloseJoinedChain(s, sid);
    ChainExactly(s, sid);
    ChainSkipsSelf(s, sid);
    assert sid in closed.slots;
    var shown := closed.(slots := closed.slots[sid := show]);
    ShowInv(closed, sid, show);
    LiveStays(shown);
    FocusInv(shown, sid);
  }

  lemma ShowInv(s: Space, sid: SlotId, show: PanelId)
    requires Inv(s) && sid in s.slots
    ensures Inv(s.(slots := s.slots[sid := show]))
  {
    assert s.slots[sid := show].Keys == s.slots.Keys;
  }

  lemma FocusInv(s: Space, sid: SlotId)
    requires Inv(s) && sid in s.slots
    ensures Inv(s.(focus := Some(sid)))
  {
  }

  lemma ReplaceNothing(s: Space, sid: SlotId, show: PanelId)
    requires sid !in s.slots
    ensures Replace(s, sid, show) == s
  {
  }

  /** A replaced slot keeps the join it hangs from. */
  lemma ReplaceKeepsParent(s: Space, sid: SlotId, show: PanelId, p: SlotId)
    requires Inv(s) && sid in s.slots && p in s.joins && s.joins[p] == sid
    ensures p in Replace(s, sid, show).joins && Replace(s, sid, show).joins[p] == sid
  {
    ReplaceExactly(s, sid, show);
    ChainSkipsSelf(s, sid);
    assert Adjacent(s.columns, p, sid);
    if p in Chain(s.joins, sid) {
      ChainLeadsRight(s.columns, s.joins, sid, p);
    }
  }

  // ---- unjoining --------------------------------------------------------------------------------

  /** Unjoining drops exactly the pair the slot is part of and moves nobody. */
  lemma UnjoinExactly(s: Space, sid: SlotId)
    requires Inv(s)
    ensures Inv(Unjoin(s, sid))
    ensures match BridgeOf(s.joins, sid)
      case Some((p, c)) =>
        && p in s.joins && s.joins[p] == c && (sid == p || sid == c)
        && Unjoin(s, sid) == s.(joins := s.joins - {p})
      case None =>
        && Unjoin(s, sid) == s
        && sid !in s.joins && forall p :: p in s.joins ==> s.joins[p] != sid
  {
    if BridgeOf(s.joins, sid).Some? {
      DropJoinInv(s, BridgeOf(s.joins, sid).value.0);
    }
  }
}
