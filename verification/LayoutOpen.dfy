/** Opening slots and following links. */
module LayoutOpen {
  import opened Base
  import opened LayoutModel
  import opened LayoutColumns
  import opened LayoutInvariant
  import opened LayoutClose

  /** The number the next slot gets is nobody's. */
  predicate Fresh(s: Space) {
    s.nextId + 1 !in s.slots
  }

  lemma FreshNowhere(s: Space)
    requires Inv(s) && Fresh(s)
    ensures Locate(s.columns, s.nextId + 1).None?
    ensures s.nextId + 1 !in s.joins && forall p :: p in s.joins ==> s.joins[p] != s.nextId + 1
  {
    var sid := s.nextId + 1;
    Located(s, sid);
    forall p | p in s.joins ensures p != sid && s.joins[p] != sid {
      assert Adjacent(s.columns, p, s.joins[p]);
    }
  }

  /** A slot added in column `c` at the bottom, or as a column of its own at `c`. */
  predicate Added(before: seq<Column>, after: seq<Column>, sid: SlotId, c: nat) {
    || (c < |before| && after == before[c := before[c].(slots := before[c].slots + [sid])])
    || (c <= |before| && after == InsertAt(before, c, Alone(sid)))
  }

  lemma AddedBag(before: seq<Column>, after: seq<Column>, sid: SlotId, c: nat)
    requires NoneEmpty(before) && Added(before, after, sid, c)
    ensures Bag(after) == Bag(before) + multiset{sid} && NoneEmpty(after)
    ensures Others(after, {sid}) == Others(before, {sid})
    ensures c < |after| && sid in after[c].slots
  {
    hide Bag, Others, Kept, InsertAt;
    if c < |before| && after == before[c := before[c].(slots := before[c].slots + [sid])] {
      PushIsInsert(before[c].slots, sid);
      Stacked(before, c, |before[c].slots|, sid, after[c]);
    } else {
      Dropped(before, c, sid);
      assert after[c].slots == [sid];
    }
  }

  /** Where everybody else stands after an addition. */
  lemma AddedOthers(before: seq<Column>, after: seq<Column>, sid: SlotId, c: nat, x: SlotId)
    requires Added(before, after, sid, c) && x != sid
    ensures ColOf(after, x) == ColOf(before, x)
         || (after == InsertAt(before, c, Alone(sid))
             && ColOf(after, x) == match ColOf(before, x)
                  case None => None
                  case Some(k) => Some(if k < c then k else k + 1))
  {
    hide ColOf, InsertAt;
    if after == InsertAt(before, c, Alone(sid)) && c <= |before| {
      ColOfInsert(before, c, Alone(sid), x);
    } else {
      ColOfUpdate(before, c, after[c], x);
    }
  }

  /** Where `Open` puts the new slot. */
  function Target(s: Space, sid: SlotId, from: nat, joined: bool): (c: nat)
    requires from < |s.columns|
    ensures from < c <= |s.columns|
    ensures joined ==> c == from + 1
  {
    if Fits(s, sid, from) then from + 1
    else Min(if !joined && PairAt(s, from) then from + 2 else from + 1, |s.columns|)
  }

  lemma PlaceNearAdds(s: Space, sid: SlotId, from: nat, joined: bool)
    requires from < |s.columns|
    ensures Added(s.columns, PlaceNear(s, sid, from, joined).columns, sid, Target(s, sid, from, joined))
    ensures PlaceNear(s, sid, from, joined) == s.(columns := PlaceNear(s, sid, from, joined).columns)
  {
  }

  /** The workspace with the new slot minted but nowhere yet. */
  function Minted(s: Space, show: PanelId): Space {
    MkSlot(s, show)
  }

  /** The column `Open` adds the slot to, and the joins it proposes. */
  function OpenColumn(s: Space, show: PanelId, from: Option<SlotId>, join: bool): nat {
    match if from.Some? then ColOf(s.columns, from.value) else None
    case Some(c) => Target(Minted(s, show), s.nextId + 1, c, join)
    case None => |s.columns|
  }

  function OpenJoins(s: Space, from: Option<SlotId>, join: bool): map<SlotId, SlotId> {
    if join && from.Some? && ColOf(s.columns, from.value).Some? then s.joins[from.value := s.nextId + 1] else s.joins
  }

  lemma OpenAdds(s: Space, show: PanelId, from: Option<SlotId>, join: bool)
    ensures var t, sid := Open(s, show, from, join), s.nextId + 1;
      && Added(s.columns, t.columns, sid, OpenColumn(s, show, from, join))
      && t == s.(nextId := sid, slots := s.slots[sid := show], columns := t.columns, focus := Some(sid),
                 joins := LiveJoins(t.columns, OpenJoins(s, from, join)))
  {
    hide PlaceNear, Target, LiveJoins, Added;
    var m, sid := MkSlot(s, show), s.nextId + 1;
    match if from.Some? then ColOf(s.columns, from.value) else None
    case Some(c) => PlaceNearAdds(m, sid, c, join);
    case None => AppendAdds(s.columns, sid);
  }

  lemma AppendAdds(cols: seq<Column>, sid: SlotId)
    ensures Added(cols, cols + [Alone(sid)], sid, |cols|)
  {
    assert InsertAt(cols, |cols|, Alone(sid)) == cols + [Alone(sid)];
  }

  lemma SlotsGrow(slots: map<SlotId, PanelId>, sid: SlotId, show: PanelId)
    requires sid !in slots
    ensures multiset(slots[sid := show].Keys) == multiset(slots.Keys) + multiset{sid}
  {
    assert slots[sid := show].Keys == slots.Keys + {sid};
  }

  /** Opening adds one slot, focused, and leaves everybody else in order. */
  lemma OpenKeepsInv(s: Space, show: PanelId, from: Option<SlotId>, join: bool)
    requires Inv(s) && Fresh(s)
    ensures var t, sid := Open(s, show, from, join), s.nextId + 1;
      && Inv(t) && t.nextId == sid && t.slots == s.slots[sid := show] && t.focus == Some(sid)
      && ColOf(t.columns, sid) == Some(OpenColumn(s, show, from, join))
      && Others(t.columns, {sid}) == Others(s.columns, {sid})
  {
    hide Bag, Others, Added, Open, OpenColumn, InsertAt, Locate;
    var t, sid, c := Open(s, show, from, join), s.nextId + 1, OpenColumn(s, show, from, join);
    OpenAdds(s, show, from, join);
    AddedBag(s.columns, t.columns, sid, c);
    SlotsGrow(s.slots, sid, show);
    FreshNowhere(s);
    assert OneParent(t.joins);
    assert Inv(t);
    var r :| 0 <= r < |t.columns[c].slots| && t.columns[c].slots[r] == sid;
    Stands(t, sid, c, r);
  }

  /** An open that is not joined leaves the new slot in no pair. */
  lemma UnjoinedOpenIsAlone(s: Space, show: PanelId, from: Option<SlotId>)
    requires Inv(s) && Fresh(s)
    ensures Hangless(Open(s, show, from, false), s.nextId + 1)
  {
    hide Inv, Open, Added, LiveJoins;
    OpenAdds(s, show, from, false);
    FreshNowhere(s);
    LiveFewer(Open(s, show, from, false).columns, s.joins);
  }

  predicate Hangless(s: Space, sid: SlotId) {
    sid !in s.joins && forall p :: p in s.joins ==> s.joins[p] != sid
  }

  lemma LiveFewer(cols: seq<Column>, joins: map<SlotId, SlotId>)
    ensures forall p :: p in LiveJoins(cols, joins) ==> p in joins && LiveJoins(cols, joins)[p] == joins[p]
  {
  }

  /** A joined open always ends with a live join. */
  lemma JoinedOpenIsJoined(s: Space, show: PanelId, from: SlotId)
    requires Inv(s) && Fresh(s) && from in s.slots
    ensures var t := Open(s, show, Some(from), true);
      from in t.joins && t.joins[from] == s.nextId + 1
  {
    hide Inv, Others, Added, Open, InsertAt, Locate, Target;
    var t, sid := Open(s, show, Some(from), true), s.nextId + 1;
    InvHas(s, from);
    OpenAdds(s, show, Some(from), true);
    OpenKeepsInv(s, show, Some(from), true);
    var c := ColOf(s.columns, from).value;
    AddedOthers(s.columns, t.columns, sid, c + 1, from);
  }

  lemma InvHas(s: Space, sid: SlotId)
    requires Inv(s) && sid in s.slots
    ensures Locate(s.columns, sid).Some?
  {
    Located(s, sid);
  }

  /** A pair under the opener, seen by `PairAt`. */
  lemma PairSeen(s: Space, p: SlotId)
    requires Inv(s) && p in s.joins
    ensures ColOf(s.columns, p).Some? && ColOf(s.columns, p).value + 1 < |s.columns| && PairAt(s, ColOf(s.columns, p).value)
  {
    hide Inv, Locate;
    JoinAdjacent(s, p);
    var (c, r) := Locate(s.columns, p).value;
    assert s.columns[c].slots[r] in s.joins;
  }

  lemma JoinAdjacent(s: Space, p: SlotId)
    requires Inv(s) && p in s.joins
    ensures Adjacent(s.columns, p, s.joins[p])
  {
    hide Bag, Adjacent;
  }

  lemma PairAtMinted(s: Space, show: PanelId, c: nat)
    requires c < |s.columns|
    ensures PairAt(Minted(s, show), c) == PairAt(s, c)
  {
  }

  /** An un-joined open beside a pair goes under its child, or past it. */
  lemma UnjoinedOpenLands(s: Space, show: PanelId, from: SlotId, c: nat)
    requires ColOf(s.columns, from) == Some(c) && PairAt(s, c) && c + 1 < |s.columns|
    ensures var t, sid := Open(s, show, Some(from), false), s.nextId + 1;
      || t.columns == s.columns[c + 1 := s.columns[c + 1].(slots := s.columns[c + 1].slots + [sid])]
      || t.columns == InsertAt(s.columns, c + 2, Alone(sid))
  {
    hide PairAt, Fits, InsertAt, LiveJoins;
    PairAtMinted(s, show, c);
  }

  /** An open that is not joined keeps every join whose parent stands in the opener's column. */
  lemma UnjoinedOpenKeepsPairs(s: Space, show: PanelId, from: SlotId, p: SlotId)
    requires Inv(s) && Fresh(s) && from in s.slots
    requires p in s.joins && ColOf(s.columns, p) == ColOf(s.columns, from)
    ensures var t := Open(s, show, Some(from), false);
      p in t.joins && t.joins[p] == s.joins[p]
  {
    hide Bag, Others, Open, InsertAt, Locate, PairAt, Adjacent, Fits;
    var t, sid, q := Open(s, show, Some(from), false), s.nextId + 1, s.joins[p];
    FreshNowhere(s);
    OpenAdds(s, show, Some(from), false);
    PairSeen(s, p);
    var c := ColOf(s.columns, p).value;
    UnjoinedOpenLands(s, show, from, c);
    PairOutlives(s.columns, t.columns, sid, c, p, q);
  }

  lemma PairOutlives(before: seq<Column>, after: seq<Column>, sid: SlotId, c: nat, p: SlotId, q: SlotId)
    requires Adjacent(before, p, q) && ColOf(before, p) == Some(c) && p != sid && q != sid
    requires c + 1 < |before|
    requires || after == before[c + 1 := before[c + 1].(slots := before[c + 1].slots + [sid])]
             || after == InsertAt(before, c + 2, Alone(sid))
    ensures Adjacent(after, p, q)
  {
    hide ColOf, InsertAt;
    if after == InsertAt(before, c + 2, Alone(sid)) {
      ColOfInsert(before, c + 2, Alone(sid), p);
      ColOfInsert(before, c + 2, Alone(sid), q);
    } else {
      ColOfUpdate(before, c + 1, after[c + 1], p);
      ColOfUpdate(before, c + 1, after[c + 1], q);
    }
  }

  // ---- following links ----------------------------------------------------------------------

  /** A solid link ends on a focused slot showing the panel: the joined child,
      re-targeted in its place, or a new slot, joined unless asked otherwise. */
  lemma FollowOpenShows(s: Space, slot: SlotId, show: PanelId, alt: bool)
    requires Inv(s) && Fresh(s)
    ensures var t := FollowOpen(s, slot, show, alt);
      && Inv(t) && t.focus.Some? && t.focus.value in t.slots && t.slots[t.focus.value] == show
      && (if !alt && slot in s.joins then t.focus == Some(s.joins[slot]) && t.nextId == s.nextId
          else t.focus == Some(s.nextId + 1) && t.nextId == s.nextId + 1)
      && (!alt && slot in s.slots ==> slot in t.joins && t.joins[slot] == t.focus.value)
      && (alt ==> Hangless(t, t.focus.value))
  {
    hide Open, Replace;
    if alt {
      OpenKeepsInv(s, show, Some(slot), false);
      UnjoinedOpenIsAlone(s, show, Some(slot));
    } else if slot in s.joins {
      assert Adjacent(s.columns, slot, s.joins[slot]);
      Located(s, s.joins[slot]);
      ReplaceExactly(s, s.joins[slot], show);
      ReplaceKeepsParent(s, s.joins[slot], show, slot);
    } else {
      OpenKeepsInv(s, show, Some(slot), true);
      if slot in s.slots {
        JoinedOpenIsJoined(s, show, slot);
      }
    }
  }

  /** A dotted link shows the panel in the slot itself, or in a new one; in a
      slot of some other workspace it shows nothing. */
  lemma FollowReplaceShows(s: Space, slot: SlotId, show: PanelId, alt: bool)
    requires Inv(s) && Fresh(s)
    ensures var t := FollowReplace(s, slot, show, alt);
      if !alt && slot !in s.slots then t == s
      else
        && Inv(t) && t.focus == Some(if alt then s.nextId + 1 else slot)
        && t.focus.value in t.slots && t.slots[t.focus.value] == show
        && (alt ==> Hangless(t, t.focus.value))
  {
    hide Open, Replace;
    if alt {
      OpenKeepsInv(s, show, Some(slot), false);
      UnjoinedOpenIsAlone(s, show, Some(slot));
    } else if slot in s.slots {
      ReplaceExactly(s, slot, show);
    } else {
      ReplaceNothing(s, slot, show);
    }
  }
}
