/** One workspace: columns of slots, joins, focus and camera, as a value, and
    what every operation makes of it. */
module LayoutModel {
  import opened Base

  /** Numbers a slot for as long as it lives. */
  type SlotId = nat

  /** What a slot shows; compared and stored, never read. */
  datatype PanelId = PanelId(tag: string, args: seq<string>)

  datatype Grid = Grid(w: nat, h: nat)

  const DESKTOP := Grid(12, 6)
  const DEFAULT_WISH: (nat, nat) := (4, 3)

  datatype Column = Column(slots: seq<SlotId>, tabbed: bool, active: nat)

  datatype PanelWidth = Half | Full

  datatype Dir = Left | Right | Up | Down

  /** An explicit placement: into a column before a row, or a fresh column at a boundary. */
  datatype DropTarget = Into(col: nat, row: nat) | Boundary(at: nat)

  datatype Space = Space(
    nextId: nat,
    grid: Grid,
    columns: seq<Column>,
    slots: map<SlotId, PanelId>,
    joins: map<SlotId, SlotId>,
    focus: Option<SlotId>,
    camera: real,
    wishes: map<PanelId, (nat, nat)>,
    widths: map<SlotId, PanelWidth>)

  const EMPTY := Space(0, DESKTOP, [], map[], map[], None, 0.0, map[], map[])

  // ---- sequences ------------------------------------------------------------------

  function RemoveAt<T>(s: seq<T>, i: nat): (r: seq<T>)
    requires i < |s|
  {
    s[..i] + s[i + 1..]
  }

  function InsertAt<T>(s: seq<T>, i: nat, x: T): (r: seq<T>)
    requires i <= |s|
  {
    s[..i] + [x] + s[i..]
  }

  function Swap<T>(s: seq<T>, i: nat, j: nat): seq<T>
    requires i < |s| && j < |s|
  {
    s[i := s[j]][j := s[i]]
  }

  lemma InsertedAt<T>(s: seq<T>, i: nat, x: T)
    requires i <= |s|
    ensures |InsertAt(s, i, x)| == |s| + 1 && InsertAt(s, i, x)[i] == x
  {
  }

  lemma RemovedAt<T>(s: seq<T>, i: nat, k: nat)
    requires i < |s| && k < |s| && k != i
    ensures var j := if k > i then k - 1 else k;
      |RemoveAt(s, i)| == |s| - 1 && j < |RemoveAt(s, i)| && RemoveAt(s, i)[j] == s[k]
  {
  }

  lemma RemoveThenInsert<T>(s: seq<T>, i: nat)
    requires i < |s|
    ensures InsertAt(RemoveAt(s, i), i, s[i]) == s
  {
  }

  lemma InsertThenRemove<T>(s: seq<T>, i: nat, x: T)
    requires i <= |s|
    ensures RemoveAt(InsertAt(s, i, x), i) == s
  {
  }

  /** Swapping neighbours moves one of them one place. */
  lemma SwapIsMove<T>(s: seq<T>, i: nat, j: nat)
    requires i < |s| && j < |s| && (j == i + 1 || i == j + 1)
    ensures InsertAt(RemoveAt(s, i), j, s[i]) == Swap(s, i, j)
  {
    var moved := InsertAt(RemoveAt(s, i), j, s[i]);
    forall k | 0 <= k < |s| ensures moved[k] == Swap(s, i, j)[k] {}
  }

  // ---- where a slot stands ----------------------------------------------------------

  function IndexOf(s: seq<SlotId>, x: SlotId): (r: Option<nat>)
    ensures r.Some? ==> r.value < |s| && s[r.value] == x
    ensures r.None? <==> x !in s
  {
    if s == [] then None
    else if s[0] == x then Some(0)
    else match IndexOf(s[1..], x) case None => None case Some(i) => Some(i + 1)
  }

  /** Column and row of a slot: the first place that holds it. */
  function Locate(cols: seq<Column>, sid: SlotId): (r: Option<(nat, nat)>)
    ensures r.Some? ==> r.value.0 < |cols| && r.value.1 < |cols[r.value.0].slots|
    ensures r.Some? ==> cols[r.value.0].slots[r.value.1] == sid
  {
    if cols == [] then None
    else match IndexOf(cols[0].slots, sid)
      case Some(row) => Some((0, row))
      case None =>
        match Locate(cols[1..], sid)
        case None => None
        case Some((c, row)) => Some((c + 1, row))
  }

  function ColOf(cols: seq<Column>, sid: SlotId): (r: Option<nat>)
    ensures r.Some? ==> r.value < |cols| && sid in cols[r.value].slots
  {
    match Locate(cols, sid)
    case Some((c, _)) => Some(c)
    case None => None
  }

  /** `child` stands in the column right after `parent`'s. */
  predicate Adjacent(cols: seq<Column>, parent: SlotId, child: SlotId) {
    && ColOf(cols, parent).Some?
    && ColOf(cols, child) == Some(ColOf(cols, parent).value + 1)
  }

  function Alone(sid: SlotId): Column {
    Column([sid], false, 0)
  }

  // ---- sizes ------------------------------------------------------------------------

  /** Grid columns for a wish: at most the grid, and on a compact one half of it or all. */
  function FitW(w: nat, grid: Grid): nat {
    if grid.w >= DESKTOP.w then Min(w, grid.w)
    else if w <= 5 && grid.w / 2 >= DEFAULT_WISH.0 then grid.w / 2
    else grid.w
  }

  function WidthUnits(width: PanelWidth, grid: Grid): nat {
    match width
    case Half => Max((grid.w + 1) / 2, 1)
    case Full => Max(grid.w, 1)
  }

  function WishOf(s: Space, id: PanelId): (nat, nat) {
    if id in s.wishes then s.wishes[id] else DEFAULT_WISH
  }

  function SlotGrid(s: Space, sid: SlotId): (nat, nat) {
    var wish := if sid in s.slots then WishOf(s, s.slots[sid]) else (1, 1);
    var w := if sid in s.widths then WidthUnits(s.widths[sid], s.grid) else wish.0;
    (FitW(w, s.grid), Min(wish.1, s.grid.h))
  }

  function UsedH(s: Space, slots: seq<SlotId>): nat {
    if slots == [] then 0 else SlotGrid(s, slots[0]).1 + UsedH(s, slots[1..])
  }

  // ---- joins ------------------------------------------------------------------------

  /** Joins whose child still stands right of its parent. */
  function LiveJoins(cols: seq<Column>, joins: map<SlotId, SlotId>): map<SlotId, SlotId> {
    map p | p in joins && Adjacent(cols, p, joins[p]) :: joins[p]
  }

  function ValidateJoins(s: Space): Space {
    s.(joins := LiveJoins(s.columns, s.joins))
  }

  /** The parent `sid` hangs from; the only one, when no child has two. */
  ghost function ParentOf(joins: map<SlotId, SlotId>, sid: SlotId): (r: Option<SlotId>)
    ensures r.Some? ==> r.value in joins && joins[r.value] == sid
    ensures r.None? ==> forall p :: p in joins ==> joins[p] != sid
  {
    if exists p :: p in joins && joins[p] == sid then
      var p :| p in joins && joins[p] == sid;
      Some(p)
    else None
  }

  /** The pair `sid` is in: as a child, or failing that as a parent. */
  ghost function BridgeOf(joins: map<SlotId, SlotId>, sid: SlotId): Option<(SlotId, SlotId)> {
    match ParentOf(joins, sid)
    case Some(p) => Some((p, sid))
    case None => if sid in joins then Some((sid, joins[sid])) else None
  }

  ghost function Unjoin(s: Space, sid: SlotId): Space {
    match BridgeOf(s.joins, sid)
    case Some((p, _)) => s.(joins := s.joins - {p})
    case None => s
  }

  // ---- opening ------------------------------------------------------------------------

  function MkSlot(s: Space, show: PanelId): Space {
    s.(nextId := s.nextId + 1, slots := s.slots[s.nextId + 1 := show])
  }

  /** A pair joined across columns `from` and `from + 1`. */
  predicate PairAt(s: Space, from: nat)
    requires from < |s.columns|
  {
    exists r :: 0 <= r < |s.columns[from].slots| && s.columns[from].slots[r] in s.joins
      && ColOf(s.columns, s.joins[s.columns[from].slots[r]]) == Some(from + 1)
  }

  /** The column right of `from` has rows enough left for `sid`. */
  predicate Fits(s: Space, sid: SlotId, from: nat) {
    from + 1 < |s.columns| && UsedH(s, s.columns[from + 1].slots) + SlotGrid(s, sid).1 <= s.grid.h
  }

  /** The right-hand column takes the slot if its rows fit; else a fresh
      column does, past an existing pair when the open is not joined. */
  function PlaceNear(s: Space, sid: SlotId, from: nat, joined: bool): Space
    requires from < |s.columns|
  {
    if Fits(s, sid, from) then
      var right := s.columns[from + 1];
      s.(columns := s.columns[from + 1 := right.(slots := right.slots + [sid])])
    else
      var at := if !joined && PairAt(s, from) then from + 2 else from + 1;
      s.(columns := InsertAt(s.columns, Min(at, |s.columns|), Alone(sid)))
  }

  function OpenPlaced(s: Space, sid: SlotId, from: Option<SlotId>, join: bool): Space {
    match if from.Some? then ColOf(s.columns, from.value) else None
    case Some(c) =>
      var placed := PlaceNear(s, sid, c, join);
      if join then placed.(joins := placed.joins[from.value := sid]) else placed
    case None => s.(columns := s.columns + [Alone(sid)])
  }

  function Open(s: Space, show: PanelId, from: Option<SlotId>, join: bool): Space {
    var sid := s.nextId + 1;
    ValidateJoins(OpenPlaced(MkSlot(s, show), sid, from, join)).(focus := Some(sid))
  }

  /** A solid link: re-targets the joined child, or opens one. */
  function FollowOpen(s: Space, slot: SlotId, show: PanelId, alt: bool): Space {
    if alt then Open(s, show, Some(slot), false)
    else if slot in s.joins && s.joins[slot] in s.slots then Replace(s, s.joins[slot], show)
    else Open(s, show, Some(slot), true)
  }

  /** A dotted link: replaces in place. */
  function FollowReplace(s: Space, slot: SlotId, show: PanelId, alt: bool): Space {
    if alt then Open(s, show, Some(slot), false) else Replace(s, slot, show)
  }

  function Replace(s: Space, sid: SlotId, show: PanelId): Space {
    if sid !in s.slots then s
    else
      var closed := CloseJoinedChain(s, sid);
      var shown := if sid in closed.slots then closed.(slots := closed.slots[sid := show]) else closed;
      ValidateJoins(shown).(focus := Some(sid))
  }

  // ---- closing ------------------------------------------------------------------------

  function RemoveFromLayout(cols: seq<Column>, sid: SlotId): (rest: seq<Column>)
    ensures match Locate(cols, sid)
      case None => rest == cols
      case Some((c, _)) => |rest| == if |cols[c].slots| == 1 then |cols| - 1 else |cols|
  {
    match Locate(cols, sid)
    case None => cols
    case Some((c, r)) =>
      var kept := RemoveAt(cols[c].slots, r);
      if kept == [] then RemoveAt(cols, c) else cols[c := cols[c].(slots := kept)]
  }

  /** No strip for a single slot. */
  function Untab(cols: seq<Column>, c: nat): (r: seq<Column>)
    requires c < |cols|
    ensures |r| == |cols|
  {
    if |cols[c].slots| == 1 then cols[c := cols[c].(tabbed := false)] else cols
  }

  /** Where focus falls when the slot at column `c`, row `r` has gone;
      `survived` says whether its column still stands. */
  function FocusAfter(cols: seq<Column>, c: nat, r: nat, survived: bool): (f: Option<SlotId>)
    requires survived ==> c < |cols|
    requires !survived ==> c <= |cols|
  {
    if cols == [] then None
    else
      var at := if survived then c else if c == 0 then 0 else c - 1;
      var col := cols[at];
      var row := if col.tabbed then col.active else r;
      if col.slots == [] then None else Some(col.slots[Min(row, |col.slots| - 1)])
  }

  /** Takes one slot out: layout, joins, focus. */
  function Detach(s: Space, sid: SlotId): Space {
    match Locate(s.columns, sid)
    case None => s
    case Some((c, r)) =>
      var removed := RemoveFromLayout(s.columns, sid);
      var survived := |removed| == |s.columns|;
      var cols := if survived then Untab(removed, c) else removed;
      var joins := map p | p in s.joins && p != sid && s.joins[p] != sid :: s.joins[p];
      var focus := if s.focus == Some(sid) then FocusAfter(cols, c, r, survived) else s.focus;
      s.(columns := cols, slots := s.slots - {sid}, joins := LiveJoins(cols, joins), focus := focus)
  }

  lemma FewerJoins(joins: map<SlotId, SlotId>, sid: SlotId)
    requires sid in joins
    ensures |joins - {sid}| < |joins|
  {
    assert joins.Keys == (joins - {sid}).Keys + {sid};
  }

  /** Closes everything joined below `sid`, deepest first. */
  function CloseJoinedChain(s: Space, sid: SlotId): Space
    decreases |s.joins|
  {
    if sid !in s.joins then s
    else
      FewerJoins(s.joins, sid);
      var child := s.joins[sid];
      var deeper := Detach(CloseJoinedChain(s.(joins := s.joins - {sid}), child), child);
      deeper.(slots := deeper.slots - {child})
  }

  function Close(s: Space, sid: SlotId): Space {
    Detach(CloseJoinedChain(s, sid), sid)
  }

  // ---- moving -------------------------------------------------------------------------

  function NonEmpty(cols: seq<Column>): seq<Column> {
    if cols == [] then []
    else (if cols[0].slots == [] then [] else [cols[0]]) + NonEmpty(cols[1..])
  }

  function ClampActive(col: Column): Column {
    col.(active := Min(col.active, Max(|col.slots| - 1, 0)))
  }

  function ClampAll(cols: seq<Column>): (r: seq<Column>)
    ensures |r| == |cols|
    ensures forall c :: 0 <= c < |r| ==> r[c] == ClampActive(cols[c])
  {
    if cols == [] then [] else [ClampActive(cols[0])] + ClampAll(cols[1..])
  }

  function Raise(cols: seq<Column>, sid: SlotId): seq<Column> {
    match Locate(cols, sid)
    case Some((c, r)) => cols[c := cols[c].(active := r)]
    case None => cols
  }

  /** Drops empty columns, clamps `active`, and lets it follow focus. */
  function Normalize(s: Space): Space {
    var cols := ClampAll(NonEmpty(s.columns));
    s.(columns := if s.focus.Some? then Raise(cols, s.focus.value) else cols)
  }

  function Settle(s: Space): Space {
    Normalize(ValidateJoins(s))
  }

  function Activate(s: Space, sid: SlotId): Space {
    s.(columns := Raise(s.columns, sid))
  }

  function ToggleTabbed(s: Space, sid: SlotId): Space {
    match ColOf(s.columns, sid)
    case Some(c) => Normalize(s.(columns := s.columns[c := s.columns[c].(tabbed := !s.columns[c].tabbed)]))
    case None => s
  }

  /** The column beside `c`, if there is one. */
  function Beside(n: nat, c: nat, dir: Dir): Option<nat> {
    if dir == Left && c > 0 then Some(c - 1)
    else if dir == Right && c + 1 < n then Some(c + 1)
    else None
  }

  /** Alone, the slot goes into the stack beside it; in a stack, it comes out of it. */
  function ConsumeOrExpel(s: Space, sid: SlotId, dir: Dir): Space {
    match Locate(s.columns, sid)
    case None => s
    case Some((c, r)) =>
      if dir != Left && dir != Right then s
      else if |s.columns[c].slots| == 1 then
        match Beside(|s.columns|, c, dir)
        case None => s
        case Some(t) =>
          var cols := RemoveAt(s.columns, c);
          var t' := if t > c then t - 1 else t;
          var fuller := cols[t'].slots + [sid];
          Settle(s.(columns := cols[t' := cols[t'].(slots := fuller, active := |fuller| - 1)]))
      else
        var cols := s.columns[c := s.columns[c].(slots := RemoveAt(s.columns[c].slots, r))];
        Settle(s.(columns := InsertAt(cols, if dir == Left then c else c + 1, Alone(sid))))
  }

  /** Takes in the next column's top slot, under all of this one's. */
  function ConsumeFromRight(s: Space, sid: SlotId): Space {
    match ColOf(s.columns, sid)
    case None => s
    case Some(c) =>
      if c + 1 >= |s.columns| || s.columns[c + 1].slots == [] then s
      else
        var right := s.columns[c + 1];
        var cols := if |right.slots| == 1 then RemoveAt(s.columns, c + 1)
                    else s.columns[c + 1 := right.(slots := right.slots[1..])];
        Settle(s.(columns := cols[c := cols[c].(slots := cols[c].slots + [right.slots[0]])]))
  }

  /** Puts the lowest of a stack next to it, alone. */
  function ExpelBottom(s: Space, sid: SlotId): Space {
    match ColOf(s.columns, sid)
    case None => s
    case Some(c) =>
      var slots := s.columns[c].slots;
      if |slots| < 2 then s
      else
        var cols := s.columns[c := s.columns[c].(slots := slots[..|slots| - 1])];
        Settle(s.(columns := InsertAt(cols, c + 1, Alone(slots[|slots| - 1]))))
  }

  function MoveVertically(s: Space, c: nat, r: nat, dir: Dir): seq<Column>
    requires c < |s.columns| && r < |s.columns[c].slots|
  {
    var slots := s.columns[c].slots;
    if dir == Up && r > 0 then s.columns[c := s.columns[c].(slots := Swap(slots, r, r - 1))]
    else if dir == Down && r + 1 < |slots| then s.columns[c := s.columns[c].(slots := Swap(slots, r, r + 1))]
    else s.columns
  }

  /** A slot trades places with the one above or below; sideways it leaves its
      stack for the next one, or for a column of its own past the last, and
      with nobody to leave it takes its column along. */
  function MoveSlot(s: Space, sid: SlotId, dir: Dir): Space {
    match Locate(s.columns, sid)
    case None => s
    case Some((c, r)) =>
      if dir == Up || dir == Down then ValidateJoins(s.(columns := MoveVertically(s, c, r, dir)))
      else if |s.columns[c].slots| == 1 then
        match Beside(|s.columns|, c, dir)
        case None => s
        case Some(t) => ValidateJoins(s.(columns := Swap(s.columns, c, t)))
      else
        var cols := s.columns[c := s.columns[c].(slots := RemoveAt(s.columns[c].slots, r))];
        match Beside(|s.columns|, c, dir)
        case None => ValidateJoins(s.(columns := InsertAt(cols, if dir == Left then c else c + 1, Alone(sid))))
        case Some(t) =>
          var into := InsertAt(cols[t].slots, Min(r, |cols[t].slots|), sid);
          ValidateJoins(s.(columns := cols[t := cols[t].(slots := into)]))
  }

  /** The first slot of a column other than `sid`. */
  function Anchor(slots: seq<SlotId>, sid: SlotId): (r: Option<SlotId>)
    ensures r.Some? ==> r.value in slots && r.value != sid
    ensures r.None? ==> forall k :: 0 <= k < |slots| ==> slots[k] == sid
  {
    if slots == [] then None
    else if slots[0] != sid then Some(slots[0])
    else Anchor(slots[1..], sid)
  }

  function Refocus(s: Space, sid: SlotId): Space {
    Normalize(s.(focus := Some(sid)))
  }

  function PlaceInto(cols: seq<Column>, sid: SlotId, anchor: SlotId, row: nat): seq<Column> {
    var rest := RemoveFromLayout(cols, sid);
    match ColOf(rest, anchor)
    case None => rest
    case Some(c) =>
      rest[c := rest[c].(slots := InsertAt(rest[c].slots, Min(row, |rest[c].slots|), sid))]
  }

  /** To a given place, counted as the columns stand beforehand. */
  function Place(s: Space, sid: SlotId, target: DropTarget): Space {
    match Locate(s.columns, sid)
    case None => s
    case Some((source, _)) =>
      match target
      case Into(col, row) =>
        if col >= |s.columns| then s
        else (match Anchor(s.columns[col].slots, sid)
          case None => Refocus(s, sid)
          case Some(anchor) =>
            Refocus(ValidateJoins(s.(columns := PlaceInto(s.columns, sid, anchor, row))), sid))
      case Boundary(at) =>
        if at > |s.columns| then s
        else
          var lone := |s.columns[source].slots| == 1;
          if lone && (at == source || at == source + 1) then Refocus(s, sid)
          else
            var rest := RemoveFromLayout(s.columns, sid);
            var ins := if lone && source < at then at - 1 else at;
            Refocus(ValidateJoins(s.(columns := InsertAt(rest, ins, Alone(sid)))), sid)
  }
}
