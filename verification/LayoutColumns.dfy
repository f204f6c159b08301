/** How editing columns moves the slots in them: counts, places, and reading order. */
module LayoutColumns {
  import opened Base
  import opened LayoutModel

  // ---- counting ---------------------------------------------------------------------

  /** Every slot the columns hold, as often as they hold it. */
  function Bag(cols: seq<Column>): multiset<SlotId> {
    if cols == [] then multiset{} else multiset(cols[0].slots) + Bag(cols[1..])
  }

  lemma {:induction false} BagConcat(a: seq<Column>, b: seq<Column>)
    ensures Bag(a + b) == Bag(a) + Bag(b)
    decreases |a|
  {
    if a == [] {
      assert a + b == b;
    } else {
      assert (a + b)[1..] == a[1..] + b;
      BagConcat(a[1..], b);
    }
  }

  lemma BagOne(col: Column)
    ensures Bag([col]) == multiset(col.slots)
  {
    assert [col][1..] == [];
  }

  lemma BagSplit(cols: seq<Column>, c: nat)
    requires c < |cols|
    ensures Bag(cols) == Bag(cols[..c]) + multiset(cols[c].slots) + Bag(cols[c + 1..])
  {
    hide Bag;
    assert cols == cols[..c] + cols[c..];
    assert cols[c..] == [cols[c]] + cols[c + 1..];
    BagConcat(cols[..c], cols[c..]);
    BagConcat([cols[c]], cols[c + 1..]);
    BagOne(cols[c]);
  }

  lemma BagInsert(cols: seq<Column>, at: nat, col: Column)
    requires at <= |cols|
    ensures Bag(InsertAt(cols, at, col)) == Bag(cols) + multiset(col.slots)
  {
    assert cols == cols[..at] + cols[at..];
    BagConcat(cols[..at], cols[at..]);
    BagConcat(cols[..at] + [col], cols[at..]);
    BagConcat(cols[..at], [col]);
    BagOne(col);
  }

  lemma BagRemove(cols: seq<Column>, c: nat)
    requires c < |cols|
    ensures Bag(cols) == Bag(RemoveAt(cols, c)) + multiset(cols[c].slots)
  {
    BagSplit(cols, c);
    BagConcat(cols[..c], cols[c + 1..]);
  }

  lemma BagUpdate(cols: seq<Column>, c: nat, col: Column)
    requires c < |cols|
    ensures Bag(cols[c := col]) + multiset(cols[c].slots) == Bag(cols) + multiset(col.slots)
  {
    BagSplit(cols, c);
    BagSplit(cols[c := col], c);
    assert cols[c := col][..c] == cols[..c];
    assert cols[c := col][c + 1..] == cols[c + 1..];
  }

  lemma SlotsRemove(s: seq<SlotId>, i: nat)
    requires i < |s|
    ensures multiset(s) == multiset(RemoveAt(s, i)) + multiset{s[i]}
  {
    assert s == s[..i] + [s[i]] + s[i + 1..];
  }

  lemma SlotsInsert(s: seq<SlotId>, i: nat, x: SlotId)
    requires i <= |s|
    ensures multiset(InsertAt(s, i, x)) == multiset(s) + multiset{x}
  {
    assert s == s[..i] + s[i..];
  }

  lemma SlotsSwap(s: seq<SlotId>, i: nat, j: nat)
    requires i < |s| && j < |s|
    ensures multiset(Swap(s, i, j)) == multiset(s)
  {
  }

  lemma Cancel(a: multiset<SlotId>, k: multiset<SlotId>, x: SlotId, b: multiset<SlotId>)
    requires a + (k + multiset{x}) == b + k
    ensures b == a + multiset{x}
  {
    forall e ensures b[e] == (a + multiset{x})[e] {
      assert (a + (k + multiset{x}))[e] == (b + k)[e];
    }
  }

  /** Taking a slot out takes out one of its places, and no other slot's. */
  lemma BagRemoveSlot(cols: seq<Column>, sid: SlotId)
    requires Locate(cols, sid).Some?
    ensures Bag(cols) == Bag(RemoveFromLayout(cols, sid)) + multiset{sid}
  {
    var (c, r) := Locate(cols, sid).value;
    var kept := RemoveAt(cols[c].slots, r);
    SlotsRemove(cols[c].slots, r);
    hide Bag;
    if kept == [] {
      BagRemove(cols, c);
      assert multiset(cols[c].slots) == multiset{sid};
    } else {
      BagUpdate(cols, c, cols[c].(slots := kept));
      Cancel(Bag(RemoveFromLayout(cols, sid)), multiset(kept), sid, Bag(cols));
    }
  }

  lemma {:induction false} BagHas(cols: seq<Column>, sid: SlotId)
    ensures sid in Bag(cols) <==> Locate(cols, sid).Some?
    ensures sid in Bag(cols) <==> exists c :: 0 <= c < |cols| && sid in cols[c].slots
  {
    if cols != [] {
      BagHas(cols[1..], sid);
      if c :| 0 <= c < |cols[1..]| && sid in cols[1..][c].slots {
        assert sid in cols[c + 1].slots;
      }
      if c :| 0 <= c < |cols| && sid in cols[c].slots {
        if c > 0 {
          assert sid in cols[1..][c - 1].slots;
        }
      }
    }
  }

  /** A slot held once stands exactly where it is found. */
  lemma {:induction false} PlaceIsUnique(cols: seq<Column>, sid: SlotId, c: nat, r: nat)
    requires c < |cols| && r < |cols[c].slots| && cols[c].slots[r] == sid
    requires Bag(cols)[sid] <= 1
    ensures Locate(cols, sid) == Some((c, r))
  {
    if c == 0 {
      RowIsUnique(cols[0].slots, sid, r);
    } else {
      BagHas(cols[1..], sid);
      assert cols[1..][c - 1] == cols[c];
      assert sid in Bag(cols[1..]);
      assert multiset(cols[0].slots)[sid] == 0;
      assert sid !in cols[0].slots;
      PlaceIsUnique(cols[1..], sid, c - 1, r);
    }
  }

  lemma {:induction false} RowIsUnique(s: seq<SlotId>, x: SlotId, r: nat)
    requires r < |s| && s[r] == x && multiset(s)[x] <= 1
    ensures IndexOf(s, x) == Some(r)
  {
    assert s == [s[0]] + s[1..];
    if r > 0 {
      assert s[1..][r - 1] == x;
      assert x in s[1..];
      RowIsUnique(s[1..], x, r - 1);
    }
  }

  // ---- places -------------------------------------------------------------------------

  function Shift(c: Option<nat>, offset: nat): Option<nat> {
    match c case None => None case Some(n) => Some(n + offset)
  }

  lemma {:induction false} ColOfConcat(a: seq<Column>, b: seq<Column>, sid: SlotId)
    ensures ColOf(a + b, sid) == if ColOf(a, sid).Some? then ColOf(a, sid) else Shift(ColOf(b, sid), |a|)
    decreases |a|
  {
    if a == [] {
      assert a + b == b;
    } else {
      assert (a + b)[1..] == a[1..] + b;
      ColOfConcat(a[1..], b, sid);
    }
  }

  lemma ColOfOne(col: Column, sid: SlotId)
    ensures ColOf([col], sid) == if sid in col.slots then Some(0) else None
  {
    assert [col][1..] == [];
  }

  lemma ColOfCons(a: seq<Column>, col: Column, b: seq<Column>, sid: SlotId)
    ensures ColOf(a + [col] + b, sid) ==
      if ColOf(a, sid).Some? then ColOf(a, sid)
      else if sid in col.slots then Some(|a|)
      else Shift(ColOf(b, sid), |a| + 1)
  {
    ColOfConcat(a + [col], b, sid);
    ColOfConcat(a, [col], sid);
    ColOfOne(col, sid);
  }

  lemma Around(cols: seq<Column>, c: nat)
    requires c < |cols|
    ensures cols == cols[..c] + [cols[c]] + cols[c + 1..]
  {
  }

  /** Editing one column moves nobody who is in it before and after, or neither. */
  lemma ColOfUpdate(cols: seq<Column>, c: nat, col: Column, x: SlotId)
    requires c < |cols| && (x in col.slots <==> x in cols[c].slots)
    ensures ColOf(cols[c := col], x) == ColOf(cols, x)
  {
    Around(cols, c);
    assert cols[c := col] == cols[..c] + [col] + cols[c + 1..];
    ColOfCons(cols[..c], cols[c], cols[c + 1..], x);
    ColOfCons(cols[..c], col, cols[c + 1..], x);
  }

  /** Where everybody else stands once column `c` has gone. */
  lemma ColOfRemove(cols: seq<Column>, c: nat, x: SlotId)
    requires c < |cols| && x !in cols[c].slots
    ensures ColOf(RemoveAt(cols, c), x) ==
      match ColOf(cols, x)
      case None => None
      case Some(k) => Some(if k < c then k else k - 1)
    ensures ColOf(cols, x) != Some(c)
    ensures ColOf(cols, x).Some? && ColOf(cols, x).value > c ==> ColOf(cols[..c], x).None?
  {
    Around(cols, c);
    ColOfCons(cols[..c], cols[c], cols[c + 1..], x);
    ColOfConcat(cols[..c], cols[c + 1..], x);
  }

  /** Where everybody else stands once a column has come in at `at`. */
  lemma ColOfInsert(cols: seq<Column>, at: nat, col: Column, x: SlotId)
    requires at <= |cols| && x !in col.slots
    ensures ColOf(InsertAt(cols, at, col), x) ==
      match ColOf(cols, x)
      case None => None
      case Some(k) => Some(if k < at then k else k + 1)
  {
    assert cols == cols[..at] + cols[at..];
    ColOfConcat(cols[..at], cols[at..], x);
    ColOfCons(cols[..at], col, cols[at..], x);
  }

  // ---- reading order ----------------------------------------------------------------------

  /** What is left of a list once the slots of `gone` are out of it. */
  function Kept(s: seq<SlotId>, gone: set<SlotId>): (r: seq<SlotId>)
    ensures |r| <= |s|
    ensures forall x :: x in r <==> x in s && x !in gone
  {
    if s == [] then [] else (if s[0] in gone then [] else [s[0]]) + Kept(s[1..], gone)
  }

  lemma {:induction false} KeptConcat(a: seq<SlotId>, b: seq<SlotId>, gone: set<SlotId>)
    ensures Kept(a + b, gone) == Kept(a, gone) + Kept(b, gone)
    decreases |a|
  {
    if a == [] {
      assert a + b == b;
    } else {
      assert (a + b)[1..] == a[1..] + b;
      KeptConcat(a[1..], b, gone);
    }
  }

  lemma {:induction false} KeptAll(s: seq<SlotId>, gone: set<SlotId>)
    requires forall x :: x in s ==> x !in gone
    ensures Kept(s, gone) == s
  {
    if s != [] {
      assert s == [s[0]] + s[1..];
      KeptAll(s[1..], gone);
    }
  }

  lemma KeptOne(x: SlotId, gone: set<SlotId>)
    ensures Kept([x], gone) == if x in gone then [] else [x]
  {
    assert [x][1..] == [];
  }

  lemma KeptRemove(s: seq<SlotId>, i: nat, gone: set<SlotId>)
    requires i < |s| && s[i] in gone
    ensures Kept(RemoveAt(s, i), gone) == Kept(s, gone)
  {
    assert s == s[..i] + ([s[i]] + s[i + 1..]);
    KeptConcat(s[..i], [s[i]] + s[i + 1..], gone);
    KeptConcat([s[i]], s[i + 1..], gone);
    KeptOne(s[i], gone);
    KeptConcat(s[..i], s[i + 1..], gone);
  }

  lemma KeptInsert(s: seq<SlotId>, i: nat, x: SlotId, gone: set<SlotId>)
    requires i <= |s| && x in gone
    ensures Kept(InsertAt(s, i, x), gone) == Kept(s, gone)
  {
    KeptRemove(InsertAt(s, i, x), i, gone);
    assert RemoveAt(InsertAt(s, i, x), i) == s;
  }

  /** The columns as lists, without the slots of `gone` and the columns they empty. */
  function Others(cols: seq<Column>, gone: set<SlotId>): seq<seq<SlotId>> {
    if cols == [] then []
    else
      var kept := Kept(cols[0].slots, gone);
      (if kept == [] then [] else [kept]) + Others(cols[1..], gone)
  }

  lemma {:induction false} OthersConcat(a: seq<Column>, b: seq<Column>, gone: set<SlotId>)
    ensures Others(a + b, gone) == Others(a, gone) + Others(b, gone)
    decreases |a|
  {
    if a == [] {
      assert a + b == b;
    } else {
      assert (a + b)[1..] == a[1..] + b;
      OthersConcat(a[1..], b, gone);
    }
  }

  lemma OthersOne(col: Column, gone: set<SlotId>)
    ensures Others([col], gone) == if Kept(col.slots, gone) == [] then [] else [Kept(col.slots, gone)]
  {
    assert [col][1..] == [];
  }

  lemma OthersUpdate(cols: seq<Column>, c: nat, col: Column, gone: set<SlotId>)
    requires c < |cols| && Kept(col.slots, gone) == Kept(cols[c].slots, gone)
    ensures Others(cols[c := col], gone) == Others(cols, gone)
  {
    Around(cols, c);
    assert cols[c := col] == cols[..c] + [col] + cols[c + 1..];
    OthersConcat(cols[..c] + [cols[c]], cols[c + 1..], gone);
    OthersConcat(cols[..c], [cols[c]], gone);
    OthersConcat(cols[..c] + [col], cols[c + 1..], gone);
    OthersConcat(cols[..c], [col], gone);
    OthersOne(col, gone);
    OthersOne(cols[c], gone);
  }

  lemma OthersInsert(cols: seq<Column>, at: nat, col: Column, gone: set<SlotId>)
    requires at <= |cols| && Kept(col.slots, gone) == []
    ensures Others(InsertAt(cols, at, col), gone) == Others(cols, gone)
  {
    assert cols == cols[..at] + cols[at..];
    OthersConcat(cols[..at], cols[at..], gone);
    OthersConcat(cols[..at] + [col], cols[at..], gone);
    OthersConcat(cols[..at], [col], gone);
    OthersOne(col, gone);
  }

  lemma OthersRemove(cols: seq<Column>, c: nat, gone: set<SlotId>)
    requires c < |cols| && Kept(cols[c].slots, gone) == []
    ensures Others(RemoveAt(cols, c), gone) == Others(cols, gone)
  {
    OthersInsert(RemoveAt(cols, c), c, cols[c], gone);
    assert InsertAt(RemoveAt(cols, c), c, cols[c]) == cols;
  }

  /** Taking a slot out leaves everybody else in order. */
  lemma OthersRemoveSlot(cols: seq<Column>, sid: SlotId, gone: set<SlotId>)
    requires sid in gone
    ensures Others(RemoveFromLayout(cols, sid), gone) == Others(cols, gone)
  {
    if Locate(cols, sid).Some? {
      var (c, r) := Locate(cols, sid).value;
      var kept := RemoveAt(cols[c].slots, r);
      KeptRemove(cols[c].slots, r, gone);
      if kept == [] {
        OthersRemove(cols, c, gone);
      } else {
        OthersUpdate(cols, c, cols[c].(slots := kept), gone);
      }
    }
  }

  /** Two column lists that differ only in which tab shows and in strips. */
  predicate SameLists(a: seq<Column>, b: seq<Column>) {
    |a| == |b| && forall c :: 0 <= c < |a| ==> a[c].slots == b[c].slots
  }

  lemma {:induction false} SameListsAgree(a: seq<Column>, b: seq<Column>)
    requires SameLists(a, b)
    ensures Bag(a) == Bag(b)
    ensures forall x :: Locate(a, x) == Locate(b, x)
    ensures forall gone :: Others(a, gone) == Others(b, gone)
  {
    if a != [] {
      assert SameLists(a[1..], b[1..]) by {
        forall c | 0 <= c < |a[1..]| ensures a[1..][c].slots == b[1..][c].slots {
          assert a[c + 1].slots == b[c + 1].slots;
        }
      }
      SameListsAgree(a[1..], b[1..]);
    }
  }

  // ---- normalizing ------------------------------------------------------------------------

  /** Every column holds something. */
  predicate NoneEmpty(cols: seq<Column>) {
    forall c :: 0 <= c < |cols| ==> cols[c].slots != []
  }

  lemma {:induction false} NonEmptyNothing(cols: seq<Column>)
    requires NoneEmpty(cols)
    ensures NonEmpty(cols) == cols
  {
    if cols != [] {
      assert NoneEmpty(cols[1..]) by {
        forall c | 0 <= c < |cols[1..]| ensures cols[1..][c].slots != [] {
          assert cols[c + 1].slots != [];
        }
      }
      NonEmptyNothing(cols[1..]);
      assert cols == [cols[0]] + cols[1..];
    }
  }

  /** Normalizing columns none of which is empty only sets which tab shows. */
  lemma NormalizeSameLists(s: Space)
    requires NoneEmpty(s.columns)
    ensures SameLists(Normalize(s).columns, s.columns)
    ensures Normalize(s) == s.(columns := Normalize(s).columns)
    ensures forall c :: 0 <= c < |s.columns| ==> Normalize(s).columns[c].tabbed == s.columns[c].tabbed
  {
    NonEmptyNothing(s.columns);
  }
}
