/** One list out of many answers: registration order, nothing listed twice, at
    most two hundred rows. */
module SearchMerge {
  import opened Base
  import opened LayoutModel

  /** What activating a hit does. */
  datatype Go = Focus(slot: SlotId) | Open(id: PanelId)

  datatype Hit = Hit(text: string, detail: string, go: Go)

  /** One row, and which source found it. */
  datatype Found = Found(source: string, text: string, detail: string, id: PanelId)

  const MAX_FOUND := 200

  function NameOf(names: seq<string>, slot: nat): string {
    if slot < |names| then names[slot] else ""
  }

  /** A source's hits that open something, in its order. */
  function Opens(source: string, hits: seq<Hit>): seq<Found> {
    if hits == [] then []
    else
      var n := |hits| - 1;
      Opens(source, hits[..n])
      + if hits[n].go.Open? then [Found(source, hits[n].text, hits[n].detail, hits[n].go.id)] else []
  }

  /** Everything the sources that have answered offer, in registration order. */
  function Offered(names: seq<string>, answers: seq<Option<seq<Hit>>>): seq<Found> {
    if answers == [] then []
    else
      var n := |answers| - 1;
      Offered(names, answers[..n]) + if answers[n].Some? then Opens(NameOf(names, n), answers[n].value) else []
  }

  predicate Lists(rows: seq<Found>, id: PanelId) {
    exists k :: 0 <= k < |rows| && rows[k].id == id
  }

  /** Of the rows for one panel, the first. */
  function Firsts(rows: seq<Found>): seq<Found> {
    if rows == [] then []
    else
      var front, last := Firsts(rows[..|rows| - 1]), rows[|rows| - 1];
      if Lists(front, last.id) then front else front + [last]
  }

  function UpTo(rows: seq<Found>, n: nat): seq<Found> {
    if |rows| <= n then rows else rows[..n]
  }

  function Merged(names: seq<string>, answers: seq<Option<seq<Hit>>>): seq<Found> {
    UpTo(Firsts(Offered(names, answers)), MAX_FOUND)
  }

  // ---- what that is -----------------------------------------------------------------------

  /** The place of each kept row among those offered. */
  function Places(rows: seq<Found>): seq<nat> {
    if rows == [] then []
    else
      var n := |rows| - 1;
      if Lists(Firsts(rows[..n]), rows[n].id) then Places(rows[..n]) else Places(rows[..n]) + [n]
  }

  predicate FirstAt(rows: seq<Found>, k: nat) {
    k < |rows| && forall j :: 0 <= j < k ==> rows[j].id != rows[k].id
  }

  lemma StillListed(front: seq<Found>, last: Found)
    requires forall k :: 0 <= k < |front| ==> Lists(Firsts(front), front[k].id)
    ensures forall k :: 0 <= k < |front + [last]| ==> Lists(Firsts(front + [last]), (front + [last])[k].id)
  {
    var rows := front + [last];
    assert rows[..|rows| - 1] == front;
    var f, g := Firsts(front), Firsts(rows);
    forall id | Lists(f, id) ensures Lists(g, id) {
      var k :| 0 <= k < |f| && f[k].id == id;
      assert g[k].id == id;
    }
    assert Lists(g, last.id) by {
      assert !Lists(f, last.id) ==> g[|f|].id == last.id;
    }
  }

  lemma {:induction false} AllListed(rows: seq<Found>)
    ensures forall k :: 0 <= k < |rows| ==> Lists(Firsts(rows), rows[k].id)
  {
    hide Firsts, Lists;
    if rows != [] {
      var front := rows[..|rows| - 1];
      AllListed(front);
      StillListed(front, rows[|rows| - 1]);
      assert rows == front + [rows[|rows| - 1]];
    }
  }

  /** Each row kept is the first for its panel, at the place it keeps. */
  ghost predicate Placed(rows: seq<Found>, firsts: seq<Found>, places: seq<nat>) {
    && |places| == |firsts|
    && (forall k :: 0 <= k < |places| ==> FirstAt(rows, places[k]) && firsts[k] == rows[places[k]])
    && (forall i, j :: 0 <= i < j < |places| ==> places[i] < places[j])
  }

  lemma FirstOrListed(front: seq<Found>, id: PanelId)
    requires Placed(front, Firsts(front), Places(front))
    ensures Lists(Firsts(front), id) <==> Lists(front, id)
  {
    hide Firsts, Places;
    AllListed(front);
    if Lists(Firsts(front), id) {
      var k :| 0 <= k < |Firsts(front)| && Firsts(front)[k].id == id;
      assert front[Places(front)[k]].id == id;
    }
  }

  lemma FirstAtLast(rows: seq<Found>)
    requires rows != []
    ensures FirstAt(rows, |rows| - 1) <==> !Lists(rows[..|rows| - 1], rows[|rows| - 1].id)
    ensures forall k: nat :: k < |rows| - 1 ==> FirstAt(rows, k) == FirstAt(rows[..|rows| - 1], k)
  {
  }

  lemma {:induction false} KeptInPlace(rows: seq<Found>)
    ensures Placed(rows, Firsts(rows), Places(rows))
  {
    hide Lists, FirstAt;
    if rows != [] {
      var front := rows[..|rows| - 1];
      KeptInPlace(front);
      FirstOrListed(front, rows[|rows| - 1].id);
      FirstAtLast(rows);
      forall k | 0 <= k < |Places(front)| ensures Places(front)[k] < |front| {
        FirstAtBelow(front, Places(front)[k]);
      }
    }
  }

  lemma FirstAtBelow(rows: seq<Found>, k: nat)
    requires FirstAt(rows, k)
    ensures k < |rows|
  {
  }

  lemma {:induction false} FirstKept(rows: seq<Found>, k: nat)
    requires FirstAt(rows, k)
    ensures k in Places(rows)
  {
    hide Lists, FirstAt;
    FirstAtBelow(rows, k);
    var n := |rows| - 1;
    FirstAtLast(rows);
    KeptInPlace(rows[..n]);
    FirstOrListed(rows[..n], rows[n].id);
    if k < n {
      FirstKept(rows[..n], k);
    }
  }

  /** The rows kept are, in order, exactly those whose panel no earlier row offers. */
  lemma FirstsExactly(rows: seq<Found>)
    ensures Placed(rows, Firsts(rows), Places(rows))
    ensures forall k: nat :: FirstAt(rows, k) ==> k in Places(rows)
    ensures forall k :: 0 <= k < |rows| ==> Lists(Firsts(rows), rows[k].id)
  {
    hide Firsts, Places, FirstAt, Lists;
    KeptInPlace(rows);
    AllListed(rows);
    forall k: nat | FirstAt(rows, k) ensures k in Places(rows) {
      FirstKept(rows, k);
    }
  }

  lemma {:induction false} FirstsDistinct(rows: seq<Found>)
    ensures forall i, j :: 0 <= i < j < |Firsts(rows)| ==> Firsts(rows)[i].id != Firsts(rows)[j].id
  {
    if rows != [] {
      FirstsDistinct(rows[..|rows| - 1]);
    }
  }

  /** No panel twice, no more than two hundred; and short of that, every panel
      offered is listed. */
  lemma MergedIs(names: seq<string>, answers: seq<Option<seq<Hit>>>)
    ensures var found, offered := Merged(names, answers), Offered(names, answers);
      && |found| <= MAX_FOUND
      && (forall i, j :: 0 <= i < j < |found| ==> found[i].id != found[j].id)
      && (|found| < MAX_FOUND ==> forall k :: 0 <= k < |offered| ==> Lists(found, offered[k].id))
  {
    hide Firsts, Offered, Lists;
    FirstsDistinct(Offered(names, answers));
    FirstsExactly(Offered(names, answers));
  }

  // ---- the loop --------------------------------------------------------------------------------

  lemma OneRowMore(rows: seq<Found>, row: Found)
    ensures Firsts(rows + [row]) == if Lists(Firsts(rows), row.id) then Firsts(rows) else Firsts(rows) + [row]
  {
    assert (rows + [row])[..|rows|] == rows;
  }

  /** Once full, nothing more gets in. */
  lemma {:induction false} FullStays(rows: seq<Found>, more: seq<Found>)
    requires |Firsts(rows)| >= MAX_FOUND
    ensures UpTo(Firsts(rows + more), MAX_FOUND) == UpTo(Firsts(rows), MAX_FOUND)
    ensures |Firsts(rows + more)| >= MAX_FOUND
  {
    hide Lists;
    if more == [] {
      assert rows + more == rows;
    } else {
      var n := |more| - 1;
      FullStays(rows, more[..n]);
      OneRowMore(rows + more[..n], more[n]);
      assert rows + more == rows + more[..n] + [more[n]];
    }
  }

  lemma {:induction false} OfferedPrefix(names: seq<string>, answers: seq<Option<seq<Hit>>>, slot: nat)
    requires slot <= |answers|
    ensures exists rest :: Offered(names, answers) == Offered(names, answers[..slot]) + rest
    decreases |answers|
  {
    if slot == |answers| {
      assert answers[..slot] == answers;
      assert Offered(names, answers) == Offered(names, answers[..slot]) + [];
    } else {
      var n := |answers| - 1;
      OfferedPrefix(names, answers[..n], slot);
      assert answers[..n][..slot] == answers[..slot];
      var rest :| Offered(names, answers[..n]) == Offered(names, answers[..slot]) + rest;
      var last := if answers[n].Some? then Opens(NameOf(names, n), answers[n].value) else [];
      Assoc(Offered(names, answers[..slot]), rest, last);
      assert Offered(names, answers) == Offered(names, answers[..slot]) + (rest + last);
    }
  }

  lemma {:induction false} OpensPrefix(source: string, hits: seq<Hit>, k: nat)
    requires k <= |hits|
    ensures exists rest :: Opens(source, hits) == Opens(source, hits[..k]) + rest
    decreases |hits|
  {
    if k == |hits| {
      assert hits[..k] == hits;
      assert Opens(source, hits) == Opens(source, hits[..k]) + [];
    } else {
      var n := |hits| - 1;
      OpensPrefix(source, hits[..n], k);
      assert hits[..n][..k] == hits[..k];
      var rest :| Opens(source, hits[..n]) == Opens(source, hits[..k]) + rest;
      var last := if hits[n].go.Open? then [Found(source, hits[n].text, hits[n].detail, hits[n].go.id)] else [];
      Assoc(Opens(source, hits[..k]), rest, last);
      assert Opens(source, hits) == Opens(source, hits[..k]) + (rest + last);
    }
  }

  /** Full before the end of a source's hits is full for good. */
  lemma FullEarly(names: seq<string>, answers: seq<Option<seq<Hit>>>, slot: nat, k: nat)
    requires slot < |answers| && answers[slot].Some? && k <= |answers[slot].value|
    requires |Firsts(Offered(names, answers[..slot]) + Opens(NameOf(names, slot), answers[slot].value[..k]))| >= MAX_FOUND
    ensures Merged(names, answers)
         == UpTo(Firsts(Offered(names, answers[..slot]) + Opens(NameOf(names, slot), answers[slot].value[..k])), MAX_FOUND)
  {
    hide Firsts, Opens;
    var a, hits := answers[..slot + 1], answers[slot].value;
    var before, part := Offered(names, answers[..slot]), Opens(NameOf(names, slot), hits[..k]);
    assert a[..slot] == answers[..slot];
    OpensPrefix(NameOf(names, slot), hits, k);
    var rest :| Opens(NameOf(names, slot), hits) == part + rest;
    OfferedPrefix(names, answers, slot + 1);
    var after :| Offered(names, answers) == Offered(names, a) + after;
    assert Offered(names, answers) == before + (part + rest) + after;
    assert before + (part + rest) + after == before + part + (rest + after);
    FullStays(before + part, rest + after);
  }

  method Merge(names: seq<string>, answers: seq<Option<seq<Hit>>>) returns (found: seq<Found>)
    ensures found == Merged(names, answers)
  {
    hide Firsts, Offered, Opens;
    found := [];
    NothingOffered(names);
    for slot := 0 to |answers|
      invariant found == Firsts(Offered(names, answers[..slot])) && |found| <= MAX_FOUND
    {
      OneAnswerMore(names, answers, slot);
      if answers[slot].Some? {
        var hits := answers[slot].value;
        ghost var before := Offered(names, answers[..slot]);
        NoHits(NameOf(names, slot), before, hits);
        for k := 0 to |hits|
          invariant found == Firsts(before + Opens(NameOf(names, slot), hits[..k])) && |found| <= MAX_FOUND
        {
          if |found| >= MAX_FOUND {
            FullEarly(names, answers, slot, k);
            return;
          }
          OneHitMore(NameOf(names, slot), before, hits, k);
          if hits[k].go.Open? {
            var seen := exists j :: 0 <= j < |found| && found[j].id == hits[k].go.id;
            if !seen {
              found := found + [Found(NameOf(names, slot), hits[k].text, hits[k].detail, hits[k].go.id)];
            }
          }
        }
        assert hits[..|hits|] == hits;
      }
    }
    assert answers[..|answers|] == answers;
  }

  lemma NothingOffered(names: seq<string>)
    ensures Firsts(Offered(names, [])) == []
  {
  }

  lemma OneAnswerMore(names: seq<string>, answers: seq<Option<seq<Hit>>>, slot: nat)
    requires slot < |answers|
    ensures Offered(names, answers[..slot + 1])
         == Offered(names, answers[..slot]) + if answers[slot].Some? then Opens(NameOf(names, slot), answers[slot].value) else []
    ensures answers[slot].None? ==> Offered(names, answers[..slot + 1]) == Offered(names, answers[..slot])
  {
    assert answers[..slot + 1][..slot] == answers[..slot];
  }

  lemma NoHits(source: string, before: seq<Found>, hits: seq<Hit>)
    ensures before + Opens(source, hits[..0]) == before
  {
  }

  lemma OneHitMore(source: string, before: seq<Found>, hits: seq<Hit>, k: nat)
    requires k < |hits|
    ensures var was, now := Firsts(before + Opens(source, hits[..k])), Firsts(before + Opens(source, hits[..k + 1]));
      if hits[k].go.Open? && !Lists(was, hits[k].go.id)
      then now == was + [Found(source, hits[k].text, hits[k].detail, hits[k].go.id)]
      else now == was
  {
    hide Lists, Firsts;
    assert hits[..k + 1][..k] == hits[..k];
    if hits[k].go.Open? {
      var row := Found(source, hits[k].text, hits[k].detail, hits[k].go.id);
      OneRowMore(before + Opens(source, hits[..k]), row);
      assert before + Opens(source, hits[..k + 1]) == before + Opens(source, hits[..k]) + [row];
    } else {
      assert Opens(source, hits[..k]) + [] == Opens(source, hits[..k]);
    }
  }
}
