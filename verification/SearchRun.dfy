/** However the threads are scheduled, one question gives one list. */
module SearchRun {
  import opened Base
  import opened SearchMerge
  import opened SearchModel

  lemma {:induction false} NothingMerged(names: seq<string>, n: nat)
    ensures Offered(names, Unanswered(n)) == [] && Merged(names, Unanswered(n)) == [] && Merged(names, []) == []
  {
    if n > 0 {
      NothingMerged(names, n - 1);
      assert Unanswered(n)[..n - 1] == Unanswered(n - 1);
    }
  }

  lemma FreshKeeps(n: nat, names: seq<string>, o: Oracle)
    ensures Inv(Fresh(n), names, o)
  {
    NothingMerged(names, 0);
  }

  lemma PutKeeps(d: Desk, query: string, names: seq<string>, o: Oracle)
    requires Inv(d, names, o)
    ensures Inv(AskStep(d, query), names, o)
  {
    hide Merged, Blank;
    NothingMerged(names, |d.sources|);
    var e := AskStep(d, query);
    forall i: nat | i < |e.sources| ensures SourceOk(e, o, i) {
      assert SourceOk(d, o, i);
    }
    forall k | 0 <= k < |e.channel| ensures AnswerOk(e, o, e.channel[k]) {
      assert AnswerOk(d, o, d.channel[k]);
    }
  }

  // ---- landing ---------------------------------------------------------------------------

  lemma {:induction false} LandDoes(answers: seq<Option<seq<Hit>>>, landed: seq<Answer>, gen: nat, i: nat)
    requires i < |answers|
    ensures var r := Land(answers, landed, gen);
      && (r[i] == answers[i] || exists k :: 0 <= k < |landed| && landed[k].gen == gen && landed[k].slot == i && r[i] == Some(landed[k].hits))
      && (answers[i].Some? ==> r[i].Some?)
      && ((exists k :: 0 <= k < |landed| && landed[k].gen == gen && landed[k].slot == i) ==> r[i].Some?)
    decreases |landed|
  {
    if landed != [] {
      var front := landed[..|landed| - 1];
      LandDoes(answers, front, gen, i);
      var r := Land(answers, front, gen);
      if r[i] != answers[i] {
        var k :| 0 <= k < |front| && front[k].gen == gen && front[k].slot == i && r[i] == Some(front[k].hits);
        assert landed[k] == front[k];
      }
      assert forall k :: 0 <= k < |front| ==> landed[k] == front[k];
    }
  }

  /** A collection that reports no change changed no answer. */
  lemma {:induction false} NoneLands(answers: seq<Option<seq<Hit>>>, landed: seq<Answer>, gen: nat)
    requires !AnyLands(landed, gen)
    ensures Land(answers, landed, gen) == answers
    decreases |landed|
  {
    if landed != [] {
      var front := landed[..|landed| - 1];
      assert forall k :: 0 <= k < |front| ==> front[k] == landed[k];
      NoneLands(answers, front, gen);
    }
  }

  lemma CollectKeeps(d: Desk, names: seq<string>, o: Oracle)
    requires Inv(d, names, o)
    ensures Inv(CollectStep(d, names), names, o)
  {
    hide Merged, Blank, Land;
    var e := CollectStep(d, names);
    forall i: nat | i < |e.sources| ensures SourceOk(e, o, i) {
      assert SourceOk(d, o, i);
    }
    if !Blank(d.query) {
      forall i: nat | i < |d.answers| ensures e.answers[i].None? || e.answers[i] == Some(o(i, d.query)) {
        CollectOne(d, names, o, i);
      }
      forall i: nat | i < |d.sources| ensures Accounted(e, i) {
        assert Accounted(d, i);
        CollectOne(d, names, o, i);
      }
    } else {
      BlankLandsNothing(d, names, o);
    }
  }

  lemma BlankLandsNothing(d: Desk, names: seq<string>, o: Oracle)
    requires Inv(d, names, o) && Blank(d.query)
    ensures !AnyLands(d.channel, d.gen)
  {
    hide Merged;
    forall k | 0 <= k < |d.channel| ensures d.channel[k].gen != d.gen {
      assert AnswerOk(d, o, d.channel[k]);
    }
  }

  lemma CollectOne(d: Desk, names: seq<string>, o: Oracle, i: nat)
    requires Inv(d, names, o) && !Blank(d.query) && i < |d.answers|
    ensures var e := CollectStep(d, names);
      && |e.answers| == |d.answers|
      && (e.answers[i].None? || e.answers[i] == Some(o(i, d.query)))
      && (d.answers[i].Some? ==> e.answers[i].Some?)
      && ((exists k :: 0 <= k < |d.channel| && d.channel[k].gen == d.gen && d.channel[k].slot == i) ==> e.answers[i].Some?)
  {
    hide Merged, Blank, Land;
    LandDoes(d.answers, d.channel, d.gen, i);
    forall k | 0 <= k < |d.channel| && d.channel[k].gen == d.gen ensures d.channel[k].hits == o(d.channel[k].slot, d.query) {
      assert AnswerOk(d, o, d.channel[k]);
    }
  }

  // ---- threads ------------------------------------------------------------------------------

  /** One source moved, and perhaps its answer with it; what the panel holds did not. */
  lemma SourceMoved(d: Desk, e: Desk, names: seq<string>, o: Oracle, i: nat)
    requires Inv(d, names, o) && i < |d.sources| && |e.unseen| == |e.sources| == |d.sources|
    requires e.gen == d.gen && e.query == d.query && e.answers == d.answers && e.found == d.found
    requires e.newest == d.newest && e.latest == d.latest
    requires forall j: nat :: j < |d.sources| && j != i ==> e.sources[j] == d.sources[j] && e.unseen[j] == d.unseen[j]
    requires d.channel <= e.channel && forall k :: |d.channel| <= k < |e.channel| ==> AnswerOk(e, o, e.channel[k])
    requires SourceOk(e, o, i) && (!Blank(d.query) && Accounted(d, i) ==> Accounted(e, i))
    ensures Inv(e, names, o)
  {
    hide Merged, Blank;
    forall j: nat | j < |e.sources| ensures SourceOk(e, o, j) {
      assert SourceOk(d, o, j);
    }
    forall k | 0 <= k < |e.channel| ensures AnswerOk(e, o, e.channel[k]) {
      if k < |d.channel| {
        assert e.channel[k] == d.channel[k] && AnswerOk(d, o, d.channel[k]);
      }
    }
    if !Blank(d.query) {
      forall j: nat | j < |e.sources| ensures Accounted(e, j) {
        assert Accounted(d, j);
        OthersAccounted(d, e, j);
      }
    }
  }

  lemma OthersAccounted(d: Desk, e: Desk, j: nat)
    requires j < |d.sources| == |d.answers| == |d.unseen| && j < |e.sources| == |e.answers| == |e.unseen|
    requires e.gen == d.gen && e.answers == d.answers && d.channel <= e.channel
    ensures e.sources[j] == d.sources[j] && e.unseen[j] == d.unseen[j] && Accounted(d, j) ==> Accounted(e, j)
  {
    assert forall k :: 0 <= k < |d.channel| ==> e.channel[k] == d.channel[k];
  }

  lemma StepKeeps(d: Desk, step: Step, names: seq<string>, o: Oracle)
    requires Inv(d, names, o)
    ensures Inv(Next(d, step, names, o), names, o)
  {
    hide Merged, Blank, Land;
    var e := Next(d, step, names, o);
    match step {
      case Put(query) => PutKeeps(d, query, names, o);
      case Collect => CollectKeeps(d, names, o);
      case Wake(i) =>
        if e != d {
          SourceMoved(d, e, names, o, i);
        }
      case Finish(i) =>
        if i < |d.sources| && d.sources[i].Searching? {
          assert SourceOk(d, o, i);
          SourceMoved(d, e, names, o, i);
        }
      case Send(i) =>
        if i < |d.sources| && d.sources[i].Sending? {
          assert SourceOk(d, o, i);
          assert e.channel[|d.channel|] == Answer(d.sources[i].gen, i, d.sources[i].hits);
          SourceMoved(d, e, names, o, i);
        }
      case Die(i) =>
        if i < |d.sources| {
          SourceMoved(d, e, names, o, i);
        }
    }
  }

  lemma {:induction false} RunKeeps(n: nat, steps: seq<Step>, names: seq<string>, o: Oracle)
    ensures Inv(After(Fresh(n), steps, names, o), names, o)
    ensures |After(Fresh(n), steps, names, o).sources| == n
    decreases |steps|
  {
    hide Inv, Next;
    if steps == [] {
      FreshKeeps(n, names, o);
    } else {
      var front := steps[..|steps| - 1];
      RunKeeps(n, front, names, o);
      StepKeeps(After(Fresh(n), front, names, o), steps[|steps| - 1], names, o);
      SameSources(After(Fresh(n), front, names, o), steps[|steps| - 1], names, o);
    }
  }

  lemma SameSources(d: Desk, step: Step, names: seq<string>, o: Oracle)
    ensures |Next(d, step, names, o).sources| == |d.sources|
  {
    hide Merged, Blank, Land;
  }

  /** Once every source has answered the question standing, the list is the one
      the same providers give where they are asked: whatever order the answers
      came in, and whatever answers to older questions came with them. */
  lemma OneList(n: nat, steps: seq<Step>, names: seq<string>, o: Oracle)
    ensures var d := After(Fresh(n), steps, names, o);
      !Pending(d) ==> d.found == InlineFound(names, n, o, d.query)
  {
    hide After, Merged, Blank;
    RunKeeps(n, steps, names, o);
    var d := After(Fresh(n), steps, names, o);
    if Blank(d.query) {
      NothingMerged(names, 0);
    } else if !Pending(d) {
      assert d.answers == AllAnswers(n, o, d.query);
    }
  }

  /** Until then the list is what those that have answered make: rows of the
      final list's sources, in its order. */
  lemma SoFar(n: nat, steps: seq<Step>, names: seq<string>, o: Oracle)
    ensures var d := After(Fresh(n), steps, names, o);
      && d.found == Merged(names, d.answers)
      && (forall i: nat :: i < |d.answers| ==> d.answers[i].None? || d.answers[i] == Some(o(i, d.query)))
  {
    hide After, Merged, Blank;
    RunKeeps(n, steps, names, o);
  }

  predicate Quiet(d: Desk) {
    d.channel == [] && forall i: nat :: i < |d.sources| ==> d.sources[i] == Idle && (i < |d.unseen| ==> !d.unseen[i])
  }

  /** With no thread dead and nothing under way, no answer is owed. */
  lemma QuietAnswers(n: nat, steps: seq<Step>, names: seq<string>, o: Oracle)
    ensures var d := After(Fresh(n), steps, names, o);
      Quiet(d) ==> !Pending(d)
  {
    hide After, Merged, Blank;
    RunKeeps(n, steps, names, o);
    var d := After(Fresh(n), steps, names, o);
    if Quiet(d) && !Blank(d.query) {
      forall i: nat | i < |d.answers| ensures d.answers[i].Some? {
        assert Accounted(d, i);
      }
    }
  }
}
