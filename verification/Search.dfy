/** The question a panel holds, over threads or over providers run in place. */
module Search {
  import opened Base
  import opened SearchMerge
  import M = SearchModel
  import opened SearchRun

  /** Put, and whatever is already back taken at once. */
  function Asked(d: M.Desk, text: string, names: seq<string>): M.Desk {
    var put := M.AskStep(d, text);
    if M.Blank(text) then put else M.CollectStep(put, names)
  }

  /** The newest ask, before every thread. */
  function Sent(d: M.Desk, text: string): M.Desk {
    d.(newest := d.gen, latest := Some(M.Ask(d.gen, text)), unseen := seq(|d.sources|, _ => true))
  }

  class Query {
    /** The names of the sources, first registered first. */
    const names: seq<string>
    const search: M.Oracle
    /** No threads: each provider answers within the ask. */
    const inline: bool

    var gen: nat
    var query: string
    var answers: seq<Option<seq<Hit>>>
    var found: seq<Found>

    var newest: nat
    var latest: Option<M.Ask>
    var unseen: seq<bool>
    var sources: seq<M.Source>
    /** Answers on their way from the threads; in place, those just made. */
    var channel: seq<M.Answer>

    ghost function Value(): M.Desk
      reads this
    {
      M.Desk(gen, query, answers, found, newest, latest, unseen, sources, channel)
    }

    constructor (names: seq<string>, search: M.Oracle, inline: bool)
      ensures Value() == M.Fresh(|names|)
      ensures this.names == names && this.search == search && this.inline == inline
    {
      this.names, this.search, this.inline := names, search, inline;
      gen, query, answers, found, newest, latest := 0, "", [], [], 0, None;
      unseen, sources, channel := seq(|names|, _ => false), seq(|names|, _ => M.Idle), [];
    }

    /** Somebody asked has not answered yet. */
    method PendingNow() returns (pending: bool)
      ensures pending == M.Pending(Value())
    {
      if M.Blank(query) {
        return false;
      }
      for i := 0 to |answers|
        invariant forall j :: 0 <= j < i ==> answers[j].Some?
      {
        if answers[i].None? {
          return true;
        }
      }
      return false;
    }

    /** Puts a question. Threads are sent away; in place, every source has
        answered by the time this returns. */
    method Ask(text: string)
      requires |sources| == |names|
      modifies this
      ensures |sources| == |names|
      ensures !inline ==> Value() == Asked(old(Value()), text, names)
      ensures inline ==> found == M.InlineFound(names, |names|, search, text) && !M.Pending(Value())
    {
      hide Merged, M.Blank, M.Land;
      gen := gen + 1;
      query := text;
      answers := [];
      found := [];
      if M.Blank(text) {
        return;
      }
      answers := M.Unanswered(|sources|);
      EngineAsk(text);
      if inline {
        InPlace(channel, names, search, text, gen);
      }
      var changed := Collect();
    }

    /** Threads with an older question may go on; their answers no longer count. */
    method EngineAsk(text: string)
      requires |sources| == |names|
      modifies this
      ensures gen == old(gen) && query == old(query) && answers == old(answers) && found == old(found) && |sources| == |names|
      ensures !inline ==> Value() == Sent(old(Value()), text)
      ensures inline ==> channel == Made(search, text, gen, |names|)
    {
      newest := gen;
      if inline {
        channel := [];
        for slot := 0 to |names|
          invariant gen == old(gen) && query == old(query) && answers == old(answers) && found == old(found) && sources == old(sources)
          invariant channel == Made(search, text, gen, slot)
        {
          var hits := search(slot, text);
          channel := channel + [M.Answer(gen, slot, hits)];
        }
      } else {
        latest := Some(M.Ask(gen, text));
        unseen := seq(|sources|, _ => true);
      }
    }

    /** Empties the channel into the answers of the latest question. */
    method Collect() returns (changed: bool)
      modifies this
      ensures Value() == M.CollectStep(old(Value()), names)
      ensures changed == M.AnyLands(old(channel), gen)
    {
      hide Merged, M.Land;
      var landed := channel;
      channel := [];
      changed := false;
      var now := answers;
      NoneLanded(answers, landed, gen);
      for k := 0 to |landed|
        invariant now == M.Land(answers, landed[..k], gen)
        invariant changed == M.AnyLands(landed[..k], gen)
        invariant Value() == old(Value()).(channel := [])
      {
        OneLandMore(answers, landed, gen, k);
        if landed[k].gen == gen {
          changed := true;
          if landed[k].slot < |now| {
            now := now[landed[k].slot := Some(landed[k].hits)];
          }
        }
      }
      assert landed[..|landed|] == landed;
      if changed {
        answers := now;
        var rows := Merge(names, answers);
        found := rows;
      }
    }
  }

  lemma OneLandMore(answers: seq<Option<seq<Hit>>>, landed: seq<M.Answer>, gen: nat, k: nat)
    requires k < |landed|
    ensures var before, last := M.Land(answers, landed[..k], gen), landed[k];
      M.Land(answers, landed[..k + 1], gen) == if last.gen == gen && last.slot < |answers| then before[last.slot := Some(last.hits)] else before
    ensures M.AnyLands(landed[..k + 1], gen) <==> M.AnyLands(landed[..k], gen) || landed[k].gen == gen
  {
    var front, more := landed[..k], landed[..k + 1];
    assert more[..k] == front && more[k] == landed[k];
    if M.AnyLands(more, gen) && landed[k].gen != gen {
      var j :| 0 <= j < |more| && more[j].gen == gen;
      assert front[j].gen == gen;
    }
    if M.AnyLands(front, gen) {
      var j :| 0 <= j < |front| && front[j].gen == gen;
      assert more[j].gen == gen;
    }
  }

  lemma NoneLanded(answers: seq<Option<seq<Hit>>>, landed: seq<M.Answer>, gen: nat)
    ensures M.Land(answers, landed[..0], gen) == answers && !M.AnyLands(landed[..0], gen)
  {
  }

  /** What providers run in place answer. */
  function Made(search: M.Oracle, text: string, gen: nat, n: nat): seq<M.Answer> {
    if n == 0 then [] else Made(search, text, gen, n - 1) + [M.Answer(gen, n - 1, search(n - 1, text))]
  }

  lemma {:induction false} MadeLands(search: M.Oracle, text: string, gen: nat, n: nat, all: nat)
    requires n <= all
    ensures var r := M.Land(M.Unanswered(all), Made(search, text, gen, n), gen);
      forall i: nat :: i < all ==> r[i] == if i < n then Some(search(i, text)) else None
    ensures n > 0 ==> M.AnyLands(Made(search, text, gen, n), gen)
  {
    if n > 0 {
      var made := Made(search, text, gen, n);
      MadeLands(search, text, gen, n - 1, all);
      assert made[..|made| - 1] == Made(search, text, gen, n - 1);
      assert made[|made| - 1].gen == gen;
    }
  }

  /** In place, every source has answered once the answers are taken. */
  lemma InPlace(channel: seq<M.Answer>, names: seq<string>, search: M.Oracle, text: string, gen: nat)
    requires channel == Made(search, text, gen, |names|)
    ensures M.Land(M.Unanswered(|names|), channel, gen) == M.AllAnswers(|names|, search, text)
    ensures names != [] ==> M.AnyLands(channel, gen)
    ensures names == [] ==> channel == [] && Merged(names, M.AllAnswers(0, search, text)) == []
  {
    hide Merged;
    MadeLands(search, text, gen, |names|, |names|);
    NothingMerged(names, 0);
    assert M.AllAnswers(0, search, text) == [];
  }
}
