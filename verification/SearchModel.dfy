/** One question, many sources: the ask, the threads that answer, and the
    answers as they land. */
module SearchModel {
  import opened Base
  import opened SearchMerge

  datatype Ask = Ask(gen: nat, query: string)

  datatype Answer = Answer(gen: nat, slot: nat, hits: seq<Hit>)

  /** What a source finds for a query, given the time to finish. */
  type Oracle = (nat, string) -> seq<Hit>

  /** Where a source's thread is. A dead one never answers again. */
  datatype Source = Idle | Searching(ask: Ask) | Sending(gen: nat, hits: seq<Hit>) | Dead

  /** The question standing and what has answered it; and the engine under it:
      the newest generation, the newest ask and who has not seen it, the
      threads, and the answers on their way. */
  datatype Desk = Desk(gen: nat, query: string, answers: seq<Option<seq<Hit>>>, found: seq<Found>,
                       newest: nat, latest: Option<Ask>, unseen: seq<bool>, sources: seq<Source>, channel: seq<Answer>)

  function Fresh(n: nat): Desk {
    Desk(0, "", [], [], 0, None, seq(n, _ => false), seq(n, _ => Idle), [])
  }

  predicate Blank(query: string) {
    forall k :: 0 <= k < |query| ==> IsWhitespace(query[k])
  }

  function Unanswered(n: nat): seq<Option<seq<Hit>>> {
    seq(n, _ => None)
  }

  predicate Pending(d: Desk) {
    !Blank(d.query) && exists i :: 0 <= i < |d.answers| && d.answers[i].None?
  }

  // ---- the panel's side ---------------------------------------------------------------

  /** A blank question goes to no source, though it too is a new generation. */
  function AskStep(d: Desk, query: string): Desk {
    var e := d.(gen := d.gen + 1, query := query, answers := [], found := []);
    if Blank(query) then e
    else
      e.(answers := Unanswered(|d.sources|), newest := e.gen, latest := Some(Ask(e.gen, query)),
         unseen := seq(|d.sources|, _ => true))
  }

  function Land(answers: seq<Option<seq<Hit>>>, landed: seq<Answer>, gen: nat): (r: seq<Option<seq<Hit>>>)
    ensures |r| == |answers|
  {
    if landed == [] then answers
    else
      var last := landed[|landed| - 1];
      var before := Land(answers, landed[..|landed| - 1], gen);
      if last.gen == gen && last.slot < |answers| then before[last.slot := Some(last.hits)] else before
  }

  predicate AnyLands(landed: seq<Answer>, gen: nat) {
    exists k :: 0 <= k < |landed| && landed[k].gen == gen
  }

  /** Answers to an older question are dropped. */
  function CollectStep(d: Desk, names: seq<string>): Desk {
    var e := d.(channel := []);
    if !AnyLands(d.channel, d.gen) then e
    else
      var answers := Land(d.answers, d.channel, d.gen);
      e.(answers := answers, found := Merged(names, answers))
  }

  // ---- the threads' side ----------------------------------------------------------------

  datatype Step = Put(query: string) | Collect | Wake(i: nat) | Finish(i: nat) | Send(i: nat) | Die(i: nat)

  function At(d: Desk, i: nat, source: Source): Desk
    requires i < |d.sources|
  {
    d.(sources := d.sources[i := source])
  }

  /** A source done searching: nothing it found is read if a newer question stands. */
  function Finished(d: Desk, o: Oracle, i: nat): Desk
    requires i < |d.sources| && d.sources[i].Searching?
  {
    var ask := d.sources[i].ask;
    if d.newest > ask.gen then At(d, i, Idle) else At(d, i, Sending(ask.gen, o(i, ask.query)))
  }

  function Next(d: Desk, step: Step, names: seq<string>, o: Oracle): Desk {
    match step
    case Put(query) => AskStep(d, query)
    case Collect => CollectStep(d, names)
    case Wake(i) =>
      if i < |d.sources| && i < |d.unseen| && d.sources[i].Idle? && d.unseen[i] && d.latest.Some?
      then At(d, i, Searching(d.latest.value)).(unseen := d.unseen[i := false]) else d
    case Finish(i) => if i < |d.sources| && d.sources[i].Searching? then Finished(d, o, i) else d
    case Send(i) =>
      if i < |d.sources| && d.sources[i].Sending?
      then At(d, i, Idle).(channel := d.channel + [Answer(d.sources[i].gen, i, d.sources[i].hits)]) else d
    case Die(i) => if i < |d.sources| then At(d, i, Dead) else d
  }

  function After(d: Desk, steps: seq<Step>, names: seq<string>, o: Oracle): Desk
    decreases |steps|
  {
    if steps == [] then d else Next(After(d, steps[..|steps| - 1], names, o), steps[|steps| - 1], names, o)
  }

  // ---- without threads --------------------------------------------------------------------------

  function AllAnswers(n: nat, o: Oracle, query: string): seq<Option<seq<Hit>>> {
    seq(n, i requires 0 <= i < n => Some(o(i, query)))
  }

  function InlineFound(names: seq<string>, n: nat, o: Oracle, query: string): seq<Found> {
    if Blank(query) then [] else Merged(names, AllAnswers(n, o, query))
  }

  // ---- the rules ----------------------------------------------------------------------------------

  predicate AskOk(d: Desk, ask: Ask) {
    0 < ask.gen <= d.newest && (ask.gen == d.gen ==> ask.query == d.query)
  }

  ghost predicate SourceOk(d: Desk, o: Oracle, i: nat)
    requires i < |d.sources|
  {
    match d.sources[i]
    case Searching(ask) => AskOk(d, ask)
    case Sending(gen, hits) => 0 < gen <= d.newest && (gen == d.gen ==> hits == o(i, d.query))
    case _ => true
  }

  ghost predicate AnswerOk(d: Desk, o: Oracle, a: Answer) {
    0 < a.gen <= d.newest && a.slot < |d.sources| && (a.gen == d.gen ==> a.hits == o(a.slot, d.query))
  }

  /** Source `i` has answered the question standing, or its answer is on its
      way, or it has the question before it, or it is dead. */
  predicate Accounted(d: Desk, i: nat)
    requires i < |d.sources| == |d.answers| == |d.unseen|
  {
    || d.answers[i].Some?
    || (exists k :: 0 <= k < |d.channel| && d.channel[k].gen == d.gen && d.channel[k].slot == i)
    || (d.sources[i].Sending? && d.sources[i].gen == d.gen)
    || (d.sources[i].Searching? && d.sources[i].ask.gen == d.gen)
    || d.unseen[i]
    || d.sources[i].Dead?
  }

  ghost predicate Standing(d: Desk, names: seq<string>, o: Oracle) {
    && d.found == Merged(names, d.answers)
    && if Blank(d.query) then d.answers == [] && (d.newest < d.gen || d.newest == d.gen == 0)
       else
         && |d.answers| == |d.sources| == |d.unseen| && d.newest == d.gen && d.latest == Some(Ask(d.gen, d.query))
         && (forall i: nat :: i < |d.answers| ==> d.answers[i].None? || d.answers[i] == Some(o(i, d.query)))
         && (forall i: nat :: i < |d.sources| ==> Accounted(d, i))
  }

  ghost predicate Inv(d: Desk, names: seq<string>, o: Oracle) {
    && |d.unseen| == |d.sources|
    && Standing(d, names, o)
    && (d.latest.Some? ==> AskOk(d, d.latest.value))
    && (forall i: nat :: i < |d.sources| ==> SourceOk(d, o, i))
    && (forall k :: 0 <= k < |d.channel| ==> AnswerOk(d, o, d.channel[k]))
  }
}
