/** The server-sent event reader: lines out of whatever the socket hands over. */
module Sse {
  import opened Base
  import opened Utf8

  type Bytes = seq<Byte>

  const LF: Byte := 10
  const CR: Byte := 13
  const SPACE: Byte := 32

  /** `data:` */
  const DATA: Bytes := [100, 97, 116, 97, 58]

  /** `[DONE]` */
  const DONE: Bytes := [91, 68, 79, 78, 69, 93]

  // ---- the one-shot parser -----------------------------------------------------------

  /** The first line feed, or the length when there is none. */
  function LineEnd(s: Bytes): (n: nat)
    ensures n <= |s|
    ensures forall k :: 0 <= k < n ==> s[k] != LF
    ensures n < |s| ==> s[n] == LF
  {
    if s == [] || s[0] == LF then 0 else 1 + LineEnd(s[1..])
  }

  /** Lines, each without its line feed; a last one need not have one. */
  function Lines(s: Bytes): seq<Bytes> {
    if s == [] then []
    else
      var n := LineEnd(s);
      [s[..n]] + (if n == |s| then [] else Lines(s[n + 1..]))
  }

  /** A carriage return before the line feed belongs to the line's end. */
  function Chomp(line: Bytes): Bytes {
    if line != [] && line[|line| - 1] == CR then line[..|line| - 1] else line
  }

  function Join(data: seq<Bytes>): Bytes {
    if data == [] then []
    else if |data| == 1 then data[0]
    else data[0] + [LF] + Join(data[1..])
  }

  predicate IsData(line: Bytes) {
    |line| >= |DATA| && line[..|DATA|] == DATA
  }

  /** The value of a `data:` line: one space after the colon is not part of it. */
  function ValueOf(line: Bytes): Bytes
    requires IsData(line)
  {
    var rest := line[|DATA|..];
    if rest != [] && rest[0] == SPACE then rest[1..] else rest
  }

  /** What a reader hands its caller. */
  datatype Out = Event(data: Bytes) | NotUtf8

  /** Everything a stream of these lines comes to, when `data` is waiting for
      its event to end: events, lines that are not text, nothing after `[DONE]`. */
  function Interpret(lines: seq<Bytes>, data: seq<Bytes>): seq<Out>
    decreases |lines|, 0
  {
    if lines == [] then if data == [] then [] else [Event(Join(data))]
    else Onward(Chomp(lines[0]), lines[1..], data)
  }

  function Onward(line: Bytes, rest: seq<Bytes>, data: seq<Bytes>): seq<Out>
    decreases |rest|, 1
  {
    if !WellFormed(line) then [NotUtf8] + Interpret(rest, data)
    else if line == [] then
      if data == [] then Interpret(rest, []) else [Event(Join(data))] + Interpret(rest, [])
    else if !IsData(line) then Interpret(rest, data)
    else if ValueOf(line) == DONE then []
    else Interpret(rest, data + [ValueOf(line)])
  }

  // ---- the wire ------------------------------------------------------------------------

  /** What one poll of the stream comes to: some bytes (none at its end), an
      interruption the reader retries, a failure, or the waiting future dropped. */
  datatype Read = Got(bytes: Bytes) | Interrupted | Failed | Dropped

  /** The bytes still to come: all of them, however they are cut. */
  function Ahead(polls: seq<Read>): Bytes {
    if polls == [] then []
    else if polls[0].Got? then
      if polls[0].bytes == [] then [] else polls[0].bytes + Ahead(polls[1..])
    else Ahead(polls[1..])
  }

  /** What a call for the next event answers. */
  datatype Next = NextEvent(data: Bytes) | BadLine | End | ReadFailed | Cancelled

  /** What an answer takes off the front of what is still to come. */
  predicate Answers(next: Next, before: seq<Out>, after: seq<Out>) {
    match next
    case NextEvent(data) => before == [Event(data)] + after
    case BadLine => before == [NotUtf8] + after
    case End => before == [] && after == []
    case ReadFailed => after == before
    case Cancelled => after == before
  }

  datatype Filled = More | Ended | Broken | Abandoned

  // ---- lines and how they are cut ----------------------------------------------------------

  lemma LinesFirst(s: Bytes, n: nat)
    requires n < |s| && s[n] == LF && forall k :: 0 <= k < n ==> s[k] != LF
    ensures LineEnd(s) == n
    ensures Lines(s) == [s[..n]] + Lines(s[n + 1..])
  {
  }

  /** A line feed at the very end ends the last line and starts no other. */
  lemma {:induction false} LinesEnded(s: Bytes)
    requires s != [] && LineEnd(s) == |s|
    ensures Lines(s + [LF]) == Lines(s)
  {
    var t := s + [LF];
    forall k | 0 <= k < |s| ensures t[k] != LF {
      assert t[k] == s[k];
    }
    LinesFirst(t, |s|);
    assert t[..|s|] == s && t[|s| + 1..] == [] && s[..|s|] == s;
  }

  /** The first line of `was`, its ending dropped, and what is left behind it. */
  predicate Taken(was: Bytes, line: Bytes, left: Bytes) {
    var n := LineEnd(was);
    n < |was| && line == Chomp(was[..n]) && left == was[n + 1..]
  }

  lemma FirstLineStays(was: Bytes, n: nat, ahead: Bytes)
    requires n == LineEnd(was) < |was|
    ensures Lines(was + ahead) == [was[..n]] + Lines(was[n + 1..] + ahead)
  {
    hide Lines;
    var s := was + ahead;
    assert forall k :: 0 <= k < |was| ==> s[k] == was[k];
    LinesFirst(s, n);
    assert s[..n] == was[..n] && s[n + 1..] == was[n + 1..] + ahead;
  }

  /** A whole line in the buffer is the first line of the stream, whatever follows. */
  lemma LineTaken(was: Bytes, line: Bytes, left: Bytes, ahead: Bytes, data: seq<Bytes>)
    requires Taken(was, line, left)
    ensures Interpret(Lines(was + ahead), data) == Onward(line, Lines(left + ahead), data)
  {
    hide WellFormed, IsData, ValueOf, Join, Chomp, Lines, LineEnd, Onward;
    FirstLineStays(was, LineEnd(was), ahead);
  }

  lemma OneLine(line: Bytes, rest: seq<Bytes>, data: seq<Bytes>)
    ensures !WellFormed(line) ==> Onward(line, rest, data) == [NotUtf8] + Interpret(rest, data)
    ensures WellFormed(line) && line == [] && data == [] ==> Onward(line, rest, data) == Interpret(rest, [])
    ensures WellFormed(line) && line == [] && data != [] ==>
      Onward(line, rest, data) == [Event(Join(data))] + Interpret(rest, [])
    ensures WellFormed(line) && line != [] && !IsData(line) ==> Onward(line, rest, data) == Interpret(rest, data)
    ensures WellFormed(line) && line != [] && IsData(line) ==>
      Onward(line, rest, data) == if ValueOf(line) == DONE then [] else Interpret(rest, data + [ValueOf(line)])
  {
  }

  /** At the end of the stream a last line resolves as if it had been ended. */
  lemma StreamEnded(buf: Bytes, ahead: Bytes)
    requires LineEnd(buf) == |buf| && ahead == []
    ensures buf != [] ==> Lines(buf + [LF] + []) == Lines(buf + ahead)
    ensures buf == [] ==> Lines(buf + []) == Lines(buf + ahead)
  {
    hide Lines, LineEnd;
    assert buf + [LF] + [] == buf + [LF];
    assert buf + ahead == buf;
    if buf != [] {
      LinesEnded(buf);
    }
  }

  lemma NothingBuffered(buf: Bytes, ahead: Bytes, data: seq<Bytes>)
    requires LineEnd(buf) == |buf| && ahead == [] && (buf == [] || buf[|buf| - 1] == LF)
    ensures buf == []
    ensures Interpret(Lines(buf + ahead), []) == []
    ensures Interpret(Lines(buf + ahead), data) == if data == [] then [] else [Event(Join(data))]
  {
  }

  // ---- the reader -------------------------------------------------------------------------

  class SseReader {
    /** What the underlying stream will still answer. */
    var inner: seq<Read>
    /** What no newline has ended so far. */
    var buf: Bytes
    var data: seq<Bytes>
    var eof: bool
    var done: bool

    /** At the end of the stream only whole lines are left to drain. */
    ghost predicate Valid()
      reads this
    {
      eof && !done ==> buf == [] || buf[|buf| - 1] == LF
    }

    /** Everything this reader will still hand out. */
    ghost function Future(): seq<Out>
      reads this
    {
      if done then [] else Interpret(Lines(buf + (if eof then [] else Ahead(inner))), data)
    }

    constructor (polls: seq<Read>)
      ensures Valid() && inner == polls && !done
      ensures Future() == Interpret(Lines(Ahead(polls)), [])
    {
      inner, buf, data, eof, done := polls, [], [], false, false;
      new;
      assert [] + Ahead(polls) == Ahead(polls);
    }

    /** Cuts a line off the buffer, if a newline is in it. */
    method TakeLine() returns (line: Option<Bytes>)
      modifies this`buf
      ensures line.None? ==> buf == old(buf) && LineEnd(buf) == |buf|
      ensures line.Some? ==> Taken(old(buf), line.value, buf) && |buf| < |old(buf)|
      ensures line.Some? ==> buf == [] || buf[|buf| - 1] == old(buf)[|old(buf)| - 1]
    {
      var nl := 0;
      while nl < |buf| && buf[nl] != LF
        invariant nl <= |buf| && forall k :: 0 <= k < nl ==> buf[k] != LF
      {
        nl := nl + 1;
      }
      LineEndIs(buf, nl);
      if nl == |buf| {
        return None;
      }
      var taken := buf[..nl];
      buf := buf[nl + 1..];
      if taken != [] && taken[|taken| - 1] == CR {
        taken := taken[..|taken| - 1];
      }
      line := Some(taken);
    }

    /** Appends what the next read brings; an interrupted read counts for nothing. */
    method Fill() returns (filled: Filled)
      modifies this`inner, this`buf
      ensures |inner| <= |old(inner)|
      ensures match filled
        case More => old(buf) + Ahead(old(inner)) == buf + Ahead(inner) && |inner| < |old(inner)|
        case Ended => buf == old(buf) && Ahead(old(inner)) == []
        case _ => buf == old(buf) && Ahead(inner) == Ahead(old(inner)) && |inner| < |old(inner)|
    {
      while inner != []
        invariant buf == old(buf) && Ahead(inner) == Ahead(old(inner)) && |inner| <= |old(inner)|
        decreases |inner|
      {
        var read := inner[0];
        inner := inner[1..];
        match read {
          case Got(bytes) =>
            if bytes == [] {
              return Ended;
            }
            buf := buf + bytes;
            return More;
          case Interrupted =>
          case Failed => return Broken;
          case Dropped => return Abandoned;
        }
      }
      filled := Ended;
    }

    /** Drains the whole lines in the buffer, up to one that answers the caller. */
    method Drain() returns (next: Option<Next>)
      requires Valid() && !done
      modifies this`buf, this`data, this`done
      ensures Valid()
      ensures next.None? ==> !done && Future() == old(Future()) && LineEnd(buf) == |buf|
      ensures next.Some? ==> Answers(next.value, old(Future()), Future()) && !next.value.ReadFailed? && !next.value.Cancelled?
    {
      hide WellFormed, IsData, ValueOf, Join, Chomp, Lines, LineEnd, Ahead, Interpret, Onward, Taken;
      ghost var ahead := if eof then [] else Ahead(inner);
      ghost var was := buf;
      ghost var all := Future();
      var line := TakeLine();
      while line.Some?
        invariant Valid() && !done
        invariant line.None? ==> was == buf && LineEnd(buf) == |buf| && all == Interpret(Lines(buf + ahead), data)
        invariant line.Some? ==> Taken(was, line.value, buf) && all == Interpret(Lines(was + ahead), data)
        decreases line.Some?, |buf|
      {
        LineTaken(was, line.value, buf, ahead, data);
        OneLine(line.value, Lines(buf + ahead), data);
        if !WellFormed(line.value) {
          return Some(BadLine);
        }
        if line.value == [] {
          if data != [] {
            var text := Join(data);
            data := [];
            return Some(NextEvent(text));
          }
        } else if IsData(line.value) {
          var value := ValueOf(line.value);
          if value == DONE {
            done := true;
            return Some(End);
          }
          data := data + [value];
        }
        was := buf;
        line := TakeLine();
      }
      next := None;
    }

    /** One event, or what stands in the way of one; once done, done for good. */
    method Next() returns (next: Next)
      requires Valid()
      modifies this
      ensures Valid()
      ensures Answers(next, old(Future()), Future())
      ensures |inner| <= |old(inner)|
      ensures next.ReadFailed? || next.Cancelled? ==> |inner| < |old(inner)|
    {
      hide WellFormed, IsData, ValueOf, Join, Chomp, Lines, LineEnd, Ahead, Interpret, Onward;
      if done {
        return End;
      }
      ghost var all := Future();
      while true
        invariant Valid() && !done && Future() == all && |inner| <= |old(inner)|
        decreases !eof, |inner|
      {
        var drained := Drain();
        if drained.Some? {
          return drained.value;
        }
        ghost var ahead := if eof then [] else Ahead(inner);
        if eof {
          NothingBuffered(buf, ahead, data);
          if data == [] {
            return End;
          }
          var text := Join(data);
          data := [];
          return NextEvent(text);
        }
        var filled := Fill();
        match filled {
          case More =>
          case Ended =>
            StreamEnded(buf, ahead);
            eof := true;
            if buf != [] {
              buf := buf + [LF];
            }
          case Broken => return ReadFailed;
          case Abandoned => return Cancelled;
        }
      }
    }
  }

  lemma LineEndIs(s: Bytes, n: nat)
    requires n <= |s| && (forall k :: 0 <= k < n ==> s[k] != LF) && (n < |s| ==> s[n] == LF)
    ensures LineEnd(s) == n
  {
  }

  // ---- every run ---------------------------------------------------------------------------

  /** A caller who asks until the stream ends, and asks again after a failed
      read or an abandoned wait, gets what the bytes alone say: how they were
      cut, and where the reading was interrupted, leaves no trace. */
  method ReadAll(polls: seq<Read>) returns (outs: seq<Out>)
    ensures outs == Interpret(Lines(Ahead(polls)), [])
  {
    hide Interpret, Onward, Lines, Ahead, SseReader.Future;
    var reader := new SseReader(polls);
    ghost var all := reader.Future();
    outs := [];
    while true
      invariant fresh(reader) && reader.Valid() && all == outs + reader.Future()
      decreases |reader.Future()|, |reader.inner|
    {
      var next := reader.Next();
      match next {
        case NextEvent(text) => outs := outs + [Event(text)];
        case BadLine => outs := outs + [NotUtf8];
        case End => return;
        case ReadFailed =>
        case Cancelled =>
      }
    }
  }

  /** Two ways of cutting and interrupting the same bytes. */
  lemma {:induction false} PiecesJoin(pieces: seq<Bytes>, polls: seq<Read>)
    requires |polls| == |pieces|
    requires forall k :: 0 <= k < |pieces| ==> pieces[k] != [] && polls[k] == Got(pieces[k])
    ensures Ahead(polls) == Concat(pieces)
  {
    if pieces != [] {
      PiecesJoin(pieces[1..], polls[1..]);
    }
  }

  function Concat(pieces: seq<Bytes>): Bytes {
    if pieces == [] then [] else pieces[0] + Concat(pieces[1..])
  }

  // ---- text ----------------------------------------------------------------------------------

  predicate IsText(line: Bytes) {
    WellFormed(Chomp(line))
  }

  predicate EndsStream(line: Bytes) {
    IsData(Chomp(line)) && ValueOf(Chomp(line)) == DONE
  }

  /** Every line is text, up to the first that ends the stream. */
  predicate TextUntilDone(lines: seq<Bytes>) {
    lines == [] || (IsText(lines[0]) && (EndsStream(lines[0]) || TextUntilDone(lines[1..])))
  }

  /** The not-UTF-8 error comes exactly when a line before the end is not text. */
  lemma {:induction false} BadLineExactly(lines: seq<Bytes>, data: seq<Bytes>)
    ensures NotUtf8 !in Interpret(lines, data) <==> TextUntilDone(lines)
    decreases |lines|
  {
    hide WellFormed, Join, ValueOf, Onward;
    if lines != [] {
      var line, rest := Chomp(lines[0]), lines[1..];
      OneLine(line, rest, data);
      BadLineExactly(rest, data);
      BadLineExactly(rest, []);
      if WellFormed(line) && IsData(line) {
        BadLineExactly(rest, data + [ValueOf(line)]);
      }
    }
  }

  lemma ChompKeepsText(line: Bytes)
    ensures WellFormed(Chomp(line)) <==> WellFormed(line)
  {
    var n := |line|;
    if line != [] && line[n - 1] == CR {
      CutBeforeAscii(line[..n - 1], [CR]);
      AsciiFirst(CR, []);
      assert [CR] + [] == [CR] && line[..n - 1] + [CR] == line;
    }
  }

  predicate AllText(lines: seq<Bytes>) {
    lines == [] || (IsText(lines[0]) && AllText(lines[1..]))
  }

  /** A stream is UTF-8 exactly when each of its lines is: a line feed is a
      byte no longer character contains. */
  lemma {:induction false} TextLineByLine(s: Bytes)
    ensures WellFormed(s) <==> AllText(Lines(s))
    decreases |s|
  {
    hide WellFormed, Chomp;
    if s == [] {
      EmptyIsText();
    } else {
      var n := LineEnd(s);
      ChompKeepsText(s[..n]);
      if n == |s| {
        assert s[..n] == s && Lines(s) == [s] && Lines(s)[1..] == [];
      } else {
        var rest := s[n + 1..];
        TextLineByLine(rest);
        CutBeforeAscii(s[..n], [LF] + rest);
        AsciiFirst(LF, rest);
        assert s == s[..n] + ([LF] + rest);
        assert Lines(s) == [s[..n]] + Lines(rest) && Lines(s)[1..] == Lines(rest);
      }
    }
  }

  lemma EmptyIsText()
    ensures WellFormed([])
  {
  }

  lemma {:induction false} AllTextUntilDone(lines: seq<Bytes>)
    requires AllText(lines)
    ensures TextUntilDone(lines)
  {
    if lines != [] {
      AllTextUntilDone(lines[1..]);
    }
  }

  /** A stream that is UTF-8 as a whole never yields the not-UTF-8 error,
      wherever its characters were cut. */
  lemma TextNeverBad(polls: seq<Read>)
    requires WellFormed(Ahead(polls))
    ensures NotUtf8 !in Interpret(Lines(Ahead(polls)), [])
  {
    hide WellFormed, Interpret, AllText;
    TextLineByLine(Ahead(polls));
    AllTextUntilDone(Lines(Ahead(polls)));
    BadLineExactly(Lines(Ahead(polls)), []);
  }
}
