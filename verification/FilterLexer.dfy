/** The filter lexer: what each scanning step reads, and the loops that do it. */
module FilterLexer {
  import opened Base
  import opened FilterSyntax

  /** What one step adds to the output, and where the cursor stands after it. */
  datatype Scan = Scan(toks: seq<Tok>, errs: seq<ParseError>, next: nat)

  predicate Peek(c: string, i: nat, ch: char) {
    i < |c| && c[i] == ch
  }

  /** A tag ends at the end of the line, a space, or a closing parenthesis. */
  predicate TagStops(c: string, i: nat) {
    i >= |c| || c[i] == ' ' || c[i] == ')'
  }

  /** What may follow a tag name without being skipped. */
  predicate AfterName(ch: char) {
    ch == ':' || ch == '>' || ch == '<' || ch == '(' || ch == ')' || ch == ' '
  }

  // ---- what is read ---------------------------------------------------------

  /** The end of the run of tag characters starting at `i`. */
  function NameEnd(c: string, i: nat): (j: nat)
    requires i <= |c|
    ensures i <= j <= |c|
    ensures forall k :: i <= k < j ==> IsTagChar(c[k])
    ensures j < |c| ==> !IsTagChar(c[j])
    decreases |c| - i
  {
    if i < |c| && IsTagChar(c[i]) then NameEnd(c, i + 1) else i
  }

  /** Where reading goes on after a name: a character that cannot follow one is skipped. */
  function NameNext(c: string, j: nat): (k: nat)
    requires j <= |c|
    ensures j <= k <= |c|
  {
    if j == |c| || AfterName(c[j]) then j else j + 1
  }

  /** The name at `i`, normalized, and where reading goes on after it. */
  function NameAt(c: string, i: nat): (r: (string, nat))
    requires i <= |c|
    ensures i <= r.1 <= |c|
  {
    var e := NameEnd(c, i);
    (NormalizeTag(c[i..e]), NameNext(c, e))
  }

  /** The end of the quoted text starting at `i`: the next quote, or the line's end. */
  function QuoteEnd(c: string, i: nat): (j: nat)
    requires i <= |c|
    ensures i <= j <= |c|
    ensures forall k :: i <= k < j ==> c[k] != '"'
    ensures j < |c| ==> c[j] == '"'
    decreases |c| - i
  {
    if i < |c| && c[i] != '"' then QuoteEnd(c, i + 1) else i
  }

  function BareEnd(c: string, i: nat): (j: nat)
    requires i <= |c|
    ensures i <= j <= |c|
    ensures forall k :: i <= k < j ==> !ValueStop(c[k])
    ensures j < |c| ==> ValueStop(c[j])
    decreases |c| - i
  {
    if i < |c| && !ValueStop(c[i]) then BareEnd(c, i + 1) else i
  }

  function TextEnd(c: string, i: nat): (j: nat)
    requires i <= |c|
    ensures i <= j <= |c|
    ensures forall k :: i <= k < j ==> !TextStop(c[k])
    ensures j < |c| ==> TextStop(c[j])
    decreases |c| - i
  {
    if i < |c| && !TextStop(c[i]) then TextEnd(c, i + 1) else i
  }

  /** The value at `i`, and where it ends; `None` for a quote nobody closed. */
  function ValueAt(c: string, i: nat): (r: (Option<string>, nat))
    requires i <= |c|
    ensures i <= r.1 <= |c|
  {
    if Peek(c, i, '"') then
      var j := QuoteEnd(c, i + 1);
      if j == |c| then (None, j) else (Some(c[i + 1..j]), j + 1)
    else
      var j := BareEnd(c, i);
      (Some(c[i..j]), j)
  }

  const EMPTY_NAME := "empty tag name"
  const BAD_TAG := "invalid tag syntax"
  const OPEN_QUOTE := "unclosed quote"

  function OpValueAt(c: string, i: nat, name: string, op: Op, pos: nat): (s: Scan)
    requires i <= |c|
    ensures i <= s.next <= |c|
  {
    var (v, j) := ValueAt(c, i);
    match v
    case Some(value) => Scan([TOp(name, op, value, pos)], [], j)
    case None => Scan([], [ParseError(pos, OPEN_QUOTE)], j)
  }

  /** The comparison at `j` and its width: the longer of two that fit. */
  function OperatorAt(c: string, j: nat): (r: Option<(Op, nat)>)
    requires j < |c|
    ensures r.Some? ==> j + r.value.1 <= |c|
    ensures r.Some? && (r.value.0.Gt? || r.value.0.Lt?) ==> !Peek(c, j + r.value.1, '=')
  {
    if c[j] == ':' then Some((Eq, 1))
    else if c[j] == '>' && Peek(c, j + 1, '=') then Some((Gte, 2))
    else if c[j] == '<' && Peek(c, j + 1, '=') then Some((Lte, 2))
    else if c[j] == '>' then Some((Gt, 1))
    else if c[j] == '<' then Some((Lt, 1))
    else None
  }

  /** What follows an `@` at `pos`, read from `i`. */
  function TagAt(c: string, i: nat, pos: nat): (s: Scan)
    requires i <= |c|
    ensures i <= s.next <= |c|
  {
    var (name, j) := NameAt(c, i);
    if name == "" then Scan([], [ParseError(pos, EMPTY_NAME)], j)
    else if TagStops(c, j) then Scan([TTag(name, pos)], [], j)
    else match OperatorAt(c, j)
      case Some((op, width)) => OpValueAt(c, j + width, name, op, pos)
      case None => Scan([], [ParseError(pos, BAD_TAG)], j)
  }

  /** What follows an `@not:` at `pos`, read from `i`. */
  function NotTagAt(c: string, i: nat, pos: nat): (s: Scan)
    requires i <= |c|
    ensures i <= s.next <= |c|
  {
    var (name, j) := NameAt(c, i);
    if TagStops(c, j) then Scan([TNot(name, pos)], [], j)
    else if c[j] == ':' then
      var (v, k) := ValueAt(c, j + 1);
      match v
      case Some(value) => Scan([TNotOp(name, value, pos)], [], k)
      case None => Scan([], [ParseError(pos, OPEN_QUOTE)], k)
    else Scan([], [ParseError(pos, BAD_TAG)], j)
  }

  /** Free text from `i`: trimmed, and dropped when it was only whitespace. */
  function TextAt(c: string, i: nat): (s: Scan)
    requires i < |c| && !TextStop(c[i])
    ensures i < s.next <= |c|
  {
    var j := TextEnd(c, i);
    var t := Trim(c[i..j]);
    Scan(if t == "" then [] else [TText(t, i)], [], j)
  }

  /** `@or`, ended like a tag. */
  predicate OrAt(c: string, i: nat) {
    && i + 3 <= |c| && c[i] == '@' && c[i + 1] == 'o' && c[i + 2] == 'r'
    && TagStops(c, i + 3)
  }

  /** `@not:` */
  predicate NotAt(c: string, i: nat) {
    && i + 5 <= |c| && c[i] == '@'
    && c[i + 1] == 'n' && c[i + 2] == 'o' && c[i + 3] == 't' && c[i + 4] == ':'
  }

  /** One turn of the lexer's loop; it always moves on. */
  function StepAt(c: string, i: nat): (s: Scan)
    requires i < |c|
    ensures i < s.next <= |c|
  {
    if c[i] == ' ' then Scan([], [], i + 1)
    else if c[i] == '(' then Scan([LParen(i)], [], i + 1)
    else if c[i] == ')' then Scan([RParen(i)], [], i + 1)
    else if c[i] == '@' then
      if OrAt(c, i) then Scan([TOr(i)], [], i + 3)
      else if NotAt(c, i) then NotTagAt(c, i + 5, i)
      else TagAt(c, i + 1, i)
    else TextAt(c, i)
  }

  /** Everything the lexer reads from `i` to the end of the line. */
  function Lex(c: string, i: nat): (r: (seq<Tok>, seq<ParseError>))
    requires i <= |c|
    decreases |c| - i
  {
    if i == |c| then ([], [])
    else
      var s := StepAt(c, i);
      var (toks, errs) := Lex(c, s.next);
      (s.toks + toks, s.errs + errs)
  }

  /** Everything read by the end of the line, given what was read before `i`. */
  function LexAfter(c: string, i: nat, toks: seq<Tok>, errs: seq<ParseError>): (seq<Tok>, seq<ParseError>)
    requires i <= |c|
  {
    (toks + Lex(c, i).0, errs + Lex(c, i).1)
  }

  lemma LexStart(c: string)
    ensures LexAfter(c, 0, [], []) == Lex(c, 0)
  {
    hide StepAt;
    assert [] + Lex(c, 0).0 == Lex(c, 0).0 && [] + Lex(c, 0).1 == Lex(c, 0).1;
  }

  lemma LexEnd(c: string, toks: seq<Tok>, errs: seq<ParseError>)
    ensures LexAfter(c, |c|, toks, errs) == (toks, errs)
  {
    assert toks + [] == toks && errs + [] == errs;
  }

  lemma LexTurn(c: string, i: nat, toks: seq<Tok>, errs: seq<ParseError>)
    requires i < |c|
    ensures var s := StepAt(c, i);
      LexAfter(c, i, toks, errs) == LexAfter(c, s.next, toks + s.toks, errs + s.errs)
  {
    hide StepAt;
    var s := StepAt(c, i);
    assert toks + (s.toks + Lex(c, s.next).0) == toks + s.toks + Lex(c, s.next).0;
    assert errs + (s.errs + Lex(c, s.next).1) == errs + s.errs + Lex(c, s.next).1;
  }

  // ---- what every token and error is ---------------------------------------

  lemma NormalizedNameOk(c: string, i: nat)
    requires i <= |c|
    ensures NameOk(NameAt(c, i).0)
  {
    var raw := c[i..NameEnd(c, i)];
    forall k | 0 <= k < |raw| ensures IsTagChar(raw[k]) {
      assert raw[k] == c[i + k];
    }
  }

  lemma ReadValueOk(c: string, i: nat, op: Op)
    requires i <= |c|
    requires op.Gt? || op.Lt? ==> !Peek(c, i, '=')
    ensures ValueAt(c, i).0.Some? ==> ValueOk(op, ValueAt(c, i).0.value)
  {
    if !Peek(c, i, '"') {
      var j := BareEnd(c, i);
      var v := c[i..j];
      forall k | 0 <= k < |v| ensures !ValueStop(v[k]) {
        assert v[k] == c[i + k];
      }
    }
  }

  /** A scan that started at `pos` only holds tokens a line can mean, and points at `pos`. */
  predicate ScanOk(s: Scan, pos: nat) {
    && (forall k :: 0 <= k < |s.toks| ==> TokOk(s.toks[k]) && s.toks[k].pos == pos)
    && (forall k :: 0 <= k < |s.errs| ==> s.errs[k].position == pos)
  }

  lemma OpValueIsOk(c: string, i: nat, name: string, op: Op, pos: nat)
    requires i <= |c| && name != "" && NameOk(name)
    requires op.Gt? || op.Lt? ==> !Peek(c, i, '=')
    ensures ScanOk(OpValueAt(c, i, name, op, pos), pos)
  {
    ReadValueOk(c, i, op);
  }

  lemma TagIsOk(c: string, i: nat, pos: nat)
    requires i <= |c|
    ensures ScanOk(TagAt(c, i, pos), pos)
  {
    var (name, j) := NameAt(c, i);
    NormalizedNameOk(c, i);
    if name != "" && !TagStops(c, j) && OperatorAt(c, j).Some? {
      var (op, width) := OperatorAt(c, j).value;
      OpValueIsOk(c, j + width, name, op, pos);
    }
  }

  lemma NotTagIsOk(c: string, i: nat, pos: nat)
    requires i <= |c|
    ensures ScanOk(NotTagAt(c, i, pos), pos)
  {
    var j := NameAt(c, i).1;
    NormalizedNameOk(c, i);
    if j < |c| {
      ReadValueOk(c, j + 1, Eq);
    }
  }

  lemma TrimmedTextOk(acc: string)
    requires forall k :: 0 <= k < |acc| ==> !TextStop(acc[k])
    ensures Trim(acc) == "" || TextOk(Trim(acc))
  {
    hide TrimStart, TrimEnd, IsWhitespace;
    var u := TrimStart(acc);
    var t := TrimEnd(u);
    forall k | 0 <= k < |t| ensures !TextStop(t[k]) {
      assert t[k] == u[k] == acc[|acc| - |u| + k];
    }
  }

  lemma TextIsOk(c: string, i: nat)
    requires i < |c| && !TextStop(c[i])
    ensures ScanOk(TextAt(c, i), i)
  {
    var acc := c[i..TextEnd(c, i)];
    forall k | 0 <= k < |acc| ensures !TextStop(acc[k]) {
      assert acc[k] == c[i + k];
    }
    TrimmedTextOk(acc);
  }

  lemma StepIsOk(c: string, i: nat)
    requires i < |c|
    ensures ScanOk(StepAt(c, i), i)
  {
    if c[i] == '@' {
      if !OrAt(c, i) {
        if NotAt(c, i) {
          NotTagIsOk(c, i + 5, i);
        } else {
          TagIsOk(c, i + 1, i);
        }
      }
    } else if c[i] != ' ' && c[i] != '(' && c[i] != ')' {
      TextIsOk(c, i);
    }
  }

  /** The lexer's whole output is made of such tokens, each starting inside
      the line, as does every error. */
  lemma {:induction false} LexIsOk(c: string, i: nat)
    requires i <= |c|
    ensures AllToksOk(Lex(c, i).0) && ToksInside(Lex(c, i).0, |c|) && ErrorsInside(Lex(c, i).1, |c|)
    decreases |c| - i
  {
    if i < |c| {
      StepIsOk(c, i);
      LexIsOk(c, StepAt(c, i).next);
    }
  }

  /** A token that names no tag. */
  predicate Nameless(t: Tok) {
    (t.TTag? || t.TOp? || t.TNot? || t.TNotOp?) && t.name == ""
  }

  /** `@not:` before anything but a tag character. */
  predicate BareNotAt(c: string, i: nat) {
    NotAt(c, i) && (i + 5 == |c| || !IsTagChar(c[i + 5]))
  }

  lemma StepNameless(c: string, i: nat, k: nat)
    requires i < |c| && k < |StepAt(c, i).toks|
    ensures Nameless(StepAt(c, i).toks[k]) <==> BareNotAt(c, i)
  {
    if NotAt(c, i) {
      assert !OrAt(c, i);
      var (name, j) := NameAt(c, i + 5);
      assert |name| == NameEnd(c, i + 5) - (i + 5);
    }
  }

  /** A token names no tag exactly when it was read at an `@not:` that no tag
      character follows: the one empty name the lexer lets through. */
  lemma {:induction false} NamelessExactly(c: string, i: nat)
    requires i <= |c|
    ensures forall k :: 0 <= k < |Lex(c, i).0| ==> (Nameless(Lex(c, i).0[k]) <==> BareNotAt(c, Lex(c, i).0[k].pos))
    decreases |c| - i
  {
    hide StepAt, Nameless, BareNotAt;
    if i < |c| {
      var s := StepAt(c, i);
      StepIsOk(c, i);
      NamelessExactly(c, s.next);
      var toks := Lex(c, i).0;
      assert toks == s.toks + Lex(c, s.next).0;
      forall k | 0 <= k < |toks| ensures Nameless(toks[k]) <==> BareNotAt(c, toks[k].pos) {
        if k < |s.toks| {
          StepNameless(c, i, k);
        } else {
          assert toks[k] == Lex(c, s.next).0[k - |s.toks|];
        }
      }
    }
  }

  /** And it does let it through. */
  lemma NamelessReads()
    ensures Lex("@not:", 0) == ([TNot("", 0)], [])
  {
    hide NotTagAt;
    var c := "@not:";
    NamelessScan(c);
    assert NotAt(c, 0) && !OrAt(c, 0);
    assert StepAt(c, 0) == Scan([TNot("", 0)], [], 5);
    assert Lex(c, 5) == ([], []);
    assert Lex(c, 0).0 == [TNot("", 0)] && Lex(c, 0).1 == [];
  }

  lemma NamelessScan(c: string)
    requires |c| == 5
    ensures NotTagAt(c, 5, 0) == Scan([TNot("", 0)], [], 5)
  {
    assert NameEnd(c, 5) == 5;
  }

  // ---- the lexer itself ----------------------------------------------------

  class Lexer {
    const c: string
    var i: nat
    var tokens: seq<Tok>
    var errors: seq<ParseError>

    constructor (line: string)
      ensures c == line && i == 0 && tokens == [] && errors == []
    {
      c, i, tokens, errors := line, 0, [], [];
    }

    /** The state is `s` further than it was. */
    twostate predicate Moved(s: Scan)
      reads this
    {
      i == s.next && tokens == old(tokens) + s.toks && errors == old(errors) + s.errs
    }

    method Run()
      requires i == 0 && tokens == [] && errors == []
      modifies this
      ensures (tokens, errors) == Lex(c, 0)
      ensures i == |c|
    {
      hide StepAt;
      LexStart(c);
      while i < |c|
        invariant i <= |c|
        invariant LexAfter(c, i, tokens, errors) == Lex(c, 0)
        decreases |c| - i
      {
        LexTurn(c, i, tokens, errors);
        Turn();
      }
      LexEnd(c, tokens, errors);
    }

    /** The body of `Run`'s loop. */
    method Turn()
      requires i < |c|
      modifies this
      ensures Moved(StepAt(c, old(i)))
    {
      var pos := i;
      if c[i] == ' ' {
        i := i + 1;
      } else if c[i] == '(' {
        tokens := tokens + [LParen(pos)];
        i := i + 1;
      } else if c[i] == ')' {
        tokens := tokens + [RParen(pos)];
        i := i + 1;
      } else if c[i] == '@' {
        if OrAt(c, i) {
          tokens := tokens + [TOr(pos)];
          i := i + 3;
        } else if NotAt(c, i) {
          i := i + 5;
          ReadNotTag(pos);
        } else {
          i := i + 1;
          ReadTag(pos);
        }
      } else {
        ReadText(pos);
      }
    }

    /** The name stops short of what may stand behind one, and past anything else. */
    method ReadName() returns (name: string)
      requires i <= |c|
      modifies this`i
      ensures (name, i) == NameAt(c, old(i))
    {
      var acc := "";
      while i < |c|
        invariant old(i) <= i <= |c|
        invariant acc == c[old(i)..i]
        invariant NameEnd(c, i) == NameEnd(c, old(i))
        decreases |c| - i
      {
        if IsTagChar(c[i]) {
          acc := acc + [c[i]];
          i := i + 1;
        } else if AfterName(c[i]) {
          break;
        } else {
          i := i + 1;
          return NormalizeTag(acc);
        }
      }
      name := NormalizeTag(acc);
    }

    method ReadTag(pos: nat)
      requires i <= |c|
      modifies this
      ensures Moved(TagAt(c, old(i), pos))
    {
      var name := ReadName();
      if name == "" {
        errors := errors + [ParseError(pos, EMPTY_NAME)];
      } else if TagStops(c, i) {
        tokens := tokens + [TTag(name, pos)];
      } else {
        ReadComparison(name, pos);
      }
    }

    /** The arms of `ReadTag` for a name something follows. */
    method ReadComparison(name: string, pos: nat)
      requires i < |c|
      modifies this
      ensures Moved(match OperatorAt(c, old(i))
                    case Some((op, width)) => OpValueAt(c, old(i) + width, name, op, pos)
                    case None => Scan([], [ParseError(pos, BAD_TAG)], old(i)))
    {
      if c[i] == ':' {
        i := i + 1;
        ReadOpValue(name, Eq, pos);
      } else if c[i] == '>' && Peek(c, i + 1, '=') {
        i := i + 2;
        ReadOpValue(name, Gte, pos);
      } else if c[i] == '<' && Peek(c, i + 1, '=') {
        i := i + 2;
        ReadOpValue(name, Lte, pos);
      } else if c[i] == '>' {
        i := i + 1;
        ReadOpValue(name, Gt, pos);
      } else if c[i] == '<' {
        i := i + 1;
        ReadOpValue(name, Lt, pos);
      } else {
        errors := errors + [ParseError(pos, BAD_TAG)];
      }
    }

    method ReadNotTag(pos: nat)
      requires i <= |c|
      modifies this
      ensures Moved(NotTagAt(c, old(i), pos))
    {
      var name := ReadName();
      if TagStops(c, i) {
        tokens := tokens + [TNot(name, pos)];
      } else if c[i] == ':' {
        i := i + 1;
        var v := ReadValue(pos);
        if v.Some? {
          tokens := tokens + [TNotOp(name, v.value, pos)];
        }
      } else {
        errors := errors + [ParseError(pos, BAD_TAG)];
      }
    }

    method ReadOpValue(name: string, op: Op, pos: nat)
      requires i <= |c|
      modifies this
      ensures Moved(OpValueAt(c, old(i), name, op, pos))
    {
      var v := ReadValue(pos);
      if v.Some? {
        tokens := tokens + [TOp(name, op, v.value, pos)];
      }
    }

    method ReadValue(pos: nat) returns (v: Option<string>)
      requires i <= |c|
      modifies this`i, this`errors
      ensures (v, i) == ValueAt(c, old(i))
      ensures errors == old(errors) + (if v.None? then [ParseError(pos, OPEN_QUOTE)] else [])
    {
      var acc := "";
      if Peek(c, i, '"') {
        i := i + 1;
        ghost var start := i;
        while true
          invariant start <= i <= |c|
          invariant acc == c[start..i]
          invariant QuoteEnd(c, i) == QuoteEnd(c, start)
          invariant errors == old(errors)
          decreases |c| - i
        {
          if i == |c| {
            errors := errors + [ParseError(pos, OPEN_QUOTE)];
            return None;
          } else if c[i] == '"' {
            i := i + 1;
            return Some(acc);
          } else {
            acc := acc + [c[i]];
            i := i + 1;
          }
        }
      }
      while i < |c| && !ValueStop(c[i])
        invariant old(i) <= i <= |c|
        invariant acc == c[old(i)..i]
        invariant BareEnd(c, i) == BareEnd(c, old(i))
        invariant errors == old(errors)
        decreases |c| - i
      {
        acc := acc + [c[i]];
        i := i + 1;
      }
      v := Some(acc);
    }

    method ReadText(pos: nat)
      requires i == pos < |c| && !TextStop(c[i])
      modifies this
      ensures Moved(TextAt(c, pos))
    {
      var acc := "";
      while i < |c| && !TextStop(c[i])
        invariant pos <= i <= |c|
        invariant acc == c[pos..i]
        invariant TextEnd(c, i) == TextEnd(c, pos)
        invariant tokens == old(tokens) && errors == old(errors)
        decreases |c| - i
      {
        acc := acc + [c[i]];
        i := i + 1;
      }
      var t := Trim(acc);
      if t == "" {
        i := Max(i, pos + 1);
      } else {
        tokens := tokens + [TText(t, pos)];
      }
    }
  }
}
