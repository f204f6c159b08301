/** A line for every tree the grammar can spell, and the proof that it parses back. */
module FilterRoundTrip {
  import opened Base
  import opened FilterSyntax
  import opened FilterLexer
  import opened FilterParser

  // ---- spelling a tree ----------------------------------------------------------

  function Symbol(op: Op): string {
    match op
    case Eq => ":"
    case Gt => ">"
    case Gte => ">="
    case Lt => "<"
    case Lte => "<="
  }

  /** In quotes, unless the value holds one. */
  function ValueText(v: string): string {
    if !NoQuote(v) then v else "\"" + v + "\""
  }

  /** A `%`, which the lexer skips after a name, keeps `@or` and `@not:` from
      being read as keywords. */
  function LeafText(a: Ast): string {
    match a
    case Text(t) => t
    case Tag(n) => "@" + (n + (if n == "or" then "%" else ""))
    case Compare(n, op, v) =>
      "@" + (n + ((if n == "not" && op.Eq? then "%" else "") + (Symbol(op) + ValueText(v))))
    case Not(Tag(n)) => "@not:" + n
    case Not(Compare(n, _, v)) => "@not:" + (n + (":" + ValueText(v)))
    case _ => ""
  }

  /** Leaves whose reach a parenthesis has to end: free text, and a bare value. */
  predicate Enclosed(a: Ast) {
    match a
    case Text(_) => true
    case Compare(_, _, v) => !NoQuote(v)
    case Not(Compare(_, _, v)) => !NoQuote(v)
    case _ => false
  }

  function ElementText(a: Ast): string
    decreases a
  {
    if a.Or? then "(" + (Joined(a.any, true) + ")")
    else if Enclosed(a) then "(" + (LeafText(a) + ")")
    else LeafText(a)
  }

  function Separator(or: bool): string {
    if or then " @or " else " "
  }

  function Joined(es: seq<Ast>, or: bool): string
    decreases es
  {
    if es == [] then ""
    else if |es| == 1 then ElementText(es[0])
    else ElementText(es[0]) + (Separator(or) + Joined(es[1..], or))
  }

  function BranchText(b: Ast): string {
    if b.And? then Joined(b.all, false) else ElementText(b)
  }

  function BranchesText(bs: seq<Ast>): string {
    if bs == [] then ""
    else if |bs| == 1 then BranchText(bs[0])
    else BranchText(bs[0]) + (Separator(true) + BranchesText(bs[1..]))
  }

  /** The line that spells `a`. */
  function Print(a: Ast): string {
    if Branch(a) || !a.Or? then BranchText(a) else BranchesText(a.any)
  }

  // ---- the tokens of that line ----------------------------------------------------

  function LeafTok(a: Ast, pos: nat): Tok
    requires LeafOk(a)
  {
    match a
    case Text(t) => TText(t, pos)
    case Tag(n) => TTag(n, pos)
    case Compare(n, op, v) => TOp(n, op, v, pos)
    case Not(Tag(n)) => TNot(n, pos)
    case Not(Compare(n, _, v)) => TNotOp(n, v, pos)
  }

  function ElementToks(a: Ast, pos: nat): seq<Tok>
    requires Element(a)
    decreases a
  {
    if a.Or? then
      [LParen(pos)] + (JoinedToks(a.any, true, pos + 1) + [RParen(pos + 1 + |Joined(a.any, true)|)])
    else if Enclosed(a) then [LParen(pos), LeafTok(a, pos + 1), RParen(pos + 1 + |LeafText(a)|)]
    else [LeafTok(a, pos)]
  }

  function JoinedToks(es: seq<Ast>, or: bool, pos: nat): seq<Tok>
    requires AllElements(es)
    decreases es
  {
    if es == [] then []
    else if |es| == 1 then ElementToks(es[0], pos)
    else
      var j := pos + |ElementText(es[0])|;
      ElementToks(es[0], pos) + (OrToks(or, j + 1) + JoinedToks(es[1..], or, j + |Separator(or)|))
  }

  function OrToks(or: bool, pos: nat): seq<Tok> {
    if or then [TOr(pos)] else []
  }

  function BranchToks(b: Ast, pos: nat): seq<Tok>
    requires Branch(b)
  {
    if b.And? then JoinedToks(b.all, false, pos) else ElementToks(b, pos)
  }

  function BranchesToks(bs: seq<Ast>, pos: nat): seq<Tok>
    requires AllBranches(bs)
  {
    if bs == [] then []
    else if |bs| == 1 then BranchToks(bs[0], pos)
    else
      var j := pos + |BranchText(bs[0])|;
      BranchToks(bs[0], pos) + (OrToks(true, j + 1) + BranchesToks(bs[1..], j + |Separator(true)|))
  }

  // ---- the lexer reads one leaf ----------------------------------------------------

  /** The characters from `i` on begin with `s`. */
  predicate At(c: string, i: nat, s: string) {
    i + |s| <= |c| && forall k :: 0 <= k < |s| ==> c[i + k] == s[k]
  }

  lemma AtSplit(c: string, i: nat, s: string, t: string)
    requires At(c, i, s + t)
    ensures At(c, i, s) && At(c, i + |s|, t)
  {
    forall k | 0 <= k < |s| ensures c[i + k] == s[k] {
      assert (s + t)[k] == s[k];
    }
    forall k | 0 <= k < |t| ensures c[i + |s| + k] == t[k] {
      assert (s + t)[|s| + k] == t[k];
    }
  }

  lemma {:induction false} NameEnds(c: string, i: nat, n: string)
    requires NameOk(n) && At(c, i, n)
    requires i + |n| < |c| ==> !IsTagChar(c[i + |n|])
    ensures NameEnd(c, i) == i + |n|
    decreases |n|
  {
    if n != "" {
      assert c[i] == n[0] && IsTagChar(n[0]);
      AtTail(c, i, n);
      NameEnds(c, i + 1, n[1..]);
    }
  }

  lemma {:induction false} NormalName(n: string)
    requires NameOk(n)
    ensures NormalizeTag(n) == n
  {
    assert NormalizeTag(n) == n by {
      forall k | 0 <= k < |n| ensures NormalizeTag(n)[k] == n[k] {}
    }
  }

  lemma AtTail(c: string, i: nat, s: string)
    requires s != "" && At(c, i, s)
    ensures At(c, i + 1, s[1..])
  {
    forall k | 0 <= k < |s[1..]| ensures c[i + 1 + k] == s[1..][k] {
      assert c[i + (k + 1)] == s[k + 1];
    }
  }

  lemma NameReads(c: string, i: nat, n: string)
    requires NameOk(n) && At(c, i, n)
    requires i + |n| < |c| ==> !IsTagChar(c[i + |n|])
    ensures NameAt(c, i) == (n, NameNext(c, i + |n|))
  {
    hide NameOk, At;
    NameEnds(c, i, n);
    AtSlice(c, i, n);
    NormalName(n);
  }

  lemma {:induction false} QuotedReads(c: string, i: nat, v: string)
    requires NoQuote(v) && At(c, i, v) && Peek(c, i + |v|, '"')
    ensures QuoteEnd(c, i) == i + |v|
    decreases |v|
  {
    if v != "" {
      assert c[i] == v[0];
      AtTail(c, i, v);
      QuotedReads(c, i + 1, v[1..]);
    }
  }

  lemma {:induction false} BareReads(c: string, i: nat, v: string)
    requires forall k :: 0 <= k < |v| ==> !ValueStop(v[k])
    requires At(c, i, v) && (i + |v| < |c| ==> ValueStop(c[i + |v|]))
    ensures BareEnd(c, i) == i + |v|
    decreases |v|
  {
    if v != "" {
      assert c[i] == v[0];
      AtTail(c, i, v);
      BareReads(c, i + 1, v[1..]);
    }
  }

  lemma {:induction false} TextReads(c: string, i: nat, t: string)
    requires forall k :: 0 <= k < |t| ==> !TextStop(t[k])
    requires At(c, i, t) && (i + |t| < |c| ==> TextStop(c[i + |t|]))
    ensures TextEnd(c, i) == i + |t|
    decreases |t|
  {
    if t != "" {
      assert c[i] == t[0];
      AtTail(c, i, t);
      TextReads(c, i + 1, t[1..]);
    }
  }

  lemma AtSlice(c: string, i: nat, s: string)
    requires At(c, i, s)
    ensures c[i..i + |s|] == s
  {
  }

  /** A spelled value reads back, whatever follows a quote, and up to a space
      or parenthesis otherwise. */
  lemma ValueReads(c: string, i: nat, op: Op, v: string)
    requires ValueOk(op, v) && At(c, i, ValueText(v))
    requires !NoQuote(v) ==> i + |v| < |c| ==> ValueStop(c[i + |v|])
    ensures ValueAt(c, i) == (Some(v), i + |ValueText(v)|)
    ensures op.Gt? || op.Lt? ==> !Peek(c, i, '=')
  {
    if !NoQuote(v) {
      assert c[i] == v[0];
      BareReads(c, i, v);
      AtSlice(c, i, v);
    } else {
      AtSplit(c, i, "\"" + v, "\"");
      assert ("\"" + v) + "\"" == ValueText(v);
      AtSplit(c, i, "\"", v);
      assert c[i] == "\""[0];
      assert c[i + 1 + |v|] == "\""[0];
      QuotedReads(c, i + 1, v);
      AtSlice(c, i + 1, v);
    }
  }

  lemma OperatorReads(c: string, j: nat, op: Op, v: string)
    requires ValueOk(op, v) && At(c, j, Symbol(op) + ValueText(v))
    requires !NoQuote(v) ==> TagStops(c, j + |Symbol(op)| + |v|)
    ensures j < |c| && AfterName(c[j]) && !TagStops(c, j) && !IsTagChar(c[j]) && c[j] == Symbol(op)[0]
    ensures OperatorAt(c, j) == Some((op, |Symbol(op)|))
    ensures ValueAt(c, j + |Symbol(op)|) == (Some(v), j + |Symbol(op)| + |ValueText(v)|)
  {
    AtSplit(c, j, Symbol(op), ValueText(v));
    ValueReads(c, j + |Symbol(op)|, op, v);
    assert c[j] == Symbol(op)[0];
    if op.Gte? || op.Lte? {
      assert c[j + 1] == Symbol(op)[1];
    }
  }

  /** After `@`, the name `n` up to `e`, and something that is no keyword's end. */
  predicate NamedAt(c: string, i: nat, n: string) {
    && Peek(c, i, '@') && NameOk(n) && At(c, i + 1, n)
    && (i + 1 + |n| < |c| ==> !IsTagChar(c[i + 1 + |n|]))
  }

  lemma NameChars(c: string, i: nat, n: string)
    requires NamedAt(c, i, n)
    ensures forall p :: i + 1 <= p < i + 1 + |n| ==> IsTagChar(c[p]) && c[p] == n[p - i - 1]
  {
    forall p | i + 1 <= p < i + 1 + |n| ensures IsTagChar(c[p]) && c[p] == n[p - i - 1] {
      assert c[i + 1 + (p - i - 1)] == n[p - i - 1];
    }
  }

  /** The only name that reads as `@or`. */
  lemma OrWord(c: string, i: nat, n: string)
    requires NamedAt(c, i, n)
    ensures OrAt(c, i) ==> n == "or" && TagStops(c, i + 1 + |n|)
  {
    NameChars(c, i, n);
    assert OrAt(c, i) ==> |n| == 2;
    assert |n| == 2 ==> n == [n[0], n[1]];
  }

  /** The only name that reads as the start of `@not:`. */
  lemma NotWord(c: string, i: nat, n: string)
    requires NamedAt(c, i, n)
    ensures NotAt(c, i) ==> n == "not" && Peek(c, i + 1 + |n|, ':')
  {
    NameChars(c, i, n);
    assert NotAt(c, i) ==> |n| == 3;
    assert |n| == 3 ==> n == [n[0], n[1], n[2]];
  }

  lemma TagPieces(c: string, i: nat, n: string)
    requires NameOk(n) && At(c, i, LeafText(Tag(n))) && TagStops(c, i + |LeafText(Tag(n))|)
    ensures NamedAt(c, i, n)
    ensures n == "or" ==> Peek(c, i + 1 + |n|, '%') && |LeafText(Tag(n))| == 2 + |n|
    ensures n != "or" ==> |LeafText(Tag(n))| == 1 + |n|
  {
    var tail := if n == "or" then "%" else "";
    AtSplit(c, i, "@", n + tail);
    AtSplit(c, i + 1, n, tail);
    assert c[i] == "@"[0];
    if n == "or" {
      assert c[i + 1 + |n|] == tail[0];
    }
  }

  lemma TagReads(c: string, i: nat, n: string)
    requires n != "" && NameOk(n) && At(c, i, LeafText(Tag(n))) && TagStops(c, i + |LeafText(Tag(n))|)
    ensures StepAt(c, i) == Scan([TTag(n, i)], [], i + |LeafText(Tag(n))|)
  {
    hide LeafText, NotTagAt, At, NameOk, OpValueAt, OperatorAt, NameAt, NormalizeTag;
    TagPieces(c, i, n);
    OrWord(c, i, n);
    NotWord(c, i, n);
    NameReads(c, i + 1, n);
    assert TagAt(c, i + 1, i) == Scan([TTag(n, i)], [], i + |LeafText(Tag(n))|);
  }

  lemma ComparePieces(c: string, i: nat, n: string, op: Op, v: string)
    requires n != "" && NameOk(n) && ValueOk(op, v) && At(c, i, LeafText(Compare(n, op, v)))
    requires TagStops(c, i + |LeafText(Compare(n, op, v))|)
    ensures Peek(c, i, '@') && At(c, i + 1, n)
    ensures n == "not" && op.Eq? ==> Peek(c, i + 1 + |n|, '%')
    ensures var e := i + 1 + |n| + (if n == "not" && op.Eq? then 1 else 0);
      && At(c, e, Symbol(op) + ValueText(v))
      && i + |LeafText(Compare(n, op, v))| == e + |Symbol(op)| + |ValueText(v)|
      && (!NoQuote(v) ==> TagStops(c, e + |Symbol(op)| + |v|))
  {
    hide TagStops, ValueOk, NameOk;
    var skip := if n == "not" && op.Eq? then "%" else "";
    var rest := Symbol(op) + ValueText(v);
    AtSplit(c, i, "@", n + (skip + rest));
    AtSplit(c, i + 1, n, skip + rest);
    AtSplit(c, i + 1 + |n|, skip, rest);
    assert c[i] == "@"[0];
    if skip != "" {
      assert c[i + 1 + |n|] == skip[0];
    }
  }

  /** A comparison at `j`, after a name and perhaps a skipped character. */
  lemma ComparisonReads(c: string, i: nat, n: string, j: nat, op: Op, v: string)
    requires n != "" && NamedAt(c, i, n) && ValueOk(op, v)
    requires j == NameNext(c, i + 1 + |n|)
    requires At(c, j, Symbol(op) + ValueText(v))
    requires !NoQuote(v) ==> TagStops(c, j + |Symbol(op)| + |v|)
    ensures TagAt(c, i + 1, i) == Scan([TOp(n, op, v, i)], [], j + |Symbol(op)| + |ValueText(v)|)
  {
    hide OperatorAt, ValueAt, ValueOk, At, NameOk, Symbol, ValueText, NameAt, NameNext, TagStops;
    NameReads(c, i + 1, n);
    OperatorReads(c, j, op, v);
    assert OpValueAt(c, j + |Symbol(op)|, n, op, i)
        == Scan([TOp(n, op, v, i)], [], j + |Symbol(op)| + |ValueText(v)|);
  }

  lemma CompareReads(c: string, i: nat, n: string, op: Op, v: string)
    requires LeafOk(Compare(n, op, v)) && At(c, i, LeafText(Compare(n, op, v)))
    requires TagStops(c, i + |LeafText(Compare(n, op, v))|)
    ensures StepAt(c, i) == Scan([TOp(n, op, v, i)], [], i + |LeafText(Compare(n, op, v))|)
  {
    hide LeafText, TagAt, NotTagAt, OperatorAt, ValueAt, At, NameOk, NameAt;
    var e := i + 1 + |n|;
    var j := e + (if n == "not" && op.Eq? then 1 else 0);
    ComparePieces(c, i, n, op, v);
    OperatorReads(c, j, op, v);
    assert !TagStops(c, e) && NameNext(c, e) == j;
    OrWord(c, i, n);
    NotWord(c, i, n);
    ComparisonReads(c, i, n, j, op, v);
  }

  lemma NotWordPieces(c: string, i: nat, rest: string)
    requires At(c, i, "@not:" + rest)
    ensures NotAt(c, i) && At(c, i + 5, rest)
  {
    var w := "@not:";
    AtSplit(c, i, w, rest);
    assert c[i + 0] == w[0] && c[i + 1] == w[1] && c[i + 2] == w[2] && c[i + 3] == w[3] && c[i + 4] == w[4];
  }

  lemma NotPieces(c: string, i: nat, a: Ast)
    requires a.Not? && LeafOk(a) && At(c, i, LeafText(a)) && TagStops(c, i + |LeafText(a)|)
    ensures NotAt(c, i)
    ensures a.inner.Tag? ==> At(c, i + 5, a.inner.name) && |LeafText(a)| == 5 + |a.inner.name|
    ensures a.inner.Compare? ==>
      var e := i + 5 + |a.inner.tag|;
      && At(c, i + 5, a.inner.tag) && Peek(c, e, ':') && At(c, e + 1, ValueText(a.inner.value))
      && i + |LeafText(a)| == e + 1 + |ValueText(a.inner.value)|
  {
    hide NameOk, ValueOk, TagStops, ValueText;
    if a.inner.Tag? {
      NotWordPieces(c, i, a.inner.name);
    } else {
      var n, rest := a.inner.tag, ":" + ValueText(a.inner.value);
      NotWordPieces(c, i, n + rest);
      AtSplit(c, i + 5, n, rest);
      AtSplit(c, i + 5 + |n|, ":", ValueText(a.inner.value));
      assert c[i + 5 + |n|] == ":"[0];
    }
  }

  /** `NotTagAt` once the name is known to end at `e`. */
  lemma NotNameReads(c: string, i: nat, n: string)
    requires NameOk(n) && i + 5 <= |c| && At(c, i + 5, n)
    requires TagStops(c, i + 5 + |n|) || Peek(c, i + 5 + |n|, ':')
    ensures var e := i + 5 + |n|;
      NotTagAt(c, i + 5, i) ==
        if TagStops(c, e) then Scan([TNot(n, i)], [], e)
        else
          var (v, k) := ValueAt(c, e + 1);
          if v.Some? then Scan([TNotOp(n, v.value, i)], [], k) else Scan([], [ParseError(i, OPEN_QUOTE)], k)
  {
    NameReads(c, i + 5, n);
  }

  lemma NotReads(c: string, i: nat, a: Ast)
    requires a.Not? && LeafOk(a) && At(c, i, LeafText(a)) && TagStops(c, i + |LeafText(a)|)
    ensures StepAt(c, i) == Scan([LeafTok(a, i)], [], i + |LeafText(a)|)
  {
    hide LeafText, NotTagAt, TagAt, At, NameOk, ValueOk, ValueAt, NameAt;
    NotPieces(c, i, a);
    if a.inner.Tag? {
      NotNameReads(c, i, a.inner.name);
    } else {
      NotNameReads(c, i, a.inner.tag);
      ValueReads(c, i + 6 + |a.inner.tag|, Eq, a.inner.value);
    }
  }

  lemma FreeTextReads(c: string, i: nat, t: string)
    requires TextOk(t) && At(c, i, t) && Peek(c, i + |t|, ')')
    ensures StepAt(c, i) == Scan([TText(t, i)], [], i + |t|)
  {
    assert c[i] == t[0];
    TextReads(c, i, t);
    AtSlice(c, i, t);
    assert Trim(t) == t;
    assert c[i..TextEnd(c, i)] == t;
    assert TextAt(c, i) == Scan([TText(t, i)], [], i + |t|);
  }

  lemma LeafReads(c: string, i: nat, a: Ast)
    requires LeafOk(a) && At(c, i, LeafText(a)) && TagStops(c, i + |LeafText(a)|)
    requires a.Text? ==> Peek(c, i + |LeafText(a)|, ')')
    requires i < |c|
    ensures StepAt(c, i) == Scan([LeafTok(a, i)], [], i + |LeafText(a)|)
  {
    hide StepAt, TagStops;
    if a.Text? {
      FreeTextReads(c, i, a.text);
    } else if a.Tag? {
      TagReads(c, i, a.name);
    } else if a.Compare? {
      CompareReads(c, i, a.tag, a.op, a.value);
    } else {
      NotReads(c, i, a);
    }
  }

  // ---- the lexer reads the whole line -----------------------------------------------

  /** From `i` the lexer reads `toks`, without an error, and stands at `j`. */
  predicate Reads(c: string, i: nat, toks: seq<Tok>, j: nat) {
    i <= j <= |c| && Lex(c, i) == LexAfter(c, j, toks, [])
  }

  lemma ReadsThen(c: string, i: nat, t: seq<Tok>, j: nat, u: seq<Tok>, k: nat)
    requires Reads(c, i, t, j) && Reads(c, j, u, k)
    ensures Reads(c, i, t + u, k)
  {
    hide Lex;
    assert t + (u + Lex(c, k).0) == t + u + Lex(c, k).0;
    assert [] + ([] + Lex(c, k).1) == [] + Lex(c, k).1;
  }

  lemma ReadsOne(c: string, i: nat, s: Scan)
    requires i < |c| && StepAt(c, i) == s && s.errs == []
    ensures Reads(c, i, s.toks, s.next)
  {
    hide StepAt;
  }

  lemma PunctuationReads(c: string, i: nat)
    requires i < |c|
    ensures c[i] == ' ' ==> Reads(c, i, [], i + 1)
    ensures c[i] == '(' ==> Reads(c, i, [LParen(i)], i + 1)
    ensures c[i] == ')' ==> Reads(c, i, [RParen(i)], i + 1)
  {
    var s := StepAt(c, i);
    if c[i] == ' ' || c[i] == '(' || c[i] == ')' {
      ReadsOne(c, i, s);
    }
  }

  lemma SeparatorReads(c: string, i: nat, or: bool)
    requires At(c, i, Separator(or))
    ensures Reads(c, i, OrToks(or, i + 1), i + |Separator(or)|)
  {
    var s := Separator(or);
    assert c[i] == s[0] == ' ';
    PunctuationReads(c, i);
    if or {
      assert c[i + 1] == s[1] && c[i + 2] == s[2] && c[i + 3] == s[3] && c[i + 4] == s[4] == ' ';
      assert StepAt(c, i + 1) == Scan([TOr(i + 1)], [], i + 4);
      hide StepAt, Reads;
      ReadsOne(c, i + 1, Scan([TOr(i + 1)], [], i + 4));
      PunctuationReads(c, i + 4);
      ReadsThen(c, i + 1, [TOr(i + 1)], i + 4, [], i + 5);
      ReadsThen(c, i, [], i + 1, [TOr(i + 1)] + [], i + 5);
      assert [] + ([TOr(i + 1)] + []) == OrToks(or, i + 1);
    }
  }

  lemma SeparatorStarts(c: string, i: nat, or: bool)
    requires At(c, i, Separator(or))
    ensures Peek(c, i, ' ')
  {
    assert c[i] == Separator(or)[0];
  }

  lemma LeafInside(c: string, i: nat, a: Ast)
    requires LeafOk(a) && At(c, i, LeafText(a))
    ensures i < |c|
  {
    assert LeafText(a) != "";
  }

  /** Parentheses around what reads as `toks` read as themselves around `toks`. */
  lemma EnclosedReads(c: string, i: nat, inner: string, toks: seq<Tok>)
    requires At(c, i, "(" + (inner + ")")) && Reads(c, i + 1, toks, i + 1 + |inner|)
    ensures Reads(c, i, [LParen(i)] + (toks + [RParen(i + 1 + |inner|)]), i + 2 + |inner|)
  {
    hide At, StepAt, Lex, Reads;
    var close := i + 1 + |inner|;
    EnclosedEnds(c, i, inner);
    PunctuationReads(c, i);
    PunctuationReads(c, close);
    ReadsThen(c, i + 1, toks, close, [RParen(close)], close + 1);
    ReadsThen(c, i, [LParen(i)], i + 1, toks + [RParen(close)], close + 1);
  }

  /** The inside of an enclosed element ends at its closing parenthesis. */
  lemma EnclosedEnds(c: string, i: nat, inner: string)
    requires At(c, i, "(" + (inner + ")"))
    ensures Peek(c, i, '(') && At(c, i + 1, inner) && Peek(c, i + 1 + |inner|, ')')
  {
    AtSplit(c, i, "(", inner + ")");
    AtSplit(c, i + 1, inner, ")");
    assert c[i] == "("[0];
    assert c[i + 1 + |inner|] == ")"[0];
  }

  lemma {:induction false} ElementReads(c: string, i: nat, a: Ast)
    requires Element(a) && At(c, i, ElementText(a)) && TagStops(c, i + |ElementText(a)|)
    ensures Reads(c, i, ElementToks(a, i), i + |ElementText(a)|)
    decreases a, 0
  {
    hide StepAt, Lex, Reads, LeafText, At, LeafOk;
    if a.Or? {
      var inner := Joined(a.any, true);
      EnclosedEnds(c, i, inner);
      JoinedReads(c, i + 1, a.any, true);
      EnclosedReads(c, i, inner, JoinedToks(a.any, true, i + 1));
    } else if Enclosed(a) {
      var close := i + 1 + |LeafText(a)|;
      EnclosedEnds(c, i, LeafText(a));
      LeafReads(c, i + 1, a);
      ReadsOne(c, i + 1, Scan([LeafTok(a, i + 1)], [], close));
      EnclosedReads(c, i, LeafText(a), [LeafTok(a, i + 1)]);
      assert [LParen(i)] + ([LeafTok(a, i + 1)] + [RParen(close)]) == ElementToks(a, i);
    } else {
      LeafInside(c, i, a);
      LeafReads(c, i, a);
      ReadsOne(c, i, Scan([LeafTok(a, i)], [], i + |LeafText(a)|));
    }
  }

  lemma {:induction false} JoinedReads(c: string, i: nat, es: seq<Ast>, or: bool)
    requires es != [] && AllElements(es) && At(c, i, Joined(es, or)) && TagStops(c, i + |Joined(es, or)|)
    ensures Reads(c, i, JoinedToks(es, or, i), i + |Joined(es, or)|)
    decreases es, 1
  {
    hide StepAt, Lex, Reads, ElementText, ElementToks, Separator, At;
    if |es| == 1 {
      ElementReads(c, i, es[0]);
    } else {
      var first, rest := ElementText(es[0]), Joined(es[1..], or);
      AtSplit(c, i, first, Separator(or) + rest);
      var j := i + |first|;
      AtSplit(c, j, Separator(or), rest);
      var k := j + |Separator(or)|;
      SeparatorStarts(c, j, or);
      ElementReads(c, i, es[0]);
      SeparatorReads(c, j, or);
      JoinedReads(c, k, es[1..], or);
      ReadsThen(c, j, OrToks(or, j + 1), k, JoinedToks(es[1..], or, k), k + |rest|);
      ReadsThen(c, i, ElementToks(es[0], i), j, OrToks(or, j + 1) + JoinedToks(es[1..], or, k), k + |rest|);
    }
  }

  lemma BranchReads(c: string, i: nat, b: Ast)
    requires Branch(b) && At(c, i, BranchText(b)) && TagStops(c, i + |BranchText(b)|)
    ensures Reads(c, i, BranchToks(b, i), i + |BranchText(b)|)
  {
    hide Reads;
    if b.And? {
      JoinedReads(c, i, b.all, false);
    } else {
      ElementReads(c, i, b);
    }
  }

  lemma BranchesSplit(bs: seq<Ast>, i: nat)
    requires |bs| > 1 && AllBranches(bs)
    ensures AllBranches(bs[1..])
    ensures BranchesText(bs) == BranchText(bs[0]) + (Separator(true) + BranchesText(bs[1..]))
    ensures var j := i + |BranchText(bs[0])|;
      BranchesToks(bs, i) == BranchToks(bs[0], i) + (OrToks(true, j + 1) + BranchesToks(bs[1..], j + |Separator(true)|))
  {
    hide BranchText, BranchToks, Separator, OrToks, Branch;
  }

  lemma {:induction false} BranchesRead(c: string, i: nat, bs: seq<Ast>)
    requires bs != [] && AllBranches(bs) && At(c, i, BranchesText(bs)) && TagStops(c, i + |BranchesText(bs)|)
    ensures Reads(c, i, BranchesToks(bs, i), i + |BranchesText(bs)|)
    decreases |bs|
  {
    hide StepAt, Lex, Reads, BranchText, BranchToks, Separator, At, Branch, OrToks;
    if |bs| == 1 {
      BranchReads(c, i, bs[0]);
    } else {
      BranchesSplit(bs, i);
      hide BranchesText, BranchesToks, AllBranches;
      var first, rest := BranchText(bs[0]), BranchesText(bs[1..]);
      AtSplit(c, i, first, Separator(true) + rest);
      var j := i + |first|;
      AtSplit(c, j, Separator(true), rest);
      var k := j + |Separator(true)|;
      SeparatorStarts(c, j, true);
      BranchReads(c, i, bs[0]);
      SeparatorReads(c, j, true);
      BranchesRead(c, k, bs[1..]);
      ReadsThen(c, j, OrToks(true, j + 1), k, BranchesToks(bs[1..], k), k + |rest|);
      ReadsThen(c, i, BranchToks(bs[0], i), j, OrToks(true, j + 1) + BranchesToks(bs[1..], k), k + |rest|);
    }
  }

  // ---- the parser reads the tokens ---------------------------------------------------

  lemma LeafOfTok(a: Ast, pos: nat)
    requires LeafOk(a)
    ensures IsLeaf(LeafTok(a, pos)) && Leaf(LeafTok(a, pos)) == a
  {
  }

  /** In a group, an element's tokens add exactly that element. */
  lemma {:induction false} GroupReadsElement(a: Ast, pos: nat, more: seq<Tok>, acc: seq<Ast>, p: nat)
    requires Element(a)
    ensures GroupOf(ElementToks(a, pos) + more, acc, p) == GroupOf(more, acc + [a], p)
    decreases a, 1
  {
    var toks := ElementToks(a, pos) + more;
    if a.Or? {
      ElementGroup(a, pos, more);
      assert toks[0] == LParen(pos);
    } else {
      LeafOfTok(a, pos);
      LeafOfTok(a, pos + 1);
      if Enclosed(a) {
        var inner := [LeafTok(a, pos + 1), RParen(pos + 1 + |LeafText(a)|)] + more;
        assert toks[1..] == inner;
        assert inner[1..][1..] == more;
        assert GroupOf(inner, [], pos) == GroupOf(inner[1..], [a], pos);
      } else {
        assert toks[1..] == more;
      }
    }
  }

  /** The tokens after a group's parenthesis close exactly that group. */
  lemma {:induction false} ElementGroup(a: Ast, pos: nat, more: seq<Tok>)
    requires Element(a) && a.Or?
    ensures GroupOf((ElementToks(a, pos) + more)[1..], [], pos) == Group(Some(a), more, [])
    decreases a, 0
  {
    hide GroupOf, Joined, JoinedToks;
    var end := pos + 1 + |Joined(a.any, true)|;
    var inner := JoinedToks(a.any, true, pos + 1);
    assert (ElementToks(a, pos) + more)[1..] == inner + ([RParen(end)] + more);
    GroupReadsJoined(a.any, true, pos + 1, [RParen(end)] + more, [], pos);
    assert [] + a.any == a.any;
    GroupCloses(end, more, a.any, pos);
  }

  lemma GroupCloses(end: nat, more: seq<Tok>, es: seq<Ast>, p: nat)
    requires |es| >= 2
    ensures GroupOf([RParen(end)] + more, es, p) == Group(Some(Or(es)), more, [])
  {
    assert ([RParen(end)] + more)[1..] == more;
  }

  lemma GroupSkipsOr(or: bool, pos: nat, more: seq<Tok>, acc: seq<Ast>, p: nat)
    ensures GroupOf(OrToks(or, pos) + more, acc, p) == GroupOf(more, acc, p)
  {
    if or {
      assert ([TOr(pos)] + more)[1..] == more;
    } else {
      assert [] + more == more;
    }
  }

  lemma JoinedToksSplit(es: seq<Ast>, or: bool, pos: nat, more: seq<Tok>)
    requires |es| > 1 && AllElements(es)
    ensures var j := pos + |ElementText(es[0])|;
      JoinedToks(es, or, pos) + more
        == ElementToks(es[0], pos) + (OrToks(or, j + 1) + (JoinedToks(es[1..], or, j + |Separator(or)|) + more))
  {
    hide ElementToks, ElementText, OrToks, Separator;
  }

  lemma {:induction false} GroupReadsJoined(es: seq<Ast>, or: bool, pos: nat, more: seq<Tok>, acc: seq<Ast>, p: nat)
    requires es != [] && AllElements(es)
    ensures GroupOf(JoinedToks(es, or, pos) + more, acc, p) == GroupOf(more, acc + es, p)
    decreases es, 1
  {
    hide ElementToks, ElementText, OrToks, Separator, GroupOf;
    if |es| == 1 {
      GroupReadsElement(es[0], pos, more, acc, p);
      assert acc + es == acc + [es[0]];
    } else {
      var j := pos + |ElementText(es[0])|;
      var rest := JoinedToks(es[1..], or, j + |Separator(or)|) + more;
      JoinedToksSplit(es, or, pos, more);
      hide JoinedToks;
      GroupReadsElement(es[0], pos, OrToks(or, j + 1) + rest, acc, p);
      GroupSkipsOr(or, j + 1, rest, acc + [es[0]], p);
      GroupReadsJoined(es[1..], or, j + |Separator(or)|, more, acc + [es[0]], p);
      assert acc + [es[0]] + es[1..] == acc + es;
    }
  }

  lemma BranchReadsElement(a: Ast, pos: nat, more: seq<Tok>, done: seq<seq<Ast>>, current: seq<Ast>)
    requires Element(a)
    ensures BranchesOf(ElementToks(a, pos) + more, done, current) == BranchesOf(more, done, current + [a])
  {
    var toks := ElementToks(a, pos) + more;
    if a.Or? {
      ElementGroup(a, pos, more);
      assert toks[0] == LParen(pos);
    } else {
      LeafOfTok(a, pos);
      LeafOfTok(a, pos + 1);
      if Enclosed(a) {
        var inner := [LeafTok(a, pos + 1), RParen(pos + 1 + |LeafText(a)|)] + more;
        assert toks[1..] == inner;
        assert inner[1..][1..] == more;
        assert GroupOf(inner, [], pos) == GroupOf(inner[1..], [a], pos);
      } else {
        assert toks[1..] == more;
      }
    }
  }

  lemma NoOr(pos: nat, more: seq<Tok>)
    ensures OrToks(false, pos) + more == more
  {
  }

  lemma {:induction false} BranchReadsJoined(es: seq<Ast>, pos: nat, more: seq<Tok>, done: seq<seq<Ast>>, current: seq<Ast>)
    requires es != [] && AllElements(es)
    ensures BranchesOf(JoinedToks(es, false, pos) + more, done, current) == BranchesOf(more, done, current + es)
    decreases |es|
  {
    hide ElementToks, ElementText, OrToks, Separator, BranchesOf;
    if |es| == 1 {
      BranchReadsElement(es[0], pos, more, done, current);
      assert current + es == current + [es[0]];
    } else {
      var j := pos + |ElementText(es[0])|;
      var rest := JoinedToks(es[1..], false, j + |Separator(false)|);
      JoinedToksSplit(es, false, pos, more);
      NoOr(j + 1, rest + more);
      hide JoinedToks;
      BranchReadsElement(es[0], pos, rest + more, done, current);
      BranchReadsJoined(es[1..], j + |Separator(false)|, more, done, current + [es[0]]);
      assert current + [es[0]] + es[1..] == current + es;
    }
  }

  /** A branch as the list the parser collects. */
  function Members(b: Ast): seq<Ast> {
    if b.And? then b.all else [b]
  }

  function AllMembers(bs: seq<Ast>): seq<seq<Ast>> {
    if bs == [] then [] else [Members(bs[0])] + AllMembers(bs[1..])
  }

  lemma ParserReadsBranch(b: Ast, pos: nat, more: seq<Tok>, done: seq<seq<Ast>>)
    requires Branch(b)
    ensures BranchesOf(BranchToks(b, pos) + more, done, []) == BranchesOf(more, done, Members(b))
  {
    if b.And? {
      BranchReadsJoined(b.all, pos, more, done, []);
      assert [] + b.all == b.all;
    } else {
      BranchReadsElement(b, pos, more, done, []);
      assert [] + [b] == [b];
    }
  }

  lemma BranchesStep(pos: nat, rest: seq<Tok>, done: seq<seq<Ast>>, current: seq<Ast>)
    ensures BranchesOf([TOr(pos)] + rest, done, current) == BranchesOf(rest, done + [current], [])
    ensures BranchesOf([], done, current) == Branches(done + [current], [], [])
  {
    assert ([TOr(pos)] + rest)[1..] == rest;
  }

  lemma {:induction false} ParserReadsBranches(bs: seq<Ast>, pos: nat, done: seq<seq<Ast>>)
    requires bs != [] && AllBranches(bs)
    ensures BranchesOf(BranchesToks(bs, pos), done, []) == Branches(done + AllMembers(bs), [], [])
    decreases |bs|
  {
    hide BranchToks, BranchText, BranchesOf, Separator, Branch, Members;
    if |bs| == 1 {
      assert BranchesToks(bs, pos) == BranchToks(bs[0], pos) + [];
      ParserReadsBranch(bs[0], pos, [], done);
      BranchesStep(0, [], done, Members(bs[0]));
      assert AllMembers(bs) == [Members(bs[0])];
    } else {
      var j := pos + |BranchText(bs[0])|;
      var rest := BranchesToks(bs[1..], j + |Separator(true)|);
      assert BranchesToks(bs, pos) == BranchToks(bs[0], pos) + ([TOr(j + 1)] + rest);
      ParserReadsBranch(bs[0], pos, [TOr(j + 1)] + rest, done);
      BranchesStep(j + 1, rest, done, Members(bs[0]));
      ParserReadsBranches(bs[1..], j + |Separator(true)|, done + [Members(bs[0])]);
      Assoc(done, [Members(bs[0])], AllMembers(bs[1..]));
    }
  }

  lemma {:induction false} MembersBack(bs: seq<Ast>)
    requires AllBranches(bs)
    ensures BranchAsts(AllMembers(bs)) == bs
    decreases |bs|
  {
    if bs != [] {
      var init, last := bs[..|bs| - 1], bs[|bs| - 1];
      MembersBack(init);
      MembersSnoc(init, last);
      assert bs == init + [last];
      assert BranchAst(Members(last)) == Some(last);
    }
  }

  lemma {:induction false} MembersSnoc(init: seq<Ast>, last: Ast)
    ensures AllMembers(init + [last]) == AllMembers(init) + [Members(last)]
    decreases |init|
  {
    if init == [] {
      assert [last][1..] == [];
    } else {
      MembersSnoc(init[1..], last);
      assert (init + [last])[1..] == init[1..] + [last];
    }
  }

  // ---- the round trip ------------------------------------------------------------------

  /** Spelled lines start and end on a character `trim` keeps. */
  predicate Tight(s: string) {
    s != "" && !IsWhitespace(s[0]) && !IsWhitespace(s[|s| - 1])
  }

  lemma TightSpan(s: string, mid: string, t: string)
    requires Tight(s) && Tight(t)
    ensures Tight(s + (mid + t))
  {
  }

  lemma LeafTight(a: Ast)
    requires LeafOk(a) && !Enclosed(a)
    ensures Tight(LeafText(a))
  {
    var s := LeafText(a);
    assert s[0] == '@';
    var n := match a { case Tag(n) => n case Compare(n, _, _) => n case Not(Tag(n)) => n case Not(Compare(n, _, _)) => n };
    if n != "" {
      assert IsTagChar(n[|n| - 1]);
    }
  }

  lemma {:induction false} ElementTight(a: Ast)
    requires Element(a)
    ensures Tight(ElementText(a))
  {
    if !a.Or? && !Enclosed(a) {
      LeafTight(a);
    }
  }

  lemma {:induction false} JoinedTight(es: seq<Ast>, or: bool)
    requires es != [] && AllElements(es)
    ensures Tight(Joined(es, or))
    decreases |es|
  {
    hide ElementText;
    ElementTight(es[0]);
    if |es| > 1 {
      JoinedTight(es[1..], or);
      TightSpan(ElementText(es[0]), Separator(or), Joined(es[1..], or));
    }
  }

  lemma BranchTight(b: Ast)
    requires Branch(b)
    ensures Tight(BranchText(b))
  {
    if b.And? {
      JoinedTight(b.all, false);
    } else {
      ElementTight(b);
    }
  }

  lemma {:induction false} BranchesTight(bs: seq<Ast>)
    requires bs != [] && AllBranches(bs)
    ensures Tight(BranchesText(bs))
    decreases |bs|
  {
    hide BranchText;
    BranchTight(bs[0]);
    if |bs| > 1 {
      BranchesTight(bs[1..]);
      TightSpan(BranchText(bs[0]), Separator(true), BranchesText(bs[1..]));
    }
  }

  lemma TightParse(s: string, toks: seq<Tok>)
    requires Tight(s) && toks != [] && Reads(s, 0, toks, |s|)
    ensures Parse(s) == Parsed(ParseTokens(toks).0, ParseTokens(toks).1)
  {
    hide StepAt, ParseTokens;
    assert Trim(s) == s;
    hide Trim;
    assert toks + [] == toks;
  }

  lemma ElementToksNonEmpty(a: Ast, pos: nat)
    requires Element(a)
    ensures ElementToks(a, pos) != []
  {
  }

  lemma BranchesToksNonEmpty(bs: seq<Ast>, pos: nat)
    requires bs != [] && AllBranches(bs)
    ensures BranchesToks(bs, pos) != []
  {
    var b := bs[0];
    if b.And? {
      ElementToksNonEmpty(b.all[0], pos);
    } else {
      ElementToksNonEmpty(b, pos);
    }
  }

  lemma BranchesTokensParse(bs: seq<Ast>)
    requires bs != [] && AllBranches(bs)
    ensures ParseTokens(BranchesToks(bs, 0)) == (Some(if |bs| == 1 then bs[0] else Or(bs)), [])
  {
    hide BranchesToks, AllBranches, BranchesOf, AllMembers, BranchAsts;
    BranchesToksNonEmpty(bs, 0);
    ParserReadsBranches(bs, 0, []);
    assert [] + AllMembers(bs) == AllMembers(bs);
    MembersBack(bs);
    var none: seq<ParseError> := [];
    assert none + none == none;
  }

  /** A line of branches parses to what they come to, and to no error. */
  lemma BranchesParse(bs: seq<Ast>)
    requires bs != [] && AllBranches(bs)
    ensures Parse(BranchesText(bs)) == Parsed(Some(if |bs| == 1 then bs[0] else Or(bs)), [])
  {
    hide BranchesText, BranchesToks, ParseTokens, Parse, Reads, Tight, At, AllBranches;
    var s := BranchesText(bs);
    BranchesTight(bs);
    WholeAt(s);
    BranchesRead(s, 0, bs);
    BranchesToksNonEmpty(bs, 0);
    BranchesTokensParse(bs);
    TightParse(s, BranchesToks(bs, 0));
  }

  lemma WholeAt(s: string)
    ensures At(s, 0, s)
  {
  }

  /** Printing a tree and parsing the line gives the tree back, with no error. */
  lemma PrintParses(a: Ast)
    requires Expressible(a)
    ensures Parse(Print(a)) == Parsed(Some(a), [])
  {
    if Branch(a) {
      BranchesParse([a]);
    } else {
      BranchesParse(a.any);
    }
  }

  /** The trees lines parse to without an error are exactly the expressible
      ones; errors do not add any. */
  lemma ParseRange(a: Ast)
    ensures Expressible(a) <==> exists s :: Parse(s) == Parsed(Some(a), [])
    ensures Expressible(a) <==> exists s :: Parse(s).ast == Some(a)
  {
    if Expressible(a) {
      PrintParses(a);
      assert Parse(Print(a)).ast == Some(a);
    }
    forall s | Parse(s).ast == Some(a) ensures Expressible(a) {
      ParsedIsExpressible(s);
    }
  }

  // ---- what autocomplete inserts -----------------------------------------------------

  function WithoutQuotes(v: string): (r: string)
    ensures NoQuote(r)
    ensures NoQuote(v) ==> r == v
    ensures !NoQuote(v) ==> |r| < |v|
  {
    if v == "" then ""
    else if v[0] == '"' then WithoutQuotes(v[1..])
    else
      assert NoQuote(v) <==> NoQuote(v[1..]) by {
        if NoQuote(v[1..]) {
          forall k | 0 <= k < |v| ensures v[k] != '"' {
            if k > 0 { assert v[k] == v[1..][k - 1]; }
          }
        }
      }
      assert v == [v[0]] + v[1..];
      [v[0]] + WithoutQuotes(v[1..])
  }

  predicate NeedsQuotes(v: string) {
    exists k :: 0 <= k < |v| && (IsWhitespace(v[k]) || v[k] == '(' || v[k] == ')')
  }

  /** What completing a value writes after `@tag:`. */
  function Quote(v: string): string {
    if NeedsQuotes(v) then "\"" + (WithoutQuotes(v) + "\"") else v
  }

  lemma BareQuoteReads(c: string, i: nat, v: string)
    requires !NeedsQuotes(v) && At(c, i, v) && (i + |v| < |c| ==> ValueStop(c[i + |v|]))
    ensures v == "" || v[0] != '"' ==> ValueAt(c, i) == (Some(v), i + |v|)
    ensures v != "" && v[0] == '"' ==> ValueAt(c, i).0 != Some(v)
  {
    if v == "" || v[0] != '"' {
      BareReads(c, i, v);
      AtSlice(c, i, v);
      if v != "" { assert c[i] == v[0]; }
    } else {
      assert c[i] == v[0];
      var j := QuoteEnd(c, i + 1);
      if j < |c| && i + 1 < j {
        assert c[i + 1..j][0] == c[i + 1];
      }
    }
  }

  /** A completed value reads back as it was offered if and only if the quotes
      it holds, if any, are where neither quoting nor reading touches them. */
  lemma QuoteReadsBack(c: string, i: nat, v: string)
    requires At(c, i, Quote(v)) && (i + |Quote(v)| < |c| ==> ValueStop(c[i + |Quote(v)|]))
    ensures ValueAt(c, i).0 == Some(v)
       <==> if NeedsQuotes(v) then NoQuote(v) else v == "" || v[0] != '"'
  {
    if NeedsQuotes(v) {
      var w := WithoutQuotes(v);
      assert Quote(v) == ValueText(w);
      ValueReads(c, i, Eq, w);
    } else {
      BareQuoteReads(c, i, v);
    }
  }

  /** A value that starts with a quote and has no space is offered as it is, and
      reads as an open quote. */
  lemma QuoteCanFail()
    ensures var v := "\"abc"; Quote(v) == v && At(v, 0, Quote(v)) && ValueAt(v, 0) == (None, 4)
  {
    var v := "\"abc";
    assert QuoteEnd(v, 1) == 4;
  }
}
