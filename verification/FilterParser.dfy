/** The filter parser: groups, branches, and what its errors mean. */
module FilterParser {
  import opened Base
  import opened FilterSyntax
  import FilterLexer

  const STRAY_CLOSE := "unexpected closing parenthesis"
  const UNCLOSED := "unclosed parenthesis"
  const EMPTY_GROUP := "empty OR group"

  /** What a parenthesis group comes to, and the tokens after it. */
  datatype Group = Group(ast: Option<Ast>, rest: seq<Tok>, errs: seq<ParseError>)

  /** What the top level comes to: the branches between `@or`s. */
  datatype Branches = Branches(all: seq<seq<Ast>>, rest: seq<Tok>, errs: seq<ParseError>)

  predicate IsLeaf(t: Tok) {
    !t.LParen? && !t.RParen? && !t.TOr?
  }

  function Leaf(t: Tok): (a: Ast)
    requires IsLeaf(t)
    ensures TokOk(t) ==> LeafOk(a)
  {
    match t
    case TText(s, _) => Text(s)
    case TTag(n, _) => Tag(n)
    case TOp(n, op, v, _) => Compare(n, op, v)
    case TNot(n, _) => Not(Tag(n))
    case TNotOp(n, v, _) => Not(Compare(n, Eq, v))
  }

  function Append(elements: seq<Ast>, a: Option<Ast>): (r: seq<Ast>) {
    if a.Some? then elements + [a.value] else elements
  }

  /** The group that holds `elements` already and reads on at `tokens`. */
  function GroupOf(tokens: seq<Tok>, elements: seq<Ast>, openPos: nat): (g: Group)
    ensures |g.rest| <= |tokens|
    decreases |tokens|
  {
    if tokens == [] then Group(None, [], [ParseError(openPos, UNCLOSED)])
    else match tokens[0]
      case RParen(_) =>
        if |elements| == 0 then Group(None, tokens[1..], [ParseError(openPos, EMPTY_GROUP)])
        else if |elements| == 1 then Group(Some(elements[0]), tokens[1..], [])
        else Group(Some(Or(elements)), tokens[1..], [])
      case TOr(_) => GroupOf(tokens[1..], elements, openPos)
      case LParen(p) =>
        var inner := GroupOf(tokens[1..], [], p);
        var outer := GroupOf(inner.rest, Append(elements, inner.ast), openPos);
        outer.(errs := inner.errs + outer.errs)
      case t => GroupOf(tokens[1..], elements + [Leaf(t)], openPos)
  }

  /** The top level, with `done` branches closed and `current` still open. */
  function BranchesOf(tokens: seq<Tok>, done: seq<seq<Ast>>, current: seq<Ast>): (b: Branches)
    ensures |b.rest| <= |tokens|
    ensures b.rest != [] ==> b.rest[0].RParen?
    decreases |tokens|
  {
    if tokens == [] then Branches(done + [current], tokens, [])
    else match tokens[0]
      case RParen(_) => Branches(done + [current], tokens, [])
      case TOr(_) => BranchesOf(tokens[1..], done + [current], [])
      case LParen(p) =>
        var group := GroupOf(tokens[1..], [], p);
        var outer := BranchesOf(group.rest, done, Append(current, group.ast));
        outer.(errs := group.errs + outer.errs)
      case t => BranchesOf(tokens[1..], done, current + [Leaf(t)])
  }

  /** One branch as a tree: nothing, its one element, or an AND. */
  function BranchAst(b: seq<Ast>): Option<Ast> {
    if |b| == 0 then None else if |b| == 1 then Some(b[0]) else Some(And(b))
  }

  function BranchAsts(branches: seq<seq<Ast>>): (asts: seq<Ast>) {
    if branches == [] then [] else Append(BranchAsts(branches[..|branches| - 1]), BranchAst(branches[|branches| - 1]))
  }

  function BranchesToAst(branches: seq<seq<Ast>>): Option<Ast> {
    var asts := BranchAsts(branches);
    if |asts| == 0 then None else if |asts| == 1 then Some(asts[0]) else Some(Or(asts))
  }

  function ParseTokens(tokens: seq<Tok>): (Option<Ast>, seq<ParseError>) {
    if tokens == [] then (None, [])
    else
      var b := BranchesOf(tokens, [], []);
      var stray := if b.rest == [] then [] else [ParseError(b.rest[0].pos, STRAY_CLOSE)];
      (BranchesToAst(b.all), b.errs + stray)
  }

  function Parse(input: string): (p: Parsed) {
    var c := Trim(input);
    if c == "" then Parsed(None, []) else ParseLexed(FilterLexer.Lex(c, 0))
  }

  function ParseLexed(lexed: (seq<Tok>, seq<ParseError>)): (p: Parsed) {
    var (ast, errs) := ParseTokens(lexed.0);
    Parsed(ast, lexed.1 + errs)
  }

  // ---- the loops --------------------------------------------------------------

  /** Inside parentheses every member is OR'ed; groups nest. */
  method OrGroup(toks: seq<Tok>, openPos: nat, errs: seq<ParseError>)
    returns (group: Option<Ast>, rest: seq<Tok>, errors: seq<ParseError>)
    ensures var g := GroupOf(toks, [], openPos);
      group == g.ast && rest == g.rest && errors == errs + g.errs
    decreases |toks|
  {
    var tokens, elements := toks, [];
    errors := errs;
    while true
      invariant |tokens| <= |toks|
      invariant var g, h := GroupOf(toks, [], openPos), GroupOf(tokens, elements, openPos);
        g.ast == h.ast && g.rest == h.rest && errs + g.errs == errors + h.errs
      decreases |tokens|
    {
      if tokens == [] {
        errors := errors + [ParseError(openPos, UNCLOSED)];
        return None, tokens, errors;
      }
      match tokens[0]
      case RParen(_) =>
        rest := tokens[1..];
        if |elements| == 0 {
          errors := errors + [ParseError(openPos, EMPTY_GROUP)];
          return None, rest, errors;
        } else if |elements| == 1 {
          return Some(elements[0]), rest, errors;
        } else {
          return Some(Or(elements)), rest, errors;
        }
      case TOr(_) =>
        tokens := tokens[1..];
      case LParen(pos) =>
        var g, r, es := OrGroup(tokens[1..], pos, errors);
        if g.Some? {
          elements := elements + [g.value];
        }
        tokens, errors := r, es;
      case other =>
        elements := elements + [Leaf(other)];
        tokens := tokens[1..];
    }
  }

  /** Reads branches until the tokens or the open groups end. */
  method ElementsWithOr(toks: seq<Tok>, errs: seq<ParseError>)
    returns (branches: seq<seq<Ast>>, tokens: seq<Tok>, errors: seq<ParseError>)
    ensures var b := BranchesOf(toks, [], []);
      branches == b.all && tokens == b.rest && errors == errs + b.errs
  {
    tokens, branches, errors := toks, [], errs;
    var current := [];
    while tokens != []
      invariant var b, h := BranchesOf(toks, [], []), BranchesOf(tokens, branches, current);
        b.all == h.all && b.rest == h.rest && errs + b.errs == errors + h.errs
      decreases |tokens|
    {
      match tokens[0]
      case RParen(_) =>
        break;
      case TOr(_) =>
        branches, current := branches + [current], [];
        tokens := tokens[1..];
      case LParen(pos) =>
        var g;
        g, tokens, errors := OrGroup(tokens[1..], pos, errors);
        if g.Some? {
          current := current + [g.value];
        }
      case other =>
        current := current + [Leaf(other)];
        tokens := tokens[1..];
    }
    branches := branches + [current];
  }

  method ParseLine(input: string) returns (p: Parsed)
    ensures p == Parse(input)
  {
    hide FilterLexer.Lex, Trim;
    var line := Trim(input);
    if line == "" {
      return Parsed(None, []);
    }
    var lexer := new FilterLexer.Lexer(line);
    lexer.Run();
    if lexer.tokens == [] {
      return Parsed(None, lexer.errors);
    }
    var branches, rest, errors := ElementsWithOr(lexer.tokens, lexer.errors);
    if rest != [] {
      errors := errors + [ParseError(rest[0].pos, STRAY_CLOSE)];
    }
    p := Parsed(BranchesToAst(branches), errors);
  }

  // ---- every tree that comes out is one the grammar can spell -------------------

  lemma {:induction false} GroupIsElement(tokens: seq<Tok>, elements: seq<Ast>, openPos: nat)
    requires AllToksOk(tokens) && AllElements(elements)
    ensures var g := GroupOf(tokens, elements, openPos);
      AllToksOk(g.rest) && (g.ast.Some? ==> Element(g.ast.value))
    decreases |tokens|
  {
    if tokens != [] {
      match tokens[0]
      case RParen(_) =>
      case TOr(_) => GroupIsElement(tokens[1..], elements, openPos);
      case LParen(p) =>
        var inner := GroupOf(tokens[1..], [], p);
        GroupIsElement(tokens[1..], [], p);
        GroupIsElement(inner.rest, Append(elements, inner.ast), openPos);
      case t =>
        assert TokOk(t);
        GroupIsElement(tokens[1..], elements + [Leaf(t)], openPos);
    }
  }

  predicate AllBranchElements(branches: seq<seq<Ast>>) {
    forall k :: 0 <= k < |branches| ==> AllElements(branches[k])
  }

  lemma {:induction false} BranchesAreElements(tokens: seq<Tok>, done: seq<seq<Ast>>, current: seq<Ast>)
    requires AllToksOk(tokens) && AllBranchElements(done) && AllElements(current)
    ensures AllBranchElements(BranchesOf(tokens, done, current).all)
    decreases |tokens|
  {
    if tokens != [] {
      match tokens[0]
      case RParen(_) =>
      case TOr(_) => BranchesAreElements(tokens[1..], done + [current], []);
      case LParen(p) =>
        var group := GroupOf(tokens[1..], [], p);
        GroupIsElement(tokens[1..], [], p);
        BranchesAreElements(group.rest, done, Append(current, group.ast));
      case t =>
        assert TokOk(t);
        BranchesAreElements(tokens[1..], done, current + [Leaf(t)]);
    }
  }

  lemma {:induction false} BranchAstsAreBranches(branches: seq<seq<Ast>>)
    requires AllBranchElements(branches)
    ensures AllBranches(BranchAsts(branches))
  {
    if branches != [] {
      var last := branches[|branches| - 1];
      BranchAstsAreBranches(branches[..|branches| - 1]);
      assert AllElements(last);
      if |last| == 1 {
        assert Element(last[0]);
      }
    }
  }

  lemma TokensAreExpressible(tokens: seq<Tok>)
    requires AllToksOk(tokens)
    ensures ParseTokens(tokens).0.Some? ==> Expressible(ParseTokens(tokens).0.value)
  {
    BranchesAreElements(tokens, [], []);
    BranchAstsAreBranches(BranchesOf(tokens, [], []).all);
  }

  /** Whatever the line and whatever its errors, the tree is one the grammar spells. */
  lemma ParsedIsExpressible(input: string)
    ensures Parse(input).ast.Some? ==> Expressible(Parse(input).ast.value)
  {
    hide FilterLexer.Lex, Trim;
    var c := Trim(input);
    if c != "" {
      FilterLexer.LexIsOk(c, 0);
      TokensAreExpressible(FilterLexer.Lex(c, 0).0);
    }
  }

  // ---- where errors point ---------------------------------------------------------

  lemma {:induction false} GroupErrorsInside(tokens: seq<Tok>, elements: seq<Ast>, openPos: nat, n: nat)
    requires openPos < n && ToksInside(tokens, n)
    ensures var g := GroupOf(tokens, elements, openPos);
      ToksInside(g.rest, n) && ErrorsInside(g.errs, n)
    decreases |tokens|
  {
    if tokens != [] {
      match tokens[0]
      case RParen(_) =>
      case TOr(_) => GroupErrorsInside(tokens[1..], elements, openPos, n);
      case LParen(p) =>
        var inner := GroupOf(tokens[1..], [], p);
        assert tokens[0].pos == p;
        GroupErrorsInside(tokens[1..], [], p, n);
        GroupErrorsInside(inner.rest, Append(elements, inner.ast), openPos, n);
      case t => GroupErrorsInside(tokens[1..], elements + [Leaf(t)], openPos, n);
    }
  }

  lemma {:induction false} BranchErrorsInside(tokens: seq<Tok>, done: seq<seq<Ast>>, current: seq<Ast>, n: nat)
    requires ToksInside(tokens, n)
    ensures var b := BranchesOf(tokens, done, current);
      ToksInside(b.rest, n) && ErrorsInside(b.errs, n)
    decreases |tokens|
  {
    if tokens != [] {
      match tokens[0]
      case RParen(_) =>
      case TOr(_) => BranchErrorsInside(tokens[1..], done + [current], [], n);
      case LParen(p) =>
        var group := GroupOf(tokens[1..], [], p);
        assert tokens[0].pos == p;
        GroupErrorsInside(tokens[1..], [], p, n);
        BranchErrorsInside(group.rest, done, Append(current, group.ast), n);
      case t => BranchErrorsInside(tokens[1..], done, current + [Leaf(t)], n);
    }
  }

  lemma TokenErrorsInside(tokens: seq<Tok>, n: nat)
    requires ToksInside(tokens, n)
    ensures ErrorsInside(ParseTokens(tokens).1, n)
  {
    BranchErrorsInside(tokens, [], [], n);
  }

  lemma LexedErrorsInside(lexed: (seq<Tok>, seq<ParseError>), n: nat)
    requires ToksInside(lexed.0, n) && ErrorsInside(lexed.1, n)
    ensures ErrorsInside(ParseLexed(lexed).errors, n)
  {
    TokenErrorsInside(lexed.0, n);
  }

  /** Every error of any line, from either pass, points inside the trimmed line. */
  lemma ErrorsPointInside(input: string)
    ensures ErrorsInside(Parse(input).errors, |Trim(input)|)
  {
    hide FilterLexer.Lex, Trim;
    var c := Trim(input);
    if c != "" {
      FilterLexer.LexIsOk(c, 0);
      LexedErrorsInside(FilterLexer.Lex(c, 0), |c|);
    }
  }

  // ---- the parser complains exactly of its parentheses ----------------------------

  /** `depth` open parentheses are closed by `tokens`, none too many. */
  predicate Balanced(tokens: seq<Tok>, depth: nat) {
    if tokens == [] then depth == 0
    else if tokens[0].LParen? then Balanced(tokens[1..], depth + 1)
    else if tokens[0].RParen? then depth > 0 && Balanced(tokens[1..], depth - 1)
    else Balanced(tokens[1..], depth)
  }

  /** No parenthesis closes a group with nothing in it but `@or`s; `bare`
      says the innermost group so far is such a one. */
  predicate Filled(tokens: seq<Tok>, bare: bool) {
    if tokens == [] then true
    else if tokens[0].LParen? then Filled(tokens[1..], true)
    else if tokens[0].RParen? then !bare && Filled(tokens[1..], false)
    else Filled(tokens[1..], bare && tokens[0].TOr?)
  }

  lemma {:induction false} GroupErrorsExactly(tokens: seq<Tok>, elements: seq<Ast>, openPos: nat, depth: nat)
    ensures var g := GroupOf(tokens, elements, openPos);
      if g.errs == [] then
        && g.ast.Some?
        && Balanced(tokens, depth + 1) == Balanced(g.rest, depth)
        && Filled(tokens, elements == []) == Filled(g.rest, false)
      else
        !(Balanced(tokens, depth + 1) && Filled(tokens, elements == []))
    decreases |tokens|
  {
    if tokens != [] {
      match tokens[0]
      case RParen(_) =>
      case TOr(_) => GroupErrorsExactly(tokens[1..], elements, openPos, depth);
      case LParen(p) =>
        var inner := GroupOf(tokens[1..], [], p);
        GroupErrorsExactly(tokens[1..], [], p, depth + 1);
        GroupErrorsExactly(inner.rest, Append(elements, inner.ast), openPos, depth);
      case t => GroupErrorsExactly(tokens[1..], elements + [Leaf(t)], openPos, depth);
    }
  }

  lemma {:induction false} BranchErrorsExactly(tokens: seq<Tok>, done: seq<seq<Ast>>, current: seq<Ast>)
    ensures var b := BranchesOf(tokens, done, current);
      (b.errs == [] && b.rest == []) <==> (Balanced(tokens, 0) && Filled(tokens, false))
    decreases |tokens|
  {
    if tokens != [] {
      match tokens[0]
      case RParen(_) =>
      case TOr(_) => BranchErrorsExactly(tokens[1..], done + [current], []);
      case LParen(p) =>
        var group := GroupOf(tokens[1..], [], p);
        GroupErrorsExactly(tokens[1..], [], p, 0);
        BranchErrorsExactly(group.rest, done, Append(current, group.ast));
      case t => BranchErrorsExactly(tokens[1..], done, current + [Leaf(t)]);
    }
  }

  /** The parser reports an error if and only if some parenthesis is unmatched
      or some group holds nothing. */
  lemma ParserErrorsExactly(tokens: seq<Tok>)
    ensures ParseTokens(tokens).1 == [] <==> Balanced(tokens, 0) && Filled(tokens, false)
  {
    if tokens != [] {
      BranchErrorsExactly(tokens, [], []);
    }
  }
}
