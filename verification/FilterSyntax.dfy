/** The filter language: syntax trees, tokens, and the trees a line can spell. */
module FilterSyntax {
  import opened Base

  datatype Op = Eq | Gt | Gte | Lt | Lte

  datatype Ast =
    | Text(text: string)
    | Tag(name: string)
    | Compare(tag: string, op: Op, value: string)
    | Not(inner: Ast)
    | And(all: seq<Ast>)
    | Or(any: seq<Ast>)

  datatype ParseError = ParseError(position: nat, message: string)

  datatype Parsed = Parsed(ast: Option<Ast>, errors: seq<ParseError>)

  /** A token and the character it starts at. */
  datatype Tok =
    | TText(text: string, pos: nat)
    | TTag(name: string, pos: nat)
    | TOp(name: string, op: Op, value: string, pos: nat)
    | TNot(name: string, pos: nat)
    | TNotOp(name: string, value: string, pos: nat)
    | LParen(pos: nat)
    | RParen(pos: nat)
    | TOr(pos: nat)

  /** ASCII letters and digits, `_` and `-`. */
  predicate IsTagChar(c: char) {
    'a' <= c <= 'z' || 'A' <= c <= 'Z' || '0' <= c <= '9' || c == '_' || c == '-'
  }

  function TrimStart(s: string): (t: string)
    ensures |t| <= |s| && t == s[|s| - |t|..]
    ensures t != "" ==> !IsWhitespace(t[0])
    ensures s != "" && !IsWhitespace(s[0]) ==> t == s
  {
    if s != "" && IsWhitespace(s[0]) then TrimStart(s[1..]) else s
  }

  function TrimEnd(s: string): (t: string)
    ensures |t| <= |s| && t == s[..|t|]
    ensures t != "" ==> !IsWhitespace(t[|t| - 1])
    ensures s != "" && !IsWhitespace(s[|s| - 1]) ==> t == s
  {
    if s != "" && IsWhitespace(s[|s| - 1]) then TrimEnd(s[..|s| - 1]) else s
  }

  /** `str::trim`: what is left starts and ends on something visible. */
  function Trim(s: string): (t: string)
    ensures |t| <= |s|
    ensures t != "" ==> !IsWhitespace(t[0]) && !IsWhitespace(t[|t| - 1])
    ensures s != "" && !IsWhitespace(s[0]) && !IsWhitespace(s[|s| - 1]) ==> t == s
  {
    TrimEnd(TrimStart(s))
  }

  /** `-` reads as `_` in a tag name. */
  function NormalizeTag(name: string): (r: string)
    ensures |r| == |name|
    ensures forall k :: 0 <= k < |r| ==> r[k] == if name[k] == '-' then '_' else name[k]
  {
    if name == "" then ""
    else [if name[0] == '-' then '_' else name[0]] + NormalizeTag(name[1..])
  }

  // ---- the trees a line can spell -----------------------------------------

  predicate NameOk(n: string) {
    forall k :: 0 <= k < |n| ==> IsTagChar(n[k]) && n[k] != '-'
  }

  /** A value survives in quotes when it holds none, or bare when nothing in
      it ends a bare value, opens a quote, or completes `>` or `<`. */
  predicate ValueOk(op: Op, v: string) {
    || NoQuote(v)
    || (&& v[0] != '"' && (op.Gt? || op.Lt? ==> v[0] != '=')
        && forall k :: 0 <= k < |v| ==> !ValueStop(v[k]))
  }

  predicate NoQuote(v: string)
    ensures !NoQuote(v) ==> v != ""
  {
    forall k :: 0 <= k < |v| ==> v[k] != '"'
  }

  /** A bare value runs to a space or a parenthesis. */
  predicate ValueStop(ch: char) {
    ch == ' ' || ch == ')' || ch == '('
  }

  predicate TextStop(ch: char) {
    ch == '@' || ch == '(' || ch == ')'
  }

  /** Something visible at both ends, and nothing that ends free text. */
  predicate TextOk(t: string) {
    && t != "" && !IsWhitespace(t[0]) && !IsWhitespace(t[|t| - 1])
    && forall k :: 0 <= k < |t| ==> !TextStop(t[k])
  }

  predicate LeafOk(a: Ast) {
    match a
    case Text(t) => TextOk(t)
    case Tag(n) => n != "" && NameOk(n)
    case Compare(n, op, v) => n != "" && NameOk(n) && ValueOk(op, v)
    case Not(Tag(n)) => NameOk(n)
    case Not(Compare(n, op, v)) => NameOk(n) && op.Eq? && ValueOk(Eq, v)
    case _ => false
  }

  /** What can stand between spaces: a leaf, or a group of two or more. */
  predicate Element(a: Ast)
    decreases a
  {
    if a.Or? then |a.any| >= 2 && forall k :: 0 <= k < |a.any| ==> Element(a.any[k]) else LeafOk(a)
  }

  /** What can stand between two top-level `@or`s. */
  predicate Branch(a: Ast) {
    Element(a) || (a.And? && |a.all| >= 2 && AllElements(a.all))
  }

  /** Every tree some line parses to (see `FilterRoundTrip`). */
  predicate Expressible(a: Ast) {
    Branch(a) || (a.Or? && |a.any| >= 2 && AllBranches(a.any))
  }

  /** A token the lexer can produce: its leaf is one a line can spell. */
  predicate TokOk(t: Tok) {
    match t
    case TText(s, _) => TextOk(s)
    case TTag(n, _) => n != "" && NameOk(n)
    case TOp(n, op, v, _) => n != "" && NameOk(n) && ValueOk(op, v)
    case TNot(n, _) => NameOk(n)
    case TNotOp(n, v, _) => NameOk(n) && ValueOk(Eq, v)
    case _ => true
  }

  predicate AllToksOk(toks: seq<Tok>) {
    forall k :: 0 <= k < |toks| ==> TokOk(toks[k])
  }

  /** Every token starts before `n`. */
  predicate ToksInside(toks: seq<Tok>, n: nat) {
    forall k :: 0 <= k < |toks| ==> toks[k].pos < n
  }

  /** Every error points before `n`. */
  predicate ErrorsInside(errs: seq<ParseError>, n: nat) {
    forall k :: 0 <= k < |errs| ==> errs[k].position < n
  }

  predicate AllElements(es: seq<Ast>) {
    forall k :: 0 <= k < |es| ==> Element(es[k])
  }

  predicate AllBranches(bs: seq<Ast>) {
    forall k :: 0 <= k < |bs| ==> Branch(bs[k])
  }
}
