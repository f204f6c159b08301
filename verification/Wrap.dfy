/** Word wrap: whole words, as few lines as any breaking needs. */
module Wrap {
  import opened Base

  // ---- words ---------------------------------------------------------------------

  /** The length of the run of characters at the front that are whitespace, or are not. */
  function Run(s: string, space: bool): (n: nat)
    ensures n <= |s| && forall k :: 0 <= k < n ==> IsWhitespace(s[k]) == space
    ensures n < |s| ==> IsWhitespace(s[n]) != space
  {
    if s != "" && IsWhitespace(s[0]) == space then 1 + Run(s[1..], space) else 0
  }

  /** `str::split_whitespace` */
  function Words(s: string): (words: seq<string>)
    ensures forall k :: 0 <= k < |words| ==> words[k] != ""
    decreases |s|
  {
    var t := s[Run(s, true)..];
    if t == "" then [] else
      var n := Run(t, false);
      [t[..n]] + Words(t[n..])
  }

  /** The words of a line, a space between each two. */
  function Spaced(words: seq<string>): string {
    if words == [] then ""
    else if |words| == 1 then words[0]
    else Spaced(words[..|words| - 1]) + " " + words[|words| - 1]
  }

  function Flat(lines: seq<seq<string>>): seq<string> {
    if lines == [] then [] else lines[0] + Flat(lines[1..])
  }

  predicate NoBlank(words: seq<string>) {
    forall k :: 0 <= k < |words| ==> words[k] != ""
  }

  /** A line within `cols` characters, or a word that cannot be. */
  predicate LineOk(line: seq<string>, cols: nat) {
    |Spaced(line)| <= cols || |line| == 1
  }

  predicate LinesOk(lines: seq<seq<string>>, cols: nat) {
    forall k :: 0 <= k < |lines| ==> LineOk(lines[k], cols)
  }

  // ---- the breaking the code makes ----------------------------------------------------

  predicate Overflows(len: nat, word: string, cols: nat) {
    len > 0 && len + 1 + |word| > cols
  }

  /** Lines of `words`, the first of them already holding `line`. */
  function Greedy(words: seq<string>, cols: nat, line: seq<string>): (lines: seq<seq<string>>)
    ensures lines != []
    decreases |words|
  {
    if words == [] then [line]
    else if Overflows(|Spaced(line)|, words[0], cols) then [line] + Greedy(words[1..], cols, [words[0]])
    else Greedy(words[1..], cols, line + [words[0]])
  }

  function Render(lines: seq<seq<string>>): seq<string> {
    if lines == [] then [] else [Spaced(lines[0])] + Render(lines[1..])
  }

  /** Each paragraph broken by itself. */
  function Wrapped(paragraphs: seq<string>, cols: nat): seq<string> {
    if paragraphs == [] then []
    else
      var n := |paragraphs| - 1;
      Wrapped(paragraphs[..n], cols) + Render(Greedy(Words(paragraphs[n]), cols, []))
  }

  /** The most a `usize` holds. */
  const MOST := 0xFFFF_FFFF_FFFF_FFFF

  /** How many characters a line of `width` points holds: at least one, and the
      most there is when a character takes no room. */
  function Columns(width: real, ch: real): (cols: nat)
    ensures 1 <= cols <= MOST
    ensures ch > 0.0 && cols > 1 ==> cols as real * ch <= width
    ensures ch > 0.0 && cols < MOST ==> width < (cols + 1) as real * ch
  {
    if ch == 0.0 then if width > 0.0 then MOST else 1
    else
      var n := (width / ch).Floor;
      var cols := Max(Min(n, MOST), 1);
      FloorFits(width, ch, cols);
      cols
  }

  lemma FloorFits(width: real, ch: real, k: int)
    requires ch != 0.0
    ensures ch > 0.0 && k <= (width / ch).Floor ==> k as real * ch <= width
    ensures ch > 0.0 && k >= (width / ch).Floor ==> width < (k + 1) as real * ch
  {
    var q := width / ch;
    assert q * ch == width;
    if ch > 0.0 {
      if k <= q.Floor {
        Times(k as real, q, ch);
      }
      if k >= q.Floor {
        assert q < (k + 1) as real;
        Times(q, (k + 1) as real, ch);
      }
    }
  }

  lemma Times(a: real, b: real, c: real)
    requires c > 0.0
    ensures a <= b ==> a * c <= b * c
    ensures a < b ==> a * c < b * c
  {
  }

  lemma SpacedGrows(line: seq<string>, word: string)
    requires NoBlank(line) && word != ""
    ensures Spaced(line + [word]) == if line == [] then word else Spaced(line) + " " + word
    ensures |Spaced(line + [word])| > 0
    ensures line == [] <==> |Spaced(line)| == 0
  {
    var l := line + [word];
    assert l[..|l| - 1] == line;
  }

  lemma RenderCons(line: seq<string>, rest: seq<seq<string>>)
    ensures Render([line] + rest) == [Spaced(line)] + Render(rest)
  {
    assert ([line] + rest)[1..] == rest;
  }

  lemma GreedyStep(out: seq<string>, words: seq<string>, j: nat, cols: nat, held: seq<string>)
    requires j < |words|
    ensures out + Render(Greedy(words[j..], cols, held))
         == if Overflows(|Spaced(held)|, words[j], cols)
            then out + [Spaced(held)] + Render(Greedy(words[j + 1..], cols, [words[j]]))
            else out + Render(Greedy(words[j + 1..], cols, held + [words[j]]))
  {
    hide Spaced, Render;
    assert words[j..][0] == words[j] && words[j..][1..] == words[j + 1..];
    RenderCons(held, Greedy(words[j + 1..], cols, [words[j]]));
    Assoc(out, [Spaced(held)], Render(Greedy(words[j + 1..], cols, [words[j]])));
  }

  lemma LastLine(words: seq<string>, cols: nat, held: seq<string>)
    ensures Render(Greedy(words[|words|..], cols, held)) == [Spaced(held)]
  {
    RenderCons(held, []);
  }

  /** Wraps each paragraph to `width`, at `ch` a character. */
  method WrapText(paragraphs: seq<string>, width: real, ch: real) returns (out: seq<string>)
    ensures out == Wrapped(paragraphs, Columns(width, ch))
  {
    hide Words, Spaced, Render, Greedy;
    var cols := Columns(width, ch);
    out := [];
    for i := 0 to |paragraphs|
      invariant out == Wrapped(paragraphs[..i], cols)
    {
      assert paragraphs[..i + 1][..i] == paragraphs[..i];
      var words := Words(paragraphs[i]);
      ghost var before := out;
      ghost var held: seq<string> := [];
      ghost var all := before + Render(Greedy(words, cols, []));
      var line, len := "", 0;
      EmptyLine();
      assert words[0..] == words;
      for j := 0 to |words|
        invariant all == out + Render(Greedy(words[j..], cols, held))
        invariant NoBlank(held) && line == Spaced(held) && len == |line|
        invariant len == 0 <==> held == []
      {
        var word := words[j];
        GreedyStep(out, words, j, cols, held);
        SpacedGrows(held, word);
        SpacedGrows([], word);
        if len > 0 && len + 1 + |word| > cols {
          out := out + [line];
          line, len, held := "", 0, [];
          assert held + [word] == [word];
        }
        if len > 0 {
          line := line + " ";
          len := len + 1;
        }
        line := line + word;
        len := len + |word|;
        held := held + [word];
      }
      LastLine(words, cols, held);
      out := out + [line];
    }
    assert paragraphs[..|paragraphs|] == paragraphs;
  }

  lemma EmptyLine()
    ensures Spaced([]) == ""
  {
  }

  // ---- whole words, in order, within the line -----------------------------------------------

  lemma {:induction false} GreedyKeepsWords(words: seq<string>, cols: nat, line: seq<string>)
    ensures Flat(Greedy(words, cols, line)) == line + words
    decreases |words|
  {
    hide Spaced;
    if words == [] {
      assert [line][1..] == [];
    } else if Overflows(|Spaced(line)|, words[0], cols) {
      var rest := Greedy(words[1..], cols, [words[0]]);
      GreedyKeepsWords(words[1..], cols, [words[0]]);
      assert ([line] + rest)[1..] == rest;
      assert [words[0]] + words[1..] == words;
    } else {
      GreedyKeepsWords(words[1..], cols, line + [words[0]]);
      assert line + [words[0]] + words[1..] == line + words;
    }
  }

  lemma {:induction false} GreedyFits(words: seq<string>, cols: nat, line: seq<string>)
    requires NoBlank(words) && NoBlank(line) && LineOk(line, cols)
    ensures LinesOk(Greedy(words, cols, line), cols)
    ensures line != [] || words != [] ==> forall k :: 0 <= k < |Greedy(words, cols, line)| ==> Greedy(words, cols, line)[k] != []
    decreases |words|
  {
    hide Spaced;
    if words != [] {
      SpacedGrows(line, words[0]);
      if Overflows(|Spaced(line)|, words[0], cols) {
        GreedyFits(words[1..], cols, [words[0]]);
      } else {
        GreedyFits(words[1..], cols, line + [words[0]]);
      }
    }
  }

  // ---- as few lines as any breaking ---------------------------------------------------------

  function Grown(len: nat, word: string): nat {
    if len == 0 then |word| else len + 1 + |word|
  }

  /** Lines begun after the first, when the first already holds `len` characters. */
  function More(words: seq<string>, cols: nat, len: nat): nat
    decreases |words|
  {
    if words == [] then 0
    else if Overflows(len, words[0], cols) then 1 + More(words[1..], cols, |words[0]|)
    else More(words[1..], cols, Grown(len, words[0]))
  }

  lemma {:induction false} GreedyCount(words: seq<string>, cols: nat, line: seq<string>)
    requires NoBlank(words) && NoBlank(line)
    ensures |Greedy(words, cols, line)| == 1 + More(words, cols, |Spaced(line)|)
    decreases |words|
  {
    if words != [] {
      SpacedGrows(line, words[0]);
      if Overflows(|Spaced(line)|, words[0], cols) {
        GreedyCount(words[1..], cols, [words[0]]);
      } else {
        GreedyCount(words[1..], cols, line + [words[0]]);
      }
    }
  }

  /** A fuller line costs no fewer lines, and at most one more. */
  lemma {:induction false} FullerCosts(words: seq<string>, cols: nat, n: nat, m: nat)
    requires NoBlank(words) && n <= m
    ensures More(words, cols, n) <= More(words, cols, m) <= 1 + More(words, cols, n)
    decreases |words|
  {
    if words != [] {
      var w, rest := words[0], words[1..];
      if !Overflows(m, w, cols) {
        FullerCosts(rest, cols, Grown(n, w), Grown(m, w));
      } else if !Overflows(n, w, cols) {
        FullerCosts(rest, cols, |w|, Grown(n, w));
      }
    }
  }

  /** A line that is in order is not broken. */
  lemma {:induction false} Unbroken(line: seq<string>, k: nat, rest: seq<string>, cols: nat)
    requires NoBlank(line) && LineOk(line, cols) && k <= |line|
    ensures More(line[k..] + rest, cols, |Spaced(line[..k])|) == More(rest, cols, |Spaced(line)|)
    decreases |line| - k
  {
    hide Spaced;
    if k == |line| {
      assert line[k..] + rest == rest && line[..k] == line;
    } else {
      var words := line[k..] + rest;
      assert words[0] == line[k] && words[1..] == line[k + 1..] + rest;
      assert line[..k + 1] == line[..k] + [line[k]];
      SpacedGrows(line[..k], line[k]);
      PrefixShorter(line, k + 1);
      Unbroken(line, k + 1, rest, cols);
    }
  }

  lemma {:induction false} PrefixShorter(line: seq<string>, k: nat)
    requires NoBlank(line) && k <= |line|
    ensures |Spaced(line[..k])| <= |Spaced(line)|
    decreases |line| - k
  {
    if k == |line| {
      assert line[..k] == line;
    } else {
      assert line[..k + 1] == line[..k] + [line[k]];
      SpacedGrows(line[..k], line[k]);
      PrefixShorter(line, k + 1);
    }
  }

  lemma {:induction false} AnyBreaking(lines: seq<seq<string>>, cols: nat)
    requires lines != [] && LinesOk(lines, cols) && NoBlank(Flat(lines))
    ensures 1 + More(Flat(lines), cols, 0) <= |lines|
  {
    hide LineOk;
    var line, rest := lines[0], Flat(lines[1..]);
    assert forall k :: 0 <= k < |line| ==> line[k] == Flat(lines)[k];
    assert forall k :: 0 <= k < |rest| ==> rest[k] == Flat(lines)[|line| + k];
    Unbroken(line, 0, rest, cols);
    assert line[0..] + rest == Flat(lines) && line[..0] == [];
    EmptyLine();
    if |lines| > 1 {
      AnyBreaking(lines[1..], cols);
      FullerCosts(rest, cols, 0, |Spaced(line)|);
    }
  }

  /** What a paragraph becomes: its words in order, every line within the
      width or one long word, in as few lines as any such breaking takes. */
  lemma WrapIsBest(paragraph: string, cols: nat, lines: seq<seq<string>>)
    requires lines != [] && LinesOk(lines, cols) && Flat(lines) == Words(paragraph)
    ensures var wrapped := Greedy(Words(paragraph), cols, []);
      && Flat(wrapped) == Words(paragraph)
      && LinesOk(wrapped, cols)
      && |wrapped| <= |lines|
  {
    var words := Words(paragraph);
    GreedyKeepsWords(words, cols, []);
    GreedyFits(words, cols, []);
    GreedyCount(words, cols, []);
    AnyBreaking(lines, cols);
  }
}
