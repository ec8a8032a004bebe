/** The pass that gives every gap between blocks one canonical, visible form. It works on
  * code-masked text; which kind of block a line belongs to is a parameter. */
module ParagraphSpacers {
  import opened MarkdownText
  import opened LineRuns

  datatype Kind = List | Table | Quote | Heading | Fence | Divider | Prose

  /** Classifies a content line. */
  type Classifier = Text -> Kind

  // ---------------------------------------------------------------------- lines

  function Lines(t: Text): (ls: seq<Text>)
    ensures ls != []
    decreases |t|
  {
    var i := NextUnit(t, NL, 0);
    if i == |t| then [t] else [t[..i]] + Lines(t[i + 1..])
  }

  function Join(ls: seq<Text>): Text {
    if ls == [] then [] else if |ls| == 1 then ls[0] else ls[0] + [NL] + Join(ls[1..])
  }

  predicate OneLine(line: Text) {
    forall i :: 0 <= i < |line| ==> line[i] != NL
  }

  ghost predicate AllOneLine(ls: seq<Text>) {
    forall i :: 0 <= i < |ls| ==> OneLine(ls[i])
  }

  lemma {:induction false} JoinLines(t: Text)
    ensures Join(Lines(t)) == t && AllOneLine(Lines(t))
    decreases |t|
  {
    var i := NextUnit(t, NL, 0);
    if i < |t| {
      JoinLines(t[i + 1..]);
      assert Lines(t)[1..] == Lines(t[i + 1..]);
      assert t == t[..i] + [NL] + t[i + 1..];
    }
  }

  lemma FirstBreak(line: Text, rest: Text)
    requires OneLine(line)
    ensures var t := line + [NL] + rest;
      NextUnit(t, NL, 0) == |line| && t[..|line|] == line && t[|line| + 1..] == rest
  {
    var t := line + [NL] + rest;
    assert forall i :: 0 <= i < |line| ==> t[i] == line[i];
    assert t[|line|] == NL;
  }

  lemma LinesOfFirst(line: Text, rest: Text)
    requires OneLine(line)
    ensures Lines(line + [NL] + rest) == [line] + Lines(rest)
  {
    FirstBreak(line, rest);
  }

  lemma OneLineAlone(line: Text)
    requires OneLine(line)
    ensures Lines(line) == [line]
  {
  }

  lemma {:induction false} LinesJoin(ls: seq<Text>)
    requires ls != [] && AllOneLine(ls)
    ensures Lines(Join(ls)) == ls
  {
    if |ls| == 1 {
      OneLineAlone(ls[0]);
    } else {
      LinesJoin(ls[1..]);
      LinesOfFirst(ls[0], Join(ls[1..]));
    }
  }

  // --------------------------------------------------------------------- tokens

  predicate IsAsciiSpace(u: CodeUnit) {
    u == SPACE || u == TAB || u == 13 || u == 12 || u == 11
  }

  function TrimStart(t: Text): Text {
    if t != [] && IsAsciiSpace(t[0]) then TrimStart(t[1..]) else t
  }

  function TrimEnd(t: Text): Text {
    if t != [] && IsAsciiSpace(t[|t| - 1]) then TrimEnd(t[..|t| - 1]) else t
  }

  /** A line that renders as an empty paragraph. */
  predicate Blankish(line: Text) {
    var t := TrimEnd(TrimStart(line));
    t == [] || t == [SPACER]
  }

  lemma {:induction false} TrimStartKeeps(t: Text)
    ensures var d := |t| - |TrimStart(t)|;
      && d >= 0 && TrimStart(t) == t[d..] && (forall i :: 0 <= i < d ==> IsAsciiSpace(t[i]))
      && (TrimStart(t) != [] ==> !IsAsciiSpace(TrimStart(t)[0]))
  {
    if t != [] && IsAsciiSpace(t[0]) {
      TrimStartKeeps(t[1..]);
      assert forall i :: 0 < i < |t| ==> t[i] == t[1..][i - 1];
    }
  }

  lemma {:induction false} TrimEndKeeps(t: Text)
    ensures var n := |TrimEnd(t)|;
      && n <= |t| && TrimEnd(t) == t[..n] && (forall i :: n <= i < |t| ==> IsAsciiSpace(t[i]))
      && (n > 0 ==> !IsAsciiSpace(TrimEnd(t)[n - 1]))
  {
    if t != [] && IsAsciiSpace(t[|t| - 1]) {
      TrimEndKeeps(t[..|t| - 1]);
    }
  }

  ghost predicate OnlySpacerAt(line: Text, k: nat)
    requires k < |line|
  {
    line[k] == 0xA0 && forall i :: 0 <= i < |line| && i != k ==> IsAsciiSpace(line[i])
  }

  /** A line looks blank exactly when it holds white space only, but for at most one
    * spacer. */
  lemma BlankishMeans(line: Text)
    ensures Blankish(line) <==>
      || (forall i :: 0 <= i < |line| ==> IsAsciiSpace(line[i]))
      || (exists k :: 0 <= k < |line| && OnlySpacerAt(line, k))
  {
    var s := TrimStart(line);
    var e := TrimEnd(s);
    TrimStartKeeps(line);
    TrimEndKeeps(s);
    var d := |line| - |s|;
    assert forall i :: 0 <= i < |s| ==> s[i] == line[d + i];
    assert forall i :: d <= i < |line| ==> line[i] == s[i - d];
    if e == [SPACER] {
      assert OnlySpacerAt(line, d);
    } else if e != [] {
      assert e[0] == line[d] && e[|e| - 1] == line[d + |e| - 1];
    }
  }

  type Tok = Run<Text>

  /** The text's runs of content lines and of lines that look blank. */
  function Tokens(t: Text): seq<Tok> {
    Grouped(Blankish, Lines(t))
  }

  // --------------------------------------------------------------- canonical gaps

  /** Kinds whose own interior gaps stay tight. */
  predicate TightInside(k: Kind) {
    k == List || k == Table || k == Quote || k == Fence || k == Divider
  }

  predicate Spaces(kind: Classifier, above: Text, below: Text) {
    !(kind(above) == kind(below) && TightInside(kind(above)))
  }

  const TIGHT: seq<Text> := [[]]
  const SPACED: seq<Text> := [[], [SPACER], []]

  /** A gap with content on both sides. */
  predicate Interior(toks: seq<Tok>, i: nat) {
    0 < i && i + 1 < |toks| && toks[i].gap && !toks[i - 1].gap && !toks[i + 1].gap
  }

  function LastLine(tok: Tok): Text {
    if tok.lines == [] then [] else tok.lines[|tok.lines| - 1]
  }

  function FirstLine(tok: Tok): Text {
    if tok.lines == [] then [] else tok.lines[0]
  }

  function Canonical(kind: Classifier, toks: seq<Tok>, i: nat): Tok
    requires i < |toks|
  {
    if Interior(toks, i) then
      Run(true, if Spaces(kind, LastLine(toks[i - 1]), FirstLine(toks[i + 1])) then SPACED else TIGHT)
    else toks[i]
  }

  function CanonicalAll(kind: Classifier, toks: seq<Tok>): (r: seq<Tok>)
    ensures |r| == |toks| && forall i :: 0 <= i < |toks| ==> r[i] == Canonical(kind, toks, i)
  {
    seq(|toks|, i requires 0 <= i < |toks| => Canonical(kind, toks, i))
  }

  predicate HasGap(t: Text) {
    exists i :: 0 < i < |t| && t[i - 1] == NL && t[i] == NL
  }

  function Spaced(kind: Classifier, t: Text): Text {
    if !HasGap(t) then t
    else Join(Flat(CanonicalAll(kind, Tokens(t))))
  }

  // ----------------------------------------------------------------- idempotence

  lemma CanonicalGapsAreBlank()
    ensures Sorted(Blankish, Run(true, SPACED)) && Sorted(Blankish, Run(true, TIGHT))
    ensures AllOneLine(SPACED) && AllOneLine(TIGHT)
  {
    var empty: Text := [];
    assert TrimEnd(TrimStart([SPACER])) == [SPACER];
    assert SPACED[..2] == [empty, [SPACER]] && SPACED[..2][..1] == [empty];
    assert OfSort(Blankish, true, [empty]);
    assert OfSort(Blankish, true, [empty, [SPACER]]);
  }

  lemma CanonicalWellFormed(kind: Classifier, toks: seq<Tok>)
    requires WellFormed(Blankish, toks)
    ensures WellFormed(Blankish, CanonicalAll(kind, toks))
  {
    CanonicalGapsAreBlank();
    var r := CanonicalAll(kind, toks);
    forall i | 0 <= i < |r|
      ensures Sorted(Blankish, r[i]) && r[i].gap == toks[i].gap
    {
      WellFormedAt(Blankish, toks, i);
    }
    WellFormedLike(Blankish, toks, r);
  }

  lemma CanonicalAgain(kind: Classifier, toks: seq<Tok>)
    requires WellFormed(Blankish, toks) && WellFormed(Blankish, CanonicalAll(kind, toks))
    ensures CanonicalAll(kind, CanonicalAll(kind, toks)) == CanonicalAll(kind, toks)
  {
    var r := CanonicalAll(kind, toks);
    forall i | 0 <= i < |r|
      ensures Canonical(kind, r, i) == r[i]
    {
      if Interior(toks, i) {
        assert r[i - 1] == toks[i - 1] && r[i + 1] == toks[i + 1];
      }
    }
  }

  lemma {:induction false} FlatOneLine(toks: seq<Tok>)
    requires forall i :: 0 <= i < |toks| ==> AllOneLine(toks[i].lines)
    ensures AllOneLine(Flat(toks))
  {
    if toks != [] {
      FlatOneLine(toks[..|toks| - 1]);
    }
  }

  lemma {:induction false} PartsOneLine(toks: seq<Tok>, i: nat)
    requires AllOneLine(Flat(toks)) && i < |toks|
    ensures AllOneLine(toks[i].lines)
  {
    var n := |toks| - 1;
    var front, last := Flat(toks[..n]), toks[n].lines;
    if i < n {
      assert forall k :: 0 <= k < |front| ==> front[k] == Flat(toks)[k];
      PartsOneLine(toks[..n], i);
    } else {
      assert forall k :: 0 <= k < |last| ==> last[k] == Flat(toks)[|front| + k];
    }
  }

  lemma CanonicalOneLine(kind: Classifier, toks: seq<Tok>)
    requires WellFormed(Blankish, toks) && AllOneLine(Flat(toks))
    ensures AllOneLine(Flat(CanonicalAll(kind, toks)))
  {
    CanonicalGapsAreBlank();
    var r := CanonicalAll(kind, toks);
    forall i | 0 <= i < |r|
      ensures AllOneLine(r[i].lines)
    {
      PartsOneLine(toks, i);
    }
    FlatOneLine(r);
  }

  /** The output's runs are the input's, content verbatim and in order, and every gap
    * between content is one blank line or one spacer paragraph, as the block kinds it
    * parts decide. */
  lemma SpacedTokens(kind: Classifier, t: Text)
    requires HasGap(t)
    ensures WellFormed(Blankish, Tokens(t)) && WellFormed(Blankish, Tokens(Spaced(kind, t)))
    ensures Tokens(Spaced(kind, t)) == CanonicalAll(kind, Tokens(t))
  {
    var toks := Tokens(t);
    GroupedWellFormed(Blankish, Lines(t));
    JoinLines(t);
    CanonicalWellFormed(kind, toks);
    CanonicalOneLine(kind, toks);
    var r := CanonicalAll(kind, toks);
    FlatNotEmpty(Blankish, toks);
    FlatNotEmpty(Blankish, r);
    LinesJoin(Flat(r));
    GroupedFlat(Blankish, r);
  }

  /** A second application changes nothing. */
  lemma SpacedIsIdempotent(kind: Classifier, t: Text)
    ensures Spaced(kind, Spaced(kind, t)) == Spaced(kind, t)
  {
    if HasGap(t) && HasGap(Spaced(kind, t)) {
      SpacedTokens(kind, t);
      CanonicalAgain(kind, Tokens(t));
    }
  }

  /** What becomes of one run: content and the outer gaps stay, a gap between content
    * becomes one blank line or one spacer paragraph. */
  ghost predicate Becomes(kind: Classifier, toks: seq<Tok>, out: seq<Tok>, i: nat)
    requires i < |toks| == |out|
  {
    if !toks[i].gap || i == 0 || i + 1 == |toks| then out[i] == toks[i]
    else
      && !toks[i - 1].gap && !toks[i + 1].gap && toks[i - 1].lines != [] && toks[i + 1].lines != []
      && out[i].gap
      && var above, below := toks[i - 1].lines, toks[i + 1].lines;
         out[i].lines == if KeepsTight(kind(above[|above| - 1]), kind(below[0])) then [[]] else [[], [0xA0], []]
  }

  /** Between two lines of the same list, table, quote, fence or divider. */
  ghost predicate KeepsTight(above: Kind, below: Kind) {
    above == below && !above.Heading? && !above.Prose?
  }

  lemma CanonicalMeans(kind: Classifier, toks: seq<Tok>, i: nat)
    requires i < |toks|
    requires 0 < i < |toks| - 1 ==>
      toks[i - 1].gap == toks[i + 1].gap == !toks[i].gap && toks[i - 1].lines != [] && toks[i + 1].lines != []
    ensures Becomes(kind, toks, CanonicalAll(kind, toks), i)
  {
    assert CanonicalAll(kind, toks)[i] == Canonical(kind, toks, i);
  }

  /** Run by run, the output is the input with its inner gaps made canonical: one blank line
    * inside a list, table, quote, fence or run of dividers, and one spacer paragraph between
    * any other two blocks. */
  lemma EachRun(kind: Classifier, t: Text)
    requires exists i :: 0 <= i < |t| - 1 && t[i] == 10 && t[i + 1] == 10
    ensures |Tokens(Spaced(kind, t))| == |Tokens(t)|
    ensures forall i :: 0 <= i < |Tokens(t)| ==> Becomes(kind, Tokens(t), Tokens(Spaced(kind, t)), i)
  {
    var k :| 0 <= k < |t| - 1 && t[k] == 10 && t[k + 1] == 10;
    assert t[k + 1 - 1] == NL && t[k + 1] == NL;
    SpacedTokens(kind, t);
    var toks := Tokens(t);
    forall i | 0 <= i < |toks|
      ensures Becomes(kind, toks, CanonicalAll(kind, toks), i)
    {
      if 0 < i < |toks| - 1 {
        Neighbours(Blankish, toks, i);
      }
      CanonicalMeans(kind, toks, i);
    }
  }

  lemma CanonicalContent(kind: Classifier, toks: seq<Tok>)
    requires WellFormed(Blankish, toks)
    ensures Content(Blankish, Flat(CanonicalAll(kind, toks))) == Content(Blankish, Flat(toks))
  {
    var r := CanonicalAll(kind, toks);
    CanonicalWellFormed(kind, toks);
    forall i | 0 <= i < |toks|
      ensures Sorted(Blankish, r[i]) && Sorted(Blankish, toks[i]) && (r[i] == toks[i] || (r[i].gap && toks[i].gap))
    {
      WellFormedAt(Blankish, toks, i);
      WellFormedAt(Blankish, r, i);
    }
    SameContent(Blankish, r, toks);
  }

  lemma LinesOfTokens(t: Text)
    ensures Flat(Tokens(t)) == Lines(t)
  {
    GroupedWellFormed(Blankish, Lines(t));
  }

  /** No content line is lost, changed or moved. */
  lemma ContentKept(kind: Classifier, t: Text)
    ensures Content(Blankish, Lines(Spaced(kind, t))) == Content(Blankish, Lines(t))
  {
    if HasGap(t) {
      SpacedTokens(kind, t);
      LinesOfTokens(t);
      LinesOfTokens(Spaced(kind, t));
      CanonicalContent(kind, Tokens(t));
    }
  }

  // -------------------------------------------------------------------- the loops

  method Rebuild(kind: Classifier, toks: seq<Tok>) returns (out: seq<Text>)
    ensures out == Flat(CanonicalAll(kind, toks))
  {
    out := [];
    ghost var goal := CanonicalAll(kind, toks);
    for i := 0 to |toks|
      invariant out == Flat(goal[..i])
    {
      var tok := toks[i];
      assert goal[..i + 1] == goal[..i] + [goal[i]];
      FlatSnoc(goal[..i], goal[i]);
      if !tok.gap {
        out := out + tok.lines;
        continue;
      }
      if i > 0 && !toks[i - 1].gap && i + 1 < |toks| && !toks[i + 1].gap {
        var above, below := LastLine(toks[i - 1]), FirstLine(toks[i + 1]);
        if Spaces(kind, above, below) {
          out := out + [[], [SPACER], []];
        } else {
          out := out + [[]];
        }
      } else {
        out := out + tok.lines;
      }
    }
    assert goal[..|toks|] == goal;
  }

  method AddParagraphSpacers(kind: Classifier, t: Text) returns (r: Text)
    ensures r == Spaced(kind, t)
  {
    if !HasGap(t) {
      return t;
    }
    var toks := Group(Blankish, Lines(t));
    var out := Rebuild(kind, toks);
    return Join(out);
  }
}
