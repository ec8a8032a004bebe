/** Where a markdown body may be cut: the three back-offs and the boundary they end on. */
module MarkdownCut {
  import opened MarkdownText

  /** A recognised inline entity, from `start` up to `end`. */
  datatype Span = Span(start: nat, end: nat)

  /** What the inline patterns match: one list of spans per pattern. */
  type Matcher = Text -> seq<seq<Span>>

  /** A pattern's matches arrive from left to right. */
  ghost predicate InOrder(spans: seq<Span>) {
    forall i, j :: 0 <= i < j < |spans| ==> spans[i].start <= spans[j].start
  }

  ghost predicate Orderly(inline: Matcher) {
    forall t: Text, i :: 0 <= i < |inline(t)| ==> InOrder(inline(t)[i])
  }

  // ---------------------------------------------------------------- fenced blocks

  const FENCE: Text := [TICK, TICK, TICK]

  /** Newline, carriage return, and the two Unicode separators. */
  predicate IsLineBreak(u: CodeUnit) {
    u == NL || u == 13 || u == 0x2028 || u == 0x2029
  }

  predicate FenceAt(t: Text, i: nat) {
    (i == 0 || (i <= |t| && IsLineBreak(t[i - 1]))) && MatchesAt(t, FENCE, i)
  }

  /** How many fences open or close before `n`. */
  function Fences(t: Text, n: nat): nat {
    if n == 0 then 0 else Fences(t, n - 1) + if FenceAt(t, n - 1) then 1 else 0
  }

  function FenceCut(t: Text, cut: int): (r: int)
    ensures r <= cut && (cut >= 0 ==> r >= 0)
  {
    if cut <= 0 || cut >= |t| then cut
    else
      var before := t[..cut];
      if Fences(before, cut) % 2 == 0 then cut
      else
        var opening := LastIndexOf(before, [NL] + FENCE, cut);
        if opening <= 0 then 0 else opening
  }

  // ------------------------------------------------------------------ table rows

  predicate HasBar(line: Text) {
    exists i :: 0 <= i < |line| && line[i] == BAR
  }

  function LineStart(t: Text, i: nat): nat
    requires i <= |t|
  {
    AfterLast(t, NL, i)
  }

  function LineEnd(t: Text, i: nat): nat
    requires i <= |t|
  {
    NextUnit(t, NL, i)
  }

  function TableCut(t: Text, cut: int): (r: int)
    ensures r <= cut && (cut >= 0 ==> r >= 0)
  {
    if cut <= 0 || cut >= |t| then cut
    else
      var from := LineStart(t, cut);
      if HasBar(t[from..LineEnd(t, cut)]) then (if from > 0 then from - 1 else 0) else cut
  }

  // ---------------------------------------------------------------- inline spans

  predicate Straddles(s: Span, cut: int) {
    s.start < cut < s.end
  }

  /** The earliest start among `best` and the spans that straddle the cut. */
  function Earliest(spans: seq<Span>, cut: int, best: int): (r: int)
    ensures r <= best && (best >= 0 ==> r >= 0)
  {
    if spans == [] then best
    else
      var s := spans[0];
      Earliest(spans[1..], cut, if Straddles(s, cut) && s.start < best then s.start else best)
  }

  function EarliestOfAll(lists: seq<seq<Span>>, cut: int, best: int): (r: int)
    ensures r <= best && (best >= 0 ==> r >= 0)
  {
    if lists == [] then best else EarliestOfAll(lists[1..], cut, Earliest(lists[0], cut, best))
  }

  function InlineCut(inline: Matcher, t: Text, cut: int): (r: int)
    ensures r <= cut && (cut >= 0 ==> r >= 0)
  {
    if cut <= 0 || cut >= |t| then cut else EarliestOfAll(inline(t), cut, cut)
  }

  // ------------------------------------------------------------ the shared boundary

  predicate IsDelimiter(u: CodeUnit) {
    u == 42 || u == 95 || u == TICK || u == 126 || u == BAR
  }

  /** A cut at `i` falls inside a run of one delimiter character. */
  predicate SplitsRun(t: Text, i: int) {
    0 < i < |t| && IsDelimiter(t[i]) && t[i - 1] == t[i]
  }

  /** A cut at `i` falls inside a surrogate pair. */
  predicate SplitsPair(t: Text, i: int) {
    0 < i < |t| && 0xD800 <= t[i - 1] <= 0xDBFF && 0xDC00 <= t[i] <= 0xDFFF
  }

  function RunStart(t: Text, i: nat): (r: nat)
    requires i < |t|
    ensures r <= i && !SplitsRun(t, r)
    ensures forall j :: r < j <= i ==> SplitsRun(t, j)
  {
    if SplitsRun(t, i) then RunStart(t, i - 1) else i
  }

  /** The cut as the three back-offs leave it. */
  function BackedOff(inline: Matcher, t: Text, cut: int): (r: int)
    ensures r <= cut && (cut >= 0 ==> r >= 0)
  {
    InlineCut(inline, t, TableCut(t, FenceCut(t, cut)))
  }

  function SafeCut(inline: Matcher, t: Text, cut: int): (r: nat)
    ensures r <= |t| && (cut >= 0 ==> r <= cut)
  {
    if cut <= 0 then 0
    else if cut >= |t| then |t|
    else
      var safe := RunStart(t, BackedOff(inline, t, cut));
      if SplitsPair(t, safe) then safe - 1 else safe
  }

  /** The cut is the last place, at or before where the back-offs leave it, that splits
    * neither a surrogate pair nor a run of one delimiter. */
  lemma SafeCutIsLastSafe(inline: Matcher, t: Text, cut: int)
    requires 0 < cut < |t|
    ensures var r := SafeCut(inline, t, cut);
      && 0 <= r <= BackedOff(inline, t, cut) <= cut
      && !SplitsRun(t, r) && !SplitsPair(t, r)
      && forall j :: r < j <= BackedOff(inline, t, cut) ==> SplitsRun(t, j) || SplitsPair(t, j)
  {
    var p := BackedOff(inline, t, cut);
    var safe := RunStart(t, p);
    if safe < p {
      assert SplitsRun(t, safe + 1);
      assert IsDelimiter(t[safe]);
    }
  }

  // -------------------------------------------------------------- each back-off

  /** No fence straddles a place that holds no tick. */
  lemma PrefixFenceAt(t: Text, n: nat, i: nat)
    requires i < n < |t| && t[n] != TICK
    ensures FenceAt(t[..n], i) <==> FenceAt(t, i)
  {
    if i + 3 <= n {
      assert t[..n][i..i + 3] == t[i..i + 3];
    } else if i + 3 <= |t| {
      assert t[i..i + 3][n - i] != FENCE[n - i];
    }
  }

  lemma {:induction false} PrefixFences(t: Text, n: nat, m: nat)
    requires m <= n < |t| && t[n] != TICK
    ensures Fences(t[..n], m) == Fences(t, m)
  {
    if m > 0 {
      PrefixFenceAt(t, n, m - 1);
      PrefixFences(t, n, m - 1);
    }
  }

  ghost predicate OnlyNewlines(t: Text) {
    forall i :: 0 <= i < |t| && IsLineBreak(t[i]) ==> t[i] == NL
  }

  lemma {:induction false} NoFencesBetween(t: Text, m: nat, n: nat)
    requires m <= n && forall i :: m <= i < n ==> !FenceAt(t, i)
    ensures Fences(t, n) == Fences(t, m)
  {
    if m < n {
      NoFencesBetween(t, m, n - 1);
    }
  }

  lemma NewlineFence(t: Text, i: nat)
    requires 0 < i && i + 3 <= |t|
    ensures MatchesAt(t, [NL] + FENCE, i - 1) <==> t[i - 1] == NL && MatchesAt(t, FENCE, i)
  {
    var p := [NL] + FENCE;
    assert |p| == 4 && p[0] == NL && p[1] == TICK && p[2] == TICK && p[3] == TICK;
    if MatchesAt(t, p, i - 1) {
      var s := t[i - 1..i + 3];
      assert s[0] == t[i - 1] && s[1] == t[i] && s[2] == t[i + 1] && s[3] == t[i + 2];
      assert t[i..i + 3] == FENCE;
    }
    if t[i - 1] == NL && MatchesAt(t, FENCE, i) {
      var s := t[i..i + 3];
      assert s[0] == t[i] && s[1] == t[i + 1] && s[2] == t[i + 2];
      assert t[i - 1..i + 3] == p;
    }
  }

  lemma NoFenceAtNewline(t: Text, i: nat)
    requires i < |t| && t[i] == NL
    ensures !FenceAt(t, i)
  {
    assert i + 3 <= |t| ==> t[i..i + 3][0] != FENCE[0];
  }

  /** The fences of `before` are those in front of the last newline fence, that one, and
    * the `Stray` ones behind it. */
  function Stray(before: Text, opening: nat): int {
    Fences(before, |before|) - Fences(before, opening + 2)
  }

  lemma FencesSplit(before: Text, opening: nat)
    requires MatchesAt(before, [NL] + FENCE, opening)
    ensures Fences(before, |before|) == Fences(before, opening) + 1 + Stray(before, opening)
  {
    var i := opening + 1;
    NewlineFence(before, i);
    assert FenceAt(before, i);
    NoFenceAtNewline(before, opening);
    assert Fences(before, i + 1) == Fences(before, i) + 1 && Fences(before, i) == Fences(before, opening);
  }

  /** Behind the last newline fence, fences can only follow another line break. */
  lemma NoStray(before: Text, opening: nat)
    requires OnlyNewlines(before) && opening == LastIndexOf(before, [NL] + FENCE, |before|)
    ensures Stray(before, opening) == 0
  {
    var p := [NL] + FENCE;
    forall j | opening + 2 <= j < |before|
      ensures !FenceAt(before, j)
    {
      if j + 3 <= |before| {
        NewlineFence(before, j);
        assert !MatchesAt(before, p, j - 1);
      }
    }
    NoFencesBetween(before, opening + 2, |before|);
  }

  /** The fence back-off stops outside every fenced block, with an even number of fences in
    * the text before it, if and only if it need not move, goes all the way back, or an
    * even number of fences stand behind the newline fence it goes to. */
  lemma FenceCutExact(t: Text, cut: int)
    requires 0 < cut < |t|
    ensures var before, r := t[..cut], FenceCut(t, cut);
      var opening := LastIndexOf(before, [NL] + FENCE, cut);
      Fences(t[..r], r) % 2 == 0
      <==> Fences(before, cut) % 2 == 0 || opening <= 0 || Stray(before, opening) % 2 == 0
  {
    var before := t[..cut];
    if Fences(before, cut) % 2 != 0 {
      var opening := LastIndexOf(before, [NL] + FENCE, cut);
      if opening > 0 {
        FencesSplit(before, opening);
        NewlineFence(before, opening + 1);
        PrefixFences(before, opening, opening);
        assert before[..opening] == t[..opening];
      }
    }
  }

  /** So with newlines the only line breaks it never stops inside an open block. */
  lemma FenceCutIsOutside(t: Text, cut: int)
    requires 0 < cut < |t| && OnlyNewlines(t)
    ensures var r := FenceCut(t, cut); Fences(t[..r], r) % 2 == 0
  {
    var before := t[..cut];
    assert OnlyNewlines(before);
    var opening := LastIndexOf(before, [NL] + FENCE, cut);
    if opening > 0 {
      NoStray(before, opening);
    }
    FenceCutExact(t, cut);
  }

  /** A carriage return breaks it: the third fence follows one, so the retreat goes to the
    * second, which closes the first, and leaves that open. */
  lemma CarriageReturnOpens()
    ensures var t := FENCE + [NL] + FENCE + [13] + FENCE + [120];
      FenceCut(t, 11) == 3 && Fences(t[..3], 3) == 1
  {
    var t := FENCE + [NL] + FENCE + [13] + FENCE + [120];
    var before := t[..11];
    assert before == [TICK, TICK, TICK, NL, TICK, TICK, TICK, 13, TICK, TICK, TICK];
    CarriageReturnFences(before);
    assert t[..3] == FENCE;
    assert MatchesAt(FENCE, FENCE, 0);
    assert Fences(FENCE, 1) == 1 && Fences(FENCE, 2) == 1 && Fences(FENCE, 3) == 1;
  }

  lemma CarriageReturnFences(before: Text)
    requires before == [TICK, TICK, TICK, NL, TICK, TICK, TICK, 13, TICK, TICK, TICK]
    ensures Fences(before, 11) == 3 && LastIndexOf(before, [NL] + FENCE, 11) == 3
  {
    assert forall i: nat :: FenceAt(before, i) <==> i == 0 || i == 4 || i == 8 by {
      assert before[0..3] == FENCE && before[4..7] == FENCE && before[8..11] == FENCE;
    }
    assert Fences(before, 1) == 1;
    NoFencesBetween(before, 1, 4);
    assert Fences(before, 5) == 2;
    NoFencesBetween(before, 5, 8);
    assert Fences(before, 9) == 3;
    NoFencesBetween(before, 9, 11);
    var p := [NL] + FENCE;
    assert before[3..7] == p;
    assert forall i: nat :: MatchesAt(before, p, i) ==> before[i..i + 4][0] == NL;
    assert forall i: nat :: MatchesAt(before, p, i) ==> i == 3;
  }

  /** A cut that leaves the table back-off is at a line's edge, or on a line with no bar. */
  lemma TableCutIsOutside(t: Text, cut: int)
    requires 0 < cut < |t|
    ensures var r := TableCut(t, cut);
      LineStart(t, r) < r < LineEnd(t, r) ==> !HasBar(t[LineStart(t, r)..LineEnd(t, r)])
  {
  }

  lemma {:induction false} EarliestBounds(spans: seq<Span>, cut: int, best: int)
    ensures forall i :: 0 <= i < |spans| && Straddles(spans[i], cut) ==> Earliest(spans, cut, best) <= spans[i].start
    ensures Earliest(spans, cut, best) == best
         || exists i :: 0 <= i < |spans| && Straddles(spans[i], cut) && spans[i].start == Earliest(spans, cut, best)
  {
    if spans != [] {
      var s := spans[0];
      var b := if Straddles(s, cut) && s.start < best then s.start else best;
      EarliestBounds(spans[1..], cut, b);
      var r := Earliest(spans, cut, best);
      if r != b {
        var i :| 0 <= i < |spans[1..]| && Straddles(spans[1..][i], cut) && spans[1..][i].start == r;
        assert spans[i + 1].start == r;
      }
      forall i | 0 <= i < |spans| && Straddles(spans[i], cut)
        ensures r <= spans[i].start
      {
        if i > 0 {
          assert spans[i] == spans[1..][i - 1];
        }
      }
    }
  }

  /** The spans that straddle the cut, over all patterns. */
  ghost predicate Straddler(lists: seq<seq<Span>>, cut: int, s: Span) {
    exists i, j :: 0 <= i < |lists| && 0 <= j < |lists[i]| && lists[i][j] == s && Straddles(s, cut)
  }

  lemma {:induction false} EarliestOfAllBounds(lists: seq<seq<Span>>, cut: int, best: int)
    ensures forall s :: Straddler(lists, cut, s) ==> EarliestOfAll(lists, cut, best) <= s.start
    ensures EarliestOfAll(lists, cut, best) == best
         || exists s :: Straddler(lists, cut, s) && s.start == EarliestOfAll(lists, cut, best)
  {
    if lists != [] {
      var b := Earliest(lists[0], cut, best);
      var r := EarliestOfAll(lists, cut, best);
      EarliestBounds(lists[0], cut, best);
      EarliestOfAllBounds(lists[1..], cut, b);
      forall s | Straddler(lists, cut, s)
        ensures r <= s.start
      {
        var i, j :| 0 <= i < |lists| && 0 <= j < |lists[i]| && lists[i][j] == s && Straddles(s, cut);
        if i > 0 {
          assert lists[1..][i - 1][j] == s;
          assert Straddler(lists[1..], cut, s);
        }
      }
      if r != best {
        if r != b {
          var s :| Straddler(lists[1..], cut, s) && s.start == r;
          var i, j :| 0 <= i < |lists[1..]| && 0 <= j < |lists[1..][i]| && lists[1..][i][j] == s;
          assert lists[i + 1][j] == s;
          assert Straddler(lists, cut, s);
        } else {
          var i :| 0 <= i < |lists[0]| && Straddles(lists[0][i], cut) && lists[0][i].start == b;
          assert Straddler(lists, cut, lists[0][i]);
        }
      }
    }
  }

  /** The inline back-off goes to the earliest start of a span the cut bisects, and stays
    * put when the cut bisects none. */
  lemma InlineCutIsEarliest(inline: Matcher, t: Text, cut: int)
    requires 0 < cut < |t|
    ensures var r := InlineCut(inline, t, cut);
      && (forall s :: Straddler(inline(t), cut, s) ==> r <= s.start)
      && (r == cut || exists s :: Straddler(inline(t), cut, s) && s.start == r)
      && (r == cut <==> !exists s :: Straddler(inline(t), cut, s))
  {
    EarliestOfAllBounds(inline(t), cut, cut);
  }

  // ----------------------------------------------------- each back-off, by its result

  /** The fence back-off stays where an even number of fences stand before it, and else goes
    * to the newline before the last line-opening fence, or all the way back. */
  ghost predicate FenceBack(t: Text, cut: nat, r: int)
    requires cut <= |t|
  {
    var before := t[..cut];
    if Fences(before, cut) % 2 == 0 then r == cut
    else if exists j :: j > 0 && FenceLine(before, j)
    then r > 0 && FenceLine(before, r) && forall j :: j > r ==> !FenceLine(before, j)
    else r == 0
  }

  /** A newline with three ticks after it. */
  ghost predicate FenceLine(t: Text, i: int) {
    0 <= i && i + 4 <= |t| && t[i] == 10 && t[i + 1] == t[i + 2] == t[i + 3] == 96
  }

  lemma FenceLineIs(t: Text, i: nat)
    ensures FenceLine(t, i) <==> MatchesAt(t, [NL] + FENCE, i)
  {
    var p := [NL] + FENCE;
    assert |p| == 4 && p[0] == NL && p[1] == TICK && p[2] == TICK && p[3] == TICK;
    if i + 4 <= |t| {
      var s := t[i..i + 4];
      assert s[0] == t[i] && s[1] == t[i + 1] && s[2] == t[i + 2] && s[3] == t[i + 3];
    }
  }

  lemma FenceCutBack(t: Text, cut: int)
    requires 0 < cut < |t|
    ensures FenceBack(t, cut, FenceCut(t, cut))
  {
    var before := t[..cut];
    forall j: nat
      ensures FenceLine(before, j) <==> MatchesAt(before, [NL] + FENCE, j)
    {
      FenceLineIs(before, j);
    }
  }

  /** There is a bar on the line on which the cut falls. */
  ghost predicate BarOnLine(t: Text, cut: nat)
    requires cut <= |t|
  {
    exists k :: 0 <= k < |t| && t[k] == 124
      && (forall j :: k <= j < cut ==> t[j] != 10) && (forall j :: cut <= j <= k ==> t[j] != 10)
  }

  /** The table back-off leaves a line without a bar alone, and else goes to the newline that
    * ends the line before, or all the way back. */
  ghost predicate TableBack(t: Text, cut: nat, r: int)
    requires cut <= |t|
  {
    if cut == 0 || !BarOnLine(t, cut) then r == cut
    else
      && 0 <= r < cut && (r > 0 ==> t[r] == 10)
      && forall j :: r < j < cut ==> t[j] != 10
  }

  lemma BarOnLineIs(t: Text, cut: nat)
    requires cut <= |t|
    ensures HasBar(t[LineStart(t, cut)..LineEnd(t, cut)]) <==> BarOnLine(t, cut)
  {
    var from, to := LineStart(t, cut), LineEnd(t, cut);
    var line := t[from..to];
    if HasBar(line) {
      var i :| 0 <= i < |line| && line[i] == BAR;
      assert t[from + i] == 124;
    }
    if BarOnLine(t, cut) {
      var k :| 0 <= k < |t| && t[k] == 124
        && (forall j :: k <= j < cut ==> t[j] != 10) && (forall j :: cut <= j <= k ==> t[j] != 10);
      assert from <= k < to;
      assert line[k - from] == BAR;
    }
  }

  lemma TableCutBack(t: Text, cut: nat)
    requires cut < |t|
    ensures TableBack(t, cut, TableCut(t, cut))
  {
    BarOnLineIs(t, cut);
  }

  /** The inline back-off goes to the earliest start of a span the cut bisects. */
  ghost predicate InlineBack(inline: Matcher, t: Text, cut: nat, r: int) {
    && (forall s :: Straddler(inline(t), cut, s) ==> r <= s.start)
    && (r == cut || exists s :: Straddler(inline(t), cut, s) && s.start == r)
  }

  /** The three back-offs follow each other: fences, then the table row, then the inline
    * span bisected by where those lead. */
  lemma BackedOffExact(inline: Matcher, t: Text, cut: int)
    requires 0 < cut < |t|
    ensures var fence := FenceCut(t, cut); var row := TableCut(t, fence);
      && 0 <= row <= fence <= cut && FenceBack(t, cut, fence) && TableBack(t, fence, row)
      && InlineBack(inline, t, row, BackedOff(inline, t, cut))
  {
    FenceCutBack(t, cut);
    TableCutBack(t, FenceCut(t, cut));
    EarliestOfAllBounds(inline(t), TableCut(t, FenceCut(t, cut)), TableCut(t, FenceCut(t, cut)));
  }

  /** The delimiters whose runs are not split. */
  lemma DelimitersAre(c: char)
    ensures IsDelimiter(c as int) <==> c in "*_`~|"
  {
  }

  // ---------------------------------------------------------------- the loops

  /** Matches from the cut onwards change nothing. */
  lemma {:induction false} LateSpansIgnored(spans: seq<Span>, cut: int, best: int)
    requires InOrder(spans) && (spans != [] ==> spans[0].start >= cut)
    ensures Earliest(spans, cut, best) == best
  {
    if spans != [] {
      LateSpansIgnored(spans[1..], cut, best);
    }
  }

  method BackOffOpenInline(inline: Matcher, t: Text, cut: int) returns (earliest: int)
    requires Orderly(inline)
    ensures earliest == InlineCut(inline, t, cut)
  {
    if cut <= 0 || cut >= |t| {
      return cut;
    }
    earliest := cut;
    var lists := inline(t);
    for i := 0 to |lists|
      invariant EarliestOfAll(lists[i..], cut, earliest) == EarliestOfAll(lists, cut, cut)
    {
      var spans, j := lists[i], 0;
      ghost var entry := earliest;
      assert InOrder(spans);
      while j < |spans|
        invariant j <= |spans|
        invariant Earliest(spans[j..], cut, earliest) == Earliest(spans, cut, entry)
      {
        var s := spans[j];
        assert spans[j..][1..] == spans[j + 1..];
        if s.start < cut && cut < s.end && s.start < earliest {
          earliest := s.start;
        }
        if s.start >= cut {
          LateSpansIgnored(spans[j..], cut, earliest);
          break;
        }
        j := j + 1;
      }
      assert earliest == Earliest(spans, cut, entry);
      assert lists[i..][1..] == lists[i + 1..];
    }
  }

  method SafeMarkdownCut(inline: Matcher, t: Text, cut: int) returns (safe: int)
    requires Orderly(inline)
    ensures safe == SafeCut(inline, t, cut)
  {
    if cut <= 0 {
      return 0;
    }
    if cut >= |t| {
      return |t|;
    }
    safe := TableCut(t, FenceCut(t, cut));
    safe := BackOffOpenInline(inline, t, safe);
    while safe > 0 && IsDelimiter(t[safe]) && t[safe - 1] == t[safe]
      invariant 0 <= safe <= cut
      invariant RunStart(t, safe) == RunStart(t, BackedOff(inline, t, cut))
    {
      safe := safe - 1;
    }
    if safe <= 0 {
      return 0;
    }
    var prev, here := t[safe - 1], t[safe];
    if prev >= 0xD800 && prev <= 0xDBFF && here >= 0xDC00 && here <= 0xDFFF {
      safe := safe - 1;
    }
  }
}
