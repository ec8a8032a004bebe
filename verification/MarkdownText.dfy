/** Message bodies as sequences of UTF-16 code units, and the searches and line tests the
  * chunker and the spacer pass are built from. */
module MarkdownText {

  /** One UTF-16 code unit; nothing below depends on the 16-bit range. */
  type CodeUnit = int

  type Text = seq<CodeUnit>

  const TAB: CodeUnit := 9
  const NL: CodeUnit := 10
  const SPACE: CodeUnit := 32
  const TICK: CodeUnit := 96
  const BAR: CodeUnit := 124

  /** U+00A0, the paragraph spacer. */
  const SPACER: CodeUnit := 0xA0

  predicate MatchesAt(t: Text, p: Text, i: nat) {
    i + |p| <= |t| && t[i..i + |p|] == p
  }

  /** The last place at or before `i` where `p` occurs, or -1. */
  function LastAt(t: Text, p: Text, i: int): (r: int)
    ensures -1 <= r && (r <= i || r == -1)
    ensures r >= 0 ==> MatchesAt(t, p, r)
    ensures forall j: nat :: r < j <= i ==> !MatchesAt(t, p, j)
    decreases i + 1
  {
    if i < 0 then -1 else if MatchesAt(t, p, i) then i else LastAt(t, p, i - 1)
  }

  function LastIndexOf(t: Text, p: Text, from: int): (r: int)
    ensures -1 <= r && (from >= 0 ==> r <= from) && (from < 0 ==> r <= 0)
    ensures r >= 0 ==> MatchesAt(t, p, r)
    ensures forall j: nat :: r < j <= (if from < 0 then 0 else from) ==> !MatchesAt(t, p, j)
  {
    LastAt(t, p, if from < 0 then 0 else from)
  }

  /** The first place at or after `i` where the unit `u` stands, or the length. */
  function NextUnit(t: Text, u: CodeUnit, i: nat): (r: nat)
    requires i <= |t|
    ensures i <= r <= |t| && (r < |t| ==> t[r] == u)
    ensures forall j :: i <= j < r ==> t[j] != u
    decreases |t| - i
  {
    if i == |t| || t[i] == u then i else NextUnit(t, u, i + 1)
  }

  /** The place just after the last `u` strictly before `i`, or 0. */
  function AfterLast(t: Text, u: CodeUnit, i: nat): (r: nat)
    requires i <= |t|
    ensures r <= i && (r > 0 ==> t[r - 1] == u)
    ensures forall j :: r <= j < i ==> t[j] != u
  {
    if i == 0 || t[i - 1] == u then i else AfterLast(t, u, i - 1)
  }

  function Concat(ts: seq<Text>): Text {
    if ts == [] then [] else ts[0] + Concat(ts[1..])
  }

  lemma ConcatCons(t: Text, ts: seq<Text>)
    ensures Concat([t] + ts) == t + Concat(ts)
  {
    assert ([t] + ts)[1..] == ts;
  }

  lemma ConcatOne(t: Text)
    ensures Concat([t]) == t
  {
    ConcatCons(t, []);
    assert [t] + [] == [t];
  }

  /** Spaces, tabs, newlines and the paragraph spacer. */
  predicate IsPadding(u: CodeUnit) {
    u == SPACE || u == TAB || u == NL || u == SPACER
  }

  ghost predicate AllPadding(t: Text) {
    forall i :: 0 <= i < |t| ==> IsPadding(t[i])
  }

  /** The text with its padding ignored. */
  function Significant(t: Text): Text {
    if t == [] then []
    else if IsPadding(t[0]) then Significant(t[1..])
    else [t[0]] + Significant(t[1..])
  }

  lemma PaddingIs(c: char)
    ensures IsPadding(c as int) <==> c in " \t\n" || c as int == 0xA0
    ensures NL == '\n' as int && BAR == '|' as int && TICK == '`' as int && SPACE == ' ' as int
  {
  }

  lemma {:induction false} SignificantConcat(a: Text, b: Text)
    ensures Significant(a + b) == Significant(a) + Significant(b)
  {
    if a == [] {
      assert a + b == b;
    } else {
      assert (a + b)[1..] == a[1..] + b;
      SignificantConcat(a[1..], b);
    }
  }

  lemma {:induction false} PaddingIsInsignificant(t: Text)
    ensures AllPadding(t) <==> Significant(t) == []
  {
    if t != [] {
      PaddingIsInsignificant(t[1..]);
      assert t == [t[0]] + t[1..];
    }
  }

  // ------------------------------------------------------------ rendered-empty lines

  /** A line that renders empty: spaces and tabs around at most one spacer. */
  predicate Blank(line: Text) {
    && (forall i :: 0 <= i < |line| ==> line[i] == SPACE || line[i] == TAB || line[i] == SPACER)
    && (forall i, j :: 0 <= i < j < |line| ==> !(line[i] == SPACER && line[j] == SPACER))
  }

  ghost predicate SpacesAndTabs(t: Text) {
    forall i :: 0 <= i < |t| ==> t[i] == 32 || t[i] == 9
  }

  /** `line` is spaces and tabs, a no-break space or nothing, and spaces and tabs again. */
  ghost predicate EmptyParagraph(line: Text) {
    exists a, b :: SpacesAndTabs(a) && SpacesAndTabs(b) && (line == a + b || line == a + [0xA0] + b)
  }

  lemma BlankMeans(line: Text)
    ensures Blank(line) <==> EmptyParagraph(line)
  {
    if Blank(line) {
      var i := NextUnit(line, SPACER, 0);
      if i < |line| {
        assert line == line[..i] + [0xA0] + line[i + 1..];
        assert SpacesAndTabs(line[..i]) && SpacesAndTabs(line[i + 1..]);
      } else {
        assert line == line + [] && SpacesAndTabs(line) && SpacesAndTabs([]);
      }
    }
    if EmptyParagraph(line) {
      EmptyParagraphIsBlank(line);
    }
  }

  lemma EmptyParagraphIsBlank(line: Text)
    requires EmptyParagraph(line)
    ensures Blank(line)
  {
    var a, b :| SpacesAndTabs(a) && SpacesAndTabs(b) && (line == a + b || line == a + [0xA0] + b);
    if line == a + b {
      assert forall i :: 0 <= i < |line| ==> line[i] == if i < |a| then a[i] else b[i - |a|];
    } else {
      assert forall i :: 0 <= i < |line| ==>
        line[i] == if i < |a| then a[i] else if i == |a| then 0xA0 else b[i - |a| - 1];
    }
  }

  /** Where the run of blank lines, each ended by a newline, that starts at `m` ends. */
  function LeadEnd(t: Text, m: nat): (r: nat)
    requires m <= |t|
    ensures m <= r <= |t|
    decreases |t| - m
  {
    var i := NextUnit(t, NL, m);
    if i < |t| && Blank(t[m..i]) then LeadEnd(t, i + 1) else m
  }

  /** Where the run of blank lines, each begun by a newline, that stops at `n` begins. */
  function TrailStart(t: Text, n: nat): (r: nat)
    requires n <= |t|
    ensures r <= n
  {
    var i := AfterLast(t, NL, n);
    if i > 0 && Blank(t[i..n]) then TrailStart(t, i - 1) else n
  }

  function StripLeading(t: Text): (r: Text)
    ensures |r| <= |t|
  {
    t[LeadEnd(t, 0)..]
  }

  function StripTrailing(t: Text): (r: Text)
    ensures |r| <= |t|
  {
    t[..TrailStart(t, |t|)]
  }

  lemma {:induction false} LeadIsMaximal(t: Text, m: nat)
    requires m <= |t|
    ensures var r := LeadEnd(t, m); var i := NextUnit(t, NL, r); i < |t| ==> !Blank(t[r..i])
    decreases |t| - m
  {
    var i := NextUnit(t, NL, m);
    if i < |t| && Blank(t[m..i]) {
      LeadIsMaximal(t, i + 1);
    }
  }

  lemma {:induction false} TrailIsMaximal(t: Text, n: nat)
    requires n <= |t|
    ensures var r := TrailStart(t, n); var i := AfterLast(t, NL, r); i > 0 ==> !Blank(t[i..r])
  {
    var i := AfterLast(t, NL, n);
    if i > 0 && Blank(t[i..n]) {
      TrailIsMaximal(t, i - 1);
    }
  }

  lemma {:induction false} LeadIsPadding(t: Text, m: nat, k: nat)
    requires m <= |t| && m <= k < LeadEnd(t, m)
    ensures IsPadding(t[k])
    decreases |t| - m
  {
    var i := NextUnit(t, NL, m);
    if k < i {
      assert t[k] == t[m..i][k - m];
    } else if k > i {
      LeadIsPadding(t, i + 1, k);
    }
  }

  lemma {:induction false} TrailIsPadding(t: Text, n: nat, k: nat)
    requires n <= |t| && TrailStart(t, n) <= k < n
    ensures IsPadding(t[k])
  {
    var i := AfterLast(t, NL, n);
    if k >= i {
      assert t[k] == t[i..n][k - i];
    } else if k < i - 1 {
      TrailIsPadding(t, i - 1, k);
    }
  }

  /** What is stripped is padding, and the rest is verbatim. */
  lemma StripLeadingKeeps(t: Text)
    ensures var d := |t| - |StripLeading(t)|; StripLeading(t) == t[d..] && AllPadding(t[..d])
  {
    forall k | 0 <= k < LeadEnd(t, 0)
      ensures IsPadding(t[k])
    {
      LeadIsPadding(t, 0, k);
    }
  }

  lemma StripTrailingKeeps(t: Text)
    ensures var n := |StripTrailing(t)|; StripTrailing(t) == t[..n] && AllPadding(t[n..])
  {
    forall k | TrailStart(t, |t|) <= k < |t|
      ensures IsPadding(t[k])
    {
      TrailIsPadding(t, |t|, k);
    }
  }

  /** Blank lines, each ended by a newline. */
  ghost predicate BlankLines(t: Text)
    decreases |t|
  {
    t == [] || exists i :: 0 <= i < |t| && t[i] == NL && Blank(t[..i]) && BlankLines(t[i + 1..])
  }

  /** Blank lines, each begun by a newline. */
  ghost predicate BlankTails(t: Text)
    decreases |t|
  {
    t == [] || exists i :: 0 <= i < |t| && t[i] == NL && Blank(t[i + 1..]) && BlankTails(t[..i])
  }

  lemma {:induction false} LeadIsBlankLines(t: Text, m: nat)
    requires m <= |t|
    ensures BlankLines(t[m..LeadEnd(t, m)])
    decreases |t| - m
  {
    var i, r := NextUnit(t, NL, m), LeadEnd(t, m);
    if r > m {
      LeadIsBlankLines(t, i + 1);
      SliceParts(t, m, i, r);
      LinesFrom(t[m..r], i - m);
    }
  }

  lemma {:induction false} TrailIsBlankTails(t: Text, n: nat)
    requires n <= |t|
    ensures BlankTails(t[TrailStart(t, n)..n])
  {
    var i, r := AfterLast(t, NL, n), TrailStart(t, n);
    if r < n {
      TrailIsBlankTails(t, i - 1);
      TailsGrow(t, r, i - 1, n);
    } else {
      assert t[r..n] == [];
    }
  }

  lemma TailsGrow(t: Text, r: nat, i: nat, n: nat)
    requires r <= i < n <= |t| && t[i] == NL && Blank(t[i + 1..n]) && BlankTails(t[r..i])
    ensures BlankTails(t[r..n])
  {
    SliceParts(t, r, i, n);
    TailsFrom(t[r..n], i - r);
  }

  lemma SliceParts(t: Text, m: nat, i: nat, n: nat)
    requires m <= i < n <= |t|
    ensures t[m..n][..i - m] == t[m..i] && t[m..n][i - m] == t[i] && t[m..n][i - m + 1..] == t[i + 1..n]
  {
  }

  lemma TailsFrom(tail: Text, i: nat)
    requires i < |tail| && tail[i] == NL && Blank(tail[i + 1..]) && BlankTails(tail[..i])
    ensures BlankTails(tail)
  {
  }

  lemma LinesFrom(lead: Text, i: nat)
    requires i < |lead| && lead[i] == NL && Blank(lead[..i]) && BlankLines(lead[i + 1..])
    ensures BlankLines(lead)
  {
  }

  /** Stripping takes whole blank lines, and all of them: none is left at that end. */
  lemma StripsBlankLines(t: Text)
    ensures var d := |t| - |StripLeading(t)|; BlankLines(t[..d]) && StripLeading(t) == t[d..]
    ensures forall i :: 0 <= i < |StripLeading(t)| && StripLeading(t)[i] == NL ==> !Blank(StripLeading(t)[..i])
    ensures var n := |StripTrailing(t)|; BlankTails(t[n..]) && StripTrailing(t) == t[..n]
    ensures forall i :: 0 < i <= |StripTrailing(t)| && StripTrailing(t)[i - 1] == NL ==> !Blank(StripTrailing(t)[i..])
  {
    LeadIsBlankLines(t, 0);
    assert t[..LeadEnd(t, 0)] == t[0..LeadEnd(t, 0)];
    TrailIsBlankTails(t, |t|);
    assert t[TrailStart(t, |t|)..] == t[TrailStart(t, |t|)..|t|];
    StripLeadingCleans(t);
    OpensCleanMeans(StripLeading(t));
    StripTrailingCleans(t);
    ClosesCleanMeans(StripTrailing(t));
  }

  /** The text does not open with a blank line. */
  predicate OpensClean(t: Text) {
    LeadEnd(t, 0) == 0
  }

  /** The text does not close with a blank line. */
  predicate ClosesClean(t: Text) {
    TrailStart(t, |t|) == |t|
  }

  lemma StripLeadingCleans(t: Text)
    ensures OpensClean(StripLeading(t))
  {
    var r := LeadEnd(t, 0);
    LeadIsMaximal(t, 0);
    var s := t[r..];
    var i, j := NextUnit(t, NL, r), NextUnit(s, NL, 0);
    assert j == i - r by {
      assert j < |s| ==> t[r + j] == NL;
      assert i < |t| ==> s[i - r] == NL;
    }
    assert s[0..j] == t[r..i];
  }

  lemma StripTrailingCleans(t: Text)
    ensures ClosesClean(StripTrailing(t)) && StripTrailing(StripTrailing(t)) == StripTrailing(t)
  {
    var r := TrailStart(t, |t|);
    TrailIsMaximal(t, |t|);
    var s := t[..r];
    var i, j := AfterLast(t, NL, r), AfterLast(s, NL, r);
    assert j == i by {
      assert j > 0 ==> t[j - 1] == NL;
      assert i > 0 ==> s[i - 1] == NL;
    }
    assert s[j..r] == t[i..r];
  }

  /** Clean at the front means: no first line that is blank and ended by a newline. */
  lemma OpensCleanMeans(t: Text)
    ensures OpensClean(t) <==> forall i :: 0 <= i < |t| && t[i] == NL ==> !Blank(t[..i])
  {
    var n := NextUnit(t, NL, 0);
    assert t[..n] == t[0..n];
    forall i | 0 <= i < |t| && t[i] == NL && i != n
      ensures !Blank(t[..i])
    {
      assert t[..i][n] == NL;
    }
  }

  /** Clean at the back means: no last line that is blank and begun by a newline. */
  lemma ClosesCleanMeans(t: Text)
    ensures ClosesClean(t) <==> forall i :: 0 < i <= |t| && t[i - 1] == NL ==> !Blank(t[i..])
  {
    var n := AfterLast(t, NL, |t|);
    assert t[n..] == t[n..|t|];
    forall i | 0 < i <= |t| && t[i - 1] == NL && i != n
      ensures !Blank(t[i..])
    {
      assert t[i..][n - 1 - i] == NL;
    }
  }

  /** Cutting a text short cannot give it a blank opening. */
  lemma PrefixOpensClean(t: Text, n: nat)
    requires OpensClean(t) && n <= |t|
    ensures OpensClean(t[..n])
  {
    OpensCleanMeans(t);
    OpensCleanMeans(t[..n]);
    forall i | 0 <= i < n && t[..n][i] == NL
      ensures !Blank(t[..n][..i])
    {
      assert t[..n][..i] == t[..i] && t[i] == NL;
    }
  }

  lemma {:induction false} TrailStartZero(t: Text, n: nat)
    requires 0 < n <= |t| && TrailStart(t, n) == 0
    ensures t[0] == NL
  {
    var i := AfterLast(t, NL, n);
    if i > 1 {
      TrailStartZero(t, i - 1);
    }
  }

  /** A text that opens clean keeps its first unit when its end is stripped. */
  lemma StripTrailingStays(t: Text)
    requires OpensClean(t) && t != []
    ensures StripTrailing(t) != []
  {
    OpensCleanMeans(t);
    if TrailStart(t, |t|) == 0 {
      TrailStartZero(t, |t|);
      assert Blank(t[..0]);
    }
  }

  lemma StripTrailingOpensClean(t: Text)
    requires OpensClean(t)
    ensures OpensClean(StripTrailing(t))
  {
    PrefixOpensClean(t, TrailStart(t, |t|));
  }
}
