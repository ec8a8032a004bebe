/** Splitting a markdown body into chunks that fit, and re-capping it for the plain
  * endpoint. */
module MarkdownSplit {
  import opened MarkdownText
  import opened MarkdownCut

  // ----------------------------------------------------------------- hard slices

  function Slices(t: Text, cap: nat): seq<Text>
    requires cap > 0
  {
    if |t| <= cap then [t] else [t[..cap]] + Slices(t[cap..], cap)
  }

  lemma {:induction false} SlicesCover(t: Text, cap: nat)
    requires cap > 0
    ensures Concat(Slices(t, cap)) == t
    ensures forall i :: 0 <= i < |Slices(t, cap)| ==> |Slices(t, cap)[i]| <= cap
    ensures forall i :: 0 <= i < |Slices(t, cap)| - 1 ==> |Slices(t, cap)[i]| == cap
  {
    if |t| <= cap {
      ConcatOne(t);
    } else {
      SlicesCover(t[cap..], cap);
      assert Slices(t, cap)[1..] == Slices(t[cap..], cap);
      assert t == t[..cap] + t[cap..];
    }
  }

  method HardSliceToCap(t: Text, cap: int) returns (out: seq<Text>)
    ensures out == if cap <= 0 then [t] else Slices(t, cap)
  {
    if cap <= 0 || |t| <= cap {
      return [t];
    }
    out := [];
    var i := 0;
    while i < |t|
      invariant 0 <= i
      invariant if i < |t| then out + Slices(t[i..], cap) == Slices(t, cap) else out == Slices(t, cap)
      decreases |t| - i
    {
      var slice := t[i..if i + cap <= |t| then i + cap else |t|];
      assert i + cap < |t| ==> t[i..][..cap] == slice && t[i..][cap..] == t[i + cap..];
      assert i + cap >= |t| ==> slice == t[i..];
      out := out + [slice];
      i := i + cap;
    }
  }

  // ------------------------------------------------------------------- the split

  /** The preferred place to break: a paragraph, else a line, in the last two thirds of
    * the window, else a space. */
  function PreferredCut(rest: Text, maxLen: int): (r: int)
    ensures maxLen >= 0 ==> r <= maxLen
    ensures maxLen < 0 ==> r <= 0
  {
    var para := LastIndexOf(rest, [NL, NL], maxLen);
    var line := LastIndexOf(rest, [NL], maxLen);
    var space := LastIndexOf(rest, [SPACE], maxLen);
    if 3 * para > maxLen then para else if 3 * line > maxLen then line else if space > 0 then space else maxLen
  }

  /** `r` is the last place up to `maxLen` where `p` stands. */
  ghost predicate IsLast(t: Text, p: Text, maxLen: int, r: int) {
    0 <= r <= maxLen && MatchesAt(t, p, r) && forall j: nat :: r < j <= maxLen ==> !MatchesAt(t, p, j)
  }

  /** `p` stands somewhere in the last two thirds of the window. */
  ghost predicate StandsLate(t: Text, p: Text, maxLen: int) {
    exists i: nat :: 3 * i > maxLen && i <= maxLen && MatchesAt(t, p, i)
  }

  /** Where a chunk prefers to end: at the last paragraph break, if there is one in the last
    * two thirds of the window, else at the last line break, if there is one there, else at
    * the last space after the start, else at the limit. */
  lemma PreferredCutExact(rest: Text, maxLen: nat)
    ensures var r := PreferredCut(rest, maxLen);
      if StandsLate(rest, [10, 10], maxLen) then IsLast(rest, [10, 10], maxLen, r)
      else if StandsLate(rest, [10], maxLen) then IsLast(rest, [10], maxLen, r)
      else if exists i: nat :: 0 < i <= maxLen && MatchesAt(rest, [32], i) then IsLast(rest, [32], maxLen, r)
      else r == maxLen
  {
  }

  /** How much of an oversized `rest` the next chunk takes: up to the safe cut, or a hard
    * slice when there is none. */
  function HeadLength(inline: Matcher, rest: Text, maxLen: int): (n: nat)
    requires |rest| > maxLen && rest != []
    ensures 0 < n <= |rest| && (maxLen > 0 ==> n <= maxLen)
  {
    var cut := SafeCut(inline, rest, PreferredCut(rest, maxLen));
    if cut > 0 then cut else if maxLen > 0 then maxLen else |rest|
  }

  /** A chunk ends where no surrogate pair and no delimiter run is split, at or before the
    * preferred place, and only where that leaves nothing is it a hard slice of the limit. */
  lemma HeadEndsSafely(inline: Matcher, rest: Text, maxLen: int)
    requires |rest| > maxLen >= 1
    ensures var n, safe := HeadLength(inline, rest, maxLen), SafeCut(inline, rest, PreferredCut(rest, maxLen));
      if safe > 0 then n == safe <= PreferredCut(rest, maxLen) && !SplitsPair(rest, n) && !SplitsRun(rest, n)
      else n == maxLen
  {
    if 0 < PreferredCut(rest, maxLen) < |rest| {
      SafeCutIsLastSafe(inline, rest, PreferredCut(rest, maxLen));
    }
  }

  /** The next chunk of an oversized `rest`, and what remains after it. */
  function Head(inline: Matcher, rest: Text, maxLen: int): Text
    requires |rest| > maxLen && rest != []
  {
    StripTrailing(rest[..HeadLength(inline, rest, maxLen)])
  }

  function After(inline: Matcher, rest: Text, maxLen: int): (r: Text)
    requires |rest| > maxLen && rest != []
    ensures |r| < |rest|
  {
    StripLeading(rest[HeadLength(inline, rest, maxLen)..])
  }

  function Chunks(inline: Matcher, rest: Text, maxLen: int): seq<Text>
    decreases |rest|
  {
    if rest == [] then []
    else if |rest| <= maxLen then [StripTrailing(rest)]
    else [Head(inline, rest, maxLen)] + Chunks(inline, After(inline, rest, maxLen), maxLen)
  }

  function Split(inline: Matcher, t: Text, maxLen: int): seq<Text> {
    if |t| <= maxLen then [t] else Chunks(inline, t, maxLen)
  }

  // ------------------------------------------------------- every chunk fits and is clean

  /** Every chunk is at most `maxLen` long. */
  lemma {:induction false} ChunksFit(inline: Matcher, rest: Text, maxLen: int)
    requires maxLen >= 1
    ensures forall i :: 0 <= i < |Chunks(inline, rest, maxLen)| ==> |Chunks(inline, rest, maxLen)[i]| <= maxLen
    decreases |rest|
  {
    if |rest| > maxLen {
      ChunksFit(inline, After(inline, rest, maxLen), maxLen);
      assert |Head(inline, rest, maxLen)| <= maxLen;
    }
  }

  lemma SplitFits(inline: Matcher, t: Text, maxLen: int)
    requires maxLen >= 1
    ensures forall i :: 0 <= i < |Split(inline, t, maxLen)| ==> |Split(inline, t, maxLen)[i]| <= maxLen
  {
    ChunksFit(inline, t, maxLen);
  }

  lemma AfterOpensClean(inline: Matcher, rest: Text, maxLen: int)
    requires |rest| > maxLen && rest != []
    ensures OpensClean(After(inline, rest, maxLen))
  {
    StripLeadingCleans(rest[HeadLength(inline, rest, maxLen)..]);
  }

  lemma HeadIsClean(inline: Matcher, rest: Text, maxLen: int)
    requires |rest| > maxLen && rest != []
    ensures ClosesClean(Head(inline, rest, maxLen))
    ensures OpensClean(rest) ==> OpensClean(Head(inline, rest, maxLen)) && Head(inline, rest, maxLen) != []
  {
    var n := HeadLength(inline, rest, maxLen);
    StripTrailingCleans(rest[..n]);
    if OpensClean(rest) {
      PrefixOpensClean(rest, n);
      StripTrailingOpensClean(rest[..n]);
      StripTrailingStays(rest[..n]);
    }
  }

  /** A split body leaves no blank or spacer line at the end of a chunk, nor at the start
    * of a continuation. */
  lemma {:induction false} ChunksClean(inline: Matcher, rest: Text, maxLen: int, i: nat)
    requires i < |Chunks(inline, rest, maxLen)|
    ensures ClosesClean(Chunks(inline, rest, maxLen)[i])
    ensures i > 0 || OpensClean(rest) ==>
      OpensClean(Chunks(inline, rest, maxLen)[i]) && Chunks(inline, rest, maxLen)[i] != []
    decreases |rest|
  {
    if |rest| <= maxLen {
      StripTrailingCleans(rest);
      if OpensClean(rest) {
        StripTrailingOpensClean(rest);
        StripTrailingStays(rest);
      }
    } else if i == 0 {
      HeadIsClean(inline, rest, maxLen);
    } else {
      AfterOpensClean(inline, rest, maxLen);
      ChunksClean(inline, After(inline, rest, maxLen), maxLen, i - 1);
    }
  }

  // ------------------------------------------------------------- nothing else is lost

  /** The chunks stand in `t` verbatim and in order, with nothing but padding before,
    * between and after them. */
  ghost predicate Woven(t: Text, chunks: seq<Text>)
    decreases |chunks|
  {
    if chunks == [] then AllPadding(t)
    else exists m: nat, n: nat {:trigger t[m..n], t[n..]} | m <= n <= |t| ::
      AllPadding(t[..m]) && chunks[0] == t[m..n] && Woven(t[n..], chunks[1..])
  }

  lemma {:induction false} WovenSignificant(t: Text, chunks: seq<Text>)
    requires Woven(t, chunks)
    ensures Significant(Concat(chunks)) == Significant(t)
    decreases |chunks|
  {
    if chunks == [] {
      PaddingIsInsignificant(t);
    } else {
      var m: nat, n: nat :| m <= n <= |t| && AllPadding(t[..m]) && chunks[0] == t[m..n] && Woven(t[n..], chunks[1..]);
      WovenSignificant(t[n..], chunks[1..]);
      SignificantParts(t, m, n);
      SignificantConcat(chunks[0], Concat(chunks[1..]));
    }
  }

  lemma SignificantParts(t: Text, m: nat, n: nat)
    requires m <= n <= |t| && AllPadding(t[..m])
    ensures Significant(t) == Significant(t[m..n]) + Significant(t[n..])
  {
    ThreeParts(t, m, n);
    SignificantBehind(t[..m], t[m..n], t[n..]);
  }

  lemma ThreeParts<T>(t: seq<T>, m: nat, n: nat)
    requires m <= n <= |t|
    ensures t == t[..m] + (t[m..n] + t[n..])
  {
  }

  lemma SignificantBehind(pad: Text, a: Text, b: Text)
    requires AllPadding(pad)
    ensures Significant(pad + (a + b)) == Significant(a) + Significant(b)
  {
    PaddingIsInsignificant(pad);
    SignificantConcat(pad, a + b);
    SignificantConcat(a, b);
  }

  /** Padding in front of a woven text changes nothing. */
  lemma WovenAfterPadding(t: Text, d: nat, chunks: seq<Text>)
    requires d <= |t| && AllPadding(t[..d]) && Woven(t[d..], chunks)
    ensures Woven(t, chunks)
  {
    if chunks == [] {
      JoinPadding(t, d);
    } else {
      var rest := t[d..];
      var m: nat, n: nat :|
        m <= n <= |rest| && AllPadding(rest[..m]) && chunks[0] == rest[m..n] && Woven(rest[n..], chunks[1..]);
      var m', n' := d + m, d + n;
      assert t[m'..n'] == chunks[0] && t[n'..] == rest[n..];
      assert t[..m'][d..] == rest[..m] && t[..m'][..d] == t[..d];
      JoinPadding(t[..m'], d);
    }
  }

  lemma JoinPadding(t: Text, d: nat)
    requires d <= |t| && AllPadding(t[..d]) && AllPadding(t[d..])
    ensures AllPadding(t)
  {
    forall i | 0 <= i < |t|
      ensures IsPadding(t[i])
    {
      assert t[i] == if i < d then t[..d][i] else t[d..][i - d];
    }
  }

  /** One chunk, stripped at its end, in front of a woven rest. */
  lemma WovenStep(t: Text, n: nat, head: Text, chunks: seq<Text>)
    requires n <= |t| && |head| <= n && head == t[..|head|] && AllPadding(t[|head|..n])
    requires Woven(t[n..], chunks)
    ensures Woven(t, [head] + chunks)
  {
    var e := |head|;
    var rest := t[e..];
    assert rest[..n - e] == t[e..n] && rest[n - e..] == t[n..];
    WovenAfterPadding(rest, n - e, chunks);
    assert t[0..e] == head && AllPadding(t[..0]);
    assert ([head] + chunks)[1..] == chunks;
    assert Woven(t[e..], ([head] + chunks)[1..]);
  }

  /** A stripped prefix, in front of a woven rest. */
  lemma StrippedStep(t: Text, n: nat, chunks: seq<Text>)
    requires n <= |t| && Woven(t[n..], chunks)
    ensures Woven(t, [StripTrailing(t[..n])] + chunks)
  {
    var head := StripTrailing(t[..n]);
    var e := |head|;
    StripTrailingKeeps(t[..n]);
    assert t[..n][..e] == t[..e] && t[..n][e..] == t[e..n];
    WovenStep(t, n, head, chunks);
  }

  /** A stripped prefix, in front of a woven stripped rest. */
  lemma CutStep(t: Text, n: nat, chunks: seq<Text>)
    requires n <= |t| && Woven(StripLeading(t[n..]), chunks)
    ensures Woven(t, [StripTrailing(t[..n])] + chunks)
  {
    var tail := t[n..];
    StripLeadingKeeps(tail);
    WovenAfterPadding(tail, |tail| - |StripLeading(tail)|, chunks);
    StrippedStep(t, n, chunks);
  }

  lemma {:induction false} ChunksWoven(inline: Matcher, rest: Text, maxLen: int)
    ensures Woven(rest, Chunks(inline, rest, maxLen))
    decreases |rest|
  {
    if rest != [] && |rest| <= maxLen {
      assert rest[..|rest|] == rest && rest[|rest|..] == [];
      StrippedStep(rest, |rest|, []);
      assert [StripTrailing(rest)] + [] == [StripTrailing(rest)];
    } else if rest != [] {
      ChunksWoven(inline, After(inline, rest, maxLen), maxLen);
      CutStep(rest, HeadLength(inline, rest, maxLen), Chunks(inline, After(inline, rest, maxLen), maxLen));
    }
  }

  lemma WholeIsWoven(t: Text)
    ensures Woven(t, [t])
  {
    assert t[..|t|] == t && t[|t|..|t|] == [];
    WovenStep(t, |t|, t, []);
    assert [t] + [] == [t];
  }

  /** Whatever the limit, the chunks hold the text verbatim and in order, but for padding
    * at the boundaries; a text that fits is untouched. */
  lemma SplitConserves(inline: Matcher, t: Text, maxLen: int)
    ensures Woven(t, Split(inline, t, maxLen))
    ensures Significant(Concat(Split(inline, t, maxLen))) == Significant(t)
    ensures |t| <= maxLen ==> Split(inline, t, maxLen) == [t]
  {
    WholeIsWoven(t);
    ChunksWoven(inline, t, maxLen);
    WovenSignificant(t, Split(inline, t, maxLen));
  }

  // ------------------------------------------------------------------ the loop

  function TrailsStripped(ts: seq<Text>): seq<Text> {
    if ts == [] then [] else TrailsStripped(ts[..|ts| - 1]) + [StripTrailing(ts[|ts| - 1])]
  }

  lemma TrailsSnoc(ts: seq<Text>, x: Text)
    ensures TrailsStripped(ts + [x]) == TrailsStripped(ts) + [StripTrailing(x)]
  {
    assert (ts + [x])[..|ts|] == ts;
  }

  /** One turn of the split: the loop's list gains a chunk already stripped. */
  lemma SplitTurn(done: seq<Text>, head: Text, later: seq<Text>)
    requires StripTrailing(head) == head
    ensures TrailsStripped(done + [head]) + later == TrailsStripped(done) + ([head] + later)
  {
    TrailsSnoc(done, head);
  }

  /** Pick the place to break an oversized text. */
  method ChooseCut(inline: Matcher, rest: Text, maxLen: int) returns (cut: int)
    requires Orderly(inline)
    ensures cut == SafeCut(inline, rest, PreferredCut(rest, maxLen))
  {
    cut := maxLen;
    var para := LastIndexOf(rest, [NL, NL], maxLen);
    var line := LastIndexOf(rest, [NL], maxLen);
    var space := LastIndexOf(rest, [SPACE], maxLen);
    if 3 * para > maxLen {
      cut := para;
    } else if 3 * line > maxLen {
      cut := line;
    } else if space > 0 {
      cut := space;
    }
    cut := SafeMarkdownCut(inline, rest, cut);
  }

  method SplitMarkdownChunks(inline: Matcher, t: Text, maxLen: int) returns (chunks: seq<Text>)
    requires Orderly(inline)
    ensures chunks == Split(inline, t, maxLen)
  {
    if |t| <= maxLen {
      return [t];
    }
    chunks := [];
    var rest := t;
    while |rest| > 0
      invariant TrailsStripped(chunks) + Chunks(inline, rest, maxLen) == Chunks(inline, t, maxLen)
      decreases |rest|
    {
      if |rest| <= maxLen {
        TrailsSnoc(chunks, rest);
        chunks := chunks + [rest];
        rest := [];
        break;
      }
      StripTrailingCleans(rest[..HeadLength(inline, rest, maxLen)]);
      SplitTurn(chunks, Head(inline, rest, maxLen), Chunks(inline, After(inline, rest, maxLen), maxLen));
      var cut := ChooseCut(inline, rest, maxLen);
      if cut <= 0 {
        var sliced := HardSliceToCap(rest, maxLen);
        HeadSlice(rest, maxLen);
        chunks := chunks + [StripTrailing(sliced[0])];
        rest := StripLeading(Concat(sliced[1..]));
        continue;
      }
      chunks := chunks + [StripTrailing(rest[..cut])];
      rest := StripLeading(rest[cut..]);
    }
    chunks := TrailsStripped(chunks);
  }

  lemma HeadSlice(rest: Text, cap: int)
    requires |rest| > cap
    ensures var sliced := if cap <= 0 then [rest] else Slices(rest, cap);
      var n := if cap <= 0 then |rest| else cap;
      sliced != [] && sliced[0] == rest[..n] && Concat(sliced[1..]) == rest[n..]
  {
    if cap > 0 {
      SlicesCover(rest[cap..], cap);
      assert Slices(rest, cap)[1..] == Slices(rest[cap..], cap);
    } else {
      assert [rest][1..] == [];
    }
  }

  // ---------------------------------------------------------- the plain endpoint

  function NonEmpty(ts: seq<Text>): seq<Text> {
    if ts == [] then [] else if ts[0] == [] then NonEmpty(ts[1..]) else [ts[0]] + NonEmpty(ts[1..])
  }

  /** The pieces, each hard-sliced if it is still too long, without the empty ones. */
  function Recapped(ts: seq<Text>, cap: nat): seq<Text>
    requires cap > 0
  {
    if ts == [] then []
    else
      var last := ts[|ts| - 1];
      Recapped(ts[..|ts| - 1], cap) + NonEmpty(if |last| <= cap then [last] else Slices(last, cap))
  }

  function SplitPlain(inline: Matcher, t: Text, cap: int): seq<Text> {
    if cap <= 0 || |t| <= cap then [t]
    else
      var out := Recapped(Split(inline, t, cap), cap);
      if out != [] then out else [t]
  }

  lemma {:induction false} NonEmptySnoc(ts: seq<Text>, x: Text)
    ensures NonEmpty(ts + [x]) == if x == [] then NonEmpty(ts) else NonEmpty(ts) + [x]
  {
    if ts == [] {
      assert [] + [x] == [x] && [x][1..] == [];
    } else {
      assert (ts + [x])[1..] == ts[1..] + [x];
      NonEmptySnoc(ts[1..], x);
    }
  }

  lemma NonEmptyOne(x: Text)
    ensures NonEmpty([x]) == if x == [] then [] else [x]
  {
    NonEmptySnoc([], x);
    assert [] + [x] == [x];
  }

  /** Append the slices that are not empty. */
  method Appended(out: seq<Text>, slices: seq<Text>) returns (r: seq<Text>)
    ensures r == out + NonEmpty(slices)
  {
    r := out;
    for j := 0 to |slices|
      invariant r == out + NonEmpty(slices[..j])
    {
      NonEmptySnoc(slices[..j], slices[j]);
      assert slices[..j + 1] == slices[..j] + [slices[j]];
      if |slices[j]| > 0 {
        r := r + [slices[j]];
      }
    }
    assert slices[..|slices|] == slices;
  }

  lemma RecappedSnoc(ts: seq<Text>, x: Text, cap: nat)
    requires cap > 0
    ensures |x| > cap ==> Recapped(ts + [x], cap) == Recapped(ts, cap) + NonEmpty(Slices(x, cap))
    ensures 0 < |x| <= cap ==> Recapped(ts + [x], cap) == Recapped(ts, cap) + [x]
    ensures |x| == 0 ==> Recapped(ts + [x], cap) == Recapped(ts, cap)
  {
    NonEmptyOne(x);
    assert (ts + [x])[..|ts|] == ts;
  }

  method Recap(chunks: seq<Text>, cap: nat) returns (out: seq<Text>)
    requires cap > 0
    ensures out == Recapped(chunks, cap)
  {
    out := [];
    for k := 0 to |chunks|
      invariant out == Recapped(chunks[..k], cap)
    {
      var piece := chunks[k];
      RecappedSnoc(chunks[..k], piece, cap);
      assert chunks[..k + 1] == chunks[..k] + [piece];
      if |piece| <= cap {
        if |piece| > 0 {
          out := out + [piece];
        }
        continue;
      }
      var slices := HardSliceToCap(piece, cap);
      out := Appended(out, slices);
    }
    assert chunks[..|chunks|] == chunks;
  }

  method SplitPlainTextToCap(inline: Matcher, t: Text, cap: int) returns (pieces: seq<Text>)
    requires Orderly(inline)
    ensures pieces == SplitPlain(inline, t, cap)
  {
    if cap <= 0 || |t| <= cap {
      return [t];
    }
    var chunks := SplitMarkdownChunks(inline, t, cap);
    var out := Recap(chunks, cap);
    return if |out| > 0 then out else [t];
  }

  lemma {:induction false} RecappedFitting(ts: seq<Text>, cap: nat)
    requires cap > 0 && forall i :: 0 <= i < |ts| ==> |ts[i]| <= cap
    ensures Recapped(ts, cap) == NonEmpty(ts)
  {
    if ts != [] {
      var n := |ts| - 1;
      RecappedFitting(ts[..n], cap);
      RecappedSnoc(ts[..n], ts[n], cap);
      NonEmptySnoc(ts[..n], ts[n]);
      assert ts == ts[..n] + [ts[n]];
    }
  }

  lemma {:induction false} NonEmptyKeeps(ts: seq<Text>)
    ensures Concat(NonEmpty(ts)) == Concat(ts)
  {
    if ts != [] {
      NonEmptyKeeps(ts[1..]);
      ConcatCons(ts[0], NonEmpty(ts[1..]));
    }
  }

  lemma {:induction false} NonEmptyFit(ts: seq<Text>, cap: nat, i: nat)
    requires i < |NonEmpty(ts)| && forall j :: 0 <= j < |ts| ==> |ts[j]| <= cap
    ensures |NonEmpty(ts)[i]| <= cap
  {
    if ts[0] == [] {
      NonEmptyFit(ts[1..], cap, i);
    } else if i > 0 {
      NonEmptyFit(ts[1..], cap, i - 1);
    }
  }

  /** The first cut leaves nothing on either side once blank lines are stripped. */
  predicate Vanishes(inline: Matcher, t: Text, cap: int)
    requires |t| > cap > 0
  {
    Head(inline, t, cap) == [] && After(inline, t, cap) == []
  }

  lemma AllEmptyMeans(inline: Matcher, t: Text, cap: int)
    requires |t| > cap > 0
    ensures NonEmpty(Chunks(inline, t, cap)) == [] <==> Vanishes(inline, t, cap)
  {
    var rest := After(inline, t, cap);
    var later := Chunks(inline, rest, cap);
    assert Chunks(inline, t, cap)[1..] == later;
    if rest != [] {
      AfterOpensClean(inline, t, cap);
      ChunksClean(inline, rest, cap, 0);
    }
  }

  lemma PlainIsNonEmptyChunks(inline: Matcher, t: Text, cap: int)
    requires |t| > cap > 0
    ensures SplitPlain(inline, t, cap) == if Vanishes(inline, t, cap) then [t] else NonEmpty(Chunks(inline, t, cap))
  {
    ChunksFit(inline, t, cap);
    RecappedFitting(Chunks(inline, t, cap), cap);
    AllEmptyMeans(inline, t, cap);
  }

  ghost predicate Fits(ts: seq<Text>, cap: nat) {
    forall i :: 0 <= i < |ts| ==> |ts[i]| <= cap
  }

  lemma NonEmptyChunksFit(inline: Matcher, t: Text, cap: int)
    requires |t| > cap > 0
    ensures Fits(NonEmpty(Chunks(inline, t, cap)), cap)
    ensures Significant(Concat(NonEmpty(Chunks(inline, t, cap)))) == Significant(t)
  {
    var chunks := Chunks(inline, t, cap);
    ChunksFit(inline, t, cap);
    forall i | 0 <= i < |NonEmpty(chunks)|
      ensures |NonEmpty(chunks)[i]| <= cap
    {
      NonEmptyFit(chunks, cap, i);
    }
    NonEmptyKeeps(chunks);
    SplitConserves(inline, t, cap);
  }

  /** Re-capping for the plain endpoint keeps every piece within the cap if and only if the
    * text does not vanish at its first cut; nothing significant is ever lost. */
  lemma PlainFitsExactly(inline: Matcher, t: Text, cap: int)
    requires cap > 0
    ensures Fits(SplitPlain(inline, t, cap), cap) <==> |t| <= cap || !Vanishes(inline, t, cap)
    ensures Significant(Concat(SplitPlain(inline, t, cap))) == Significant(t)
  {
    if |t| > cap {
      PlainIsNonEmptyChunks(inline, t, cap);
      NonEmptyChunksFit(inline, t, cap);
    }
    ConcatOne(t);
    assert [t][0] == t;
  }

  /** Only a text of nothing but padding can vanish. */
  lemma OnlyPaddingVanishes(inline: Matcher, t: Text, cap: int)
    requires |t| > cap > 0 && Vanishes(inline, t, cap)
    ensures AllPadding(t)
  {
    StrippedAway(t, HeadLength(inline, t, cap));
  }

  lemma StrippedAway(t: Text, n: nat)
    requires n <= |t| && StripTrailing(t[..n]) == [] && StripLeading(t[n..]) == []
    ensures AllPadding(t)
  {
    StripTrailingKeeps(t[..n]);
    StripLeadingKeeps(t[n..]);
    assert t[..n][0..] == t[..n];
    assert t[n..][..|t| - n] == t[n..];
    JoinPadding(t, n);
  }

  /** And some do: two newlines against a cap of one come back over the cap. */
  lemma NewlinesOverflow(inline: Matcher)
    ensures SplitPlain(inline, [NL, NL], 1) == [[NL, NL]] && !Fits(SplitPlain(inline, [NL, NL], 1), 1)
  {
    var t: Text := [NL, NL];
    var one: Text := [NL];
    assert HeadLength(inline, t, 1) == 1;
    assert t[..1] == one && t[1..] == one;
    assert TrailStart(one, 1) == TrailStart(one, 0) == 0;
    assert LeadEnd(one, 0) == LeadEnd(one, 1) == 1;
    PlainIsNonEmptyChunks(inline, t, 1);
    assert |[t][0]| == 2;
  }
}
