/** Deciding whether a landing reply supersedes a flushed message: identity, the
  * three-phase window and the content gate. */
module SupersedeDecision {
  import opened Common

  /** One recorded flush. `completedAt` is unset while the turn is still composing. */
  datatype Flush = Flush(
    turnId: Option<string>, messageIds: seq<int>, text: string, ts: int, completedAt: Option<int>)

  datatype Limits = Limits(openCapMs: int, completedGraceMs: int)

  datatype Reply = Reply(liveTurnId: Option<string>, replyText: Option<string>, positiveAttribution: bool, now: int)

  datatype Reason = Superseded | NoRecord | Expired | DifferentTurn | NewContent

  datatype Decision = Decision(supersede: bool, deleteMessageIds: seq<int>, reason: Reason)

  predicate Lapsed(r: Flush, lim: Limits, now: int) {
    match r.completedAt
    case None => now - r.ts > lim.openCapMs
    case Some(at) => now - at > lim.completedGraceMs
  }

  const MIN_CONTAINMENT := 32

  predicate IsSpace(c: char) {
    || c in " \t\n\r" || c == '\U{000B}' || c == '\U{000C}' || c == '\U{00A0}' || c == '\U{1680}'
    || '\U{2000}' <= c <= '\U{200A}' || c in "\U{2028}\U{2029}\U{202F}\U{205F}\U{3000}\U{FEFF}"
  }

  /** Tab to carriage return, the space, and the spaces of the scripts beyond. */
  lemma WhiteSpaceIs(c: char)
    ensures IsSpace(c) <==>
      var n := c as int;
      || 9 <= n <= 13 || n in {32, 0xA0, 0x1680, 0x2028, 0x2029, 0x202F, 0x205F, 0x3000, 0xFEFF}
      || 0x2000 <= n <= 0x200A
  {
  }

  /** `text` with every run of white space collapsed to one space and none at the ends;
    * `gap` says that a space is owed before the next word. */
  function Collapsed(text: string, started: bool, gap: bool): string {
    if text == [] then []
    else if IsSpace(text[0]) then Collapsed(text[1..], started, true)
    else (if started && gap then " " else "") + [text[0]] + Collapsed(text[1..], true, false)
  }

  function Normalized(text: string): string {
    Collapsed(text, false, false)
  }

  predicate OccursAt(s: string, t: string, i: nat) {
    i + |t| <= |s| && s[i..i + |t|] == t
  }

  predicate Includes(s: string, t: string) {
    exists i :: 0 <= i <= |s| && OccursAt(s, t, i)
  }

  /** Is the landing reply the answer that was flushed, up to spacing and one-sided
    * containment of at least 32 characters? */
  predicate SameAnswer(flushed: string, reply: string) {
    var f, r := Normalized(flushed), Normalized(reply);
    && |f| > 0 && |r| > 0
    && (f == r || (|r| >= MIN_CONTAINMENT && Includes(f, r)) || (|f| >= MIN_CONTAINMENT && Includes(r, f)))
  }

  function Decide(record: Option<Flush>, lim: Limits, args: Reply): (d: Decision)
    ensures d.supersede <==>
      && record.Some? && !Lapsed(record.value, lim, args.now) && record.value.turnId == args.liveTurnId
      && (args.positiveAttribution || args.replyText.None? || SameAnswer(record.value.text, args.replyText.value))
    ensures d.deleteMessageIds == if d.supersede then record.value.messageIds else []
    ensures d.supersede <==> d.reason == Superseded
  {
    if record.None? then Decision(false, [], NoRecord)
    else if Lapsed(record.value, lim, args.now) then Decision(false, [], Expired)
    else if record.value.turnId != args.liveTurnId then Decision(false, [], DifferentTurn)
    else if !args.positiveAttribution && args.replyText.Some?
            && !SameAnswer(record.value.text, args.replyText.value) then Decision(false, [], NewContent)
    else Decision(true, record.value.messageIds, Superseded)
  }

  // ------------------------------------------------------- spacing does not count

  /** Collapsing looks only at the words: spaces before the first word and the length of
    * a run of spaces are irrelevant. */
  lemma {:induction false} SpacesVanish(pad: string, text: string, started: bool, gap: bool)
    requires forall i :: 0 <= i < |pad| ==> IsSpace(pad[i])
    ensures Collapsed(pad + text, started, gap) == Collapsed(text, started, gap || |pad| > 0)
    decreases |pad|
  {
    if pad == [] {
      assert pad + text == text;
    } else {
      assert (pad + text)[1..] == pad[1..] + text;
      SpacesVanish(pad[1..], text, started, true);
    }
  }

  lemma {:induction false} SpacesAtEnd(text: string, pad: string, started: bool, gap: bool)
    requires forall i :: 0 <= i < |pad| ==> IsSpace(pad[i])
    ensures Collapsed(text + pad, started, gap) == Collapsed(text, started, gap)
    decreases |text|
  {
    if text == [] {
      assert text + pad == pad + [];
      SpacesVanish(pad, [], started, gap);
    } else {
      assert (text + pad)[1..] == text[1..] + pad;
      if IsSpace(text[0]) {
        SpacesAtEnd(text[1..], pad, started, true);
      } else {
        SpacesAtEnd(text[1..], pad, true, false);
      }
    }
  }

  /** How long a run of white space is, and of what characters, does not matter. */
  lemma {:induction false} GapsAlike(a: string, p: string, q: string, b: string, started: bool, gap: bool)
    requires p != [] && q != []
    requires forall i :: 0 <= i < |p| ==> IsSpace(p[i])
    requires forall i :: 0 <= i < |q| ==> IsSpace(q[i])
    ensures Collapsed(a + (p + b), started, gap) == Collapsed(a + (q + b), started, gap)
    decreases |a|
  {
    if a == [] {
      assert a + (p + b) == p + b && a + (q + b) == q + b;
      SpacesVanish(p, b, started, gap);
      SpacesVanish(q, b, started, gap);
    } else {
      assert (a + (p + b))[1..] == a[1..] + (p + b) && (a + (q + b))[1..] == a[1..] + (q + b);
      if IsSpace(a[0]) {
        GapsAlike(a[1..], p, q, b, started, true);
      } else {
        GapsAlike(a[1..], p, q, b, true, false);
      }
    }
  }

  /** The two pipelines may space the answer differently without changing the comparison:
    * at its ends, and in the length and kind of any run of white space inside. The
    * comparison also does not depend on which text is called the flushed one. */
  lemma SpacingIgnored(before: string, text: string, after: string, p: string, q: string, more: string, other: string)
    requires forall i :: 0 <= i < |before| ==> IsSpace(before[i])
    requires forall i :: 0 <= i < |after| ==> IsSpace(after[i])
    requires p != [] && forall i :: 0 <= i < |p| ==> IsSpace(p[i])
    requires q != [] && forall i :: 0 <= i < |q| ==> IsSpace(q[i])
    ensures SameAnswer(before + text + after, other) == SameAnswer(text, other)
    ensures SameAnswer(text + (p + more), other) == SameAnswer(text + (q + more), other)
    ensures SameAnswer(text, other) == SameAnswer(other, text)
  {
    SpacesAtEnd(before + text, after, false, false);
    SpacesVanish(before, text, false, false);
    GapBeforeStart(text);
    GapsAlike(text, p, q, more, false, false);
  }

  lemma {:induction false} GapBeforeStart(text: string)
    ensures Collapsed(text, false, true) == Collapsed(text, false, false)
  {
    if text != [] && IsSpace(text[0]) {
      GapBeforeStart(text[1..]);
    }
  }

  // ------------------------------------------------------------ the texts by their words

  function WordLength(text: string): (n: nat)
    ensures n <= |text| && (n == |text| || IsSpace(text[n]))
    ensures forall i :: 0 <= i < n ==> !IsSpace(text[i])
  {
    if text == [] || IsSpace(text[0]) then 0 else 1 + WordLength(text[1..])
  }

  /** The maximal runs of characters other than white space, in order. */
  function Words(text: string): (ws: seq<string>)
    decreases |text|
  {
    if text == [] then []
    else if IsSpace(text[0]) then Words(text[1..])
    else
      var n := WordLength(text);
      [text[..n]] + Words(text[n..])
  }

  /** Words with one space between neighbours. */
  function Joined(ws: seq<string>): string {
    if ws == [] then []
    else if |ws| == 1 then ws[0]
    else ws[0] + " " + Joined(ws[1..])
  }

  predicate IsWord(w: string) {
    w != [] && forall i :: 0 <= i < |w| ==> !IsSpace(w[i])
  }

  lemma {:induction false} WordsAreWords(text: string)
    ensures forall w :: w in Words(text) ==> IsWord(w)
    decreases |text|
  {
    if text != [] {
      if IsSpace(text[0]) {
        WordsAreWords(text[1..]);
      } else {
        WordsAreWords(text[WordLength(text)..]);
      }
    }
  }

  /** Inside a word, collapsing copies up to the word's end. */
  lemma {:induction false} CollapsedCopies(text: string)
    ensures var n := WordLength(text); Collapsed(text, true, false) == text[..n] + Collapsed(text[n..], true, false)
    decreases |text|
  {
    var n := WordLength(text);
    if n == 0 {
      assert text[..n] == [] && text[n..] == text;
    } else {
      CollapsedCopies(text[1..]);
      Reassemble(text, n);
      Regroup([], [text[0]], text[1..][..n - 1], Collapsed(text[n..], true, false));
    }
  }

  lemma Reassemble(text: string, n: nat)
    requires 1 <= n <= |text|
    ensures text[..n] == [text[0]] + text[1..][..n - 1] && text[1..][n - 1..] == text[n..]
  {
  }

  lemma CollapsedWord(text: string, started: bool, gap: bool)
    requires text != [] && !IsSpace(text[0])
    ensures var n := WordLength(text);
      Collapsed(text, started, gap)
      == (if started && gap then " " else "") + (text[..n] + Collapsed(text[n..], true, false))
  {
    var n, rest := WordLength(text), text[1..];
    CollapsedCopies(rest);
    Reassemble(text, n);
    Regroup(if started && gap then " " else "", [text[0]], rest[..n - 1], Collapsed(text[n..], true, false));
  }

  lemma Regroup(a: string, b: string, c: string, d: string)
    ensures a + b + (c + d) == a + ((b + c) + d)
  {
  }

  lemma {:induction false} CollapsedIsJoined(text: string, started: bool, gap: bool)
    requires started && !gap ==> text == [] || IsSpace(text[0])
    ensures Collapsed(text, started, gap)
         == if Words(text) == [] then [] else (if started then " " else "") + Joined(Words(text))
    decreases |text|
  {
    if text != [] {
      if IsSpace(text[0]) {
        CollapsedIsJoined(text[1..], started, true);
      } else {
        var n := WordLength(text);
        CollapsedWord(text, started, gap);
        CollapsedIsJoined(text[n..], true, false);
        Glue(text[..n], Words(text[n..]));
      }
    }
  }

  lemma Glue(w: string, ws: seq<string>)
    ensures w + (if ws == [] then [] else " " + Joined(ws)) == Joined([w] + ws)
  {
    JoinedFirst(w, ws);
  }

  lemma JoinedFirst(w: string, ws: seq<string>)
    ensures Joined([w] + ws) == if ws == [] then w else w + " " + Joined(ws)
  {
    if ws != [] {
      assert ([w] + ws)[1..] == ws;
    }
  }

  /** What is compared: a text's words with single spaces between them. */
  lemma NormalizedIsJoined(text: string)
    ensures Normalized(text) == Joined(Words(text))
  {
    CollapsedIsJoined(text, false, false);
  }

  lemma {:induction false} LengthOfWord(w: string, rest: string)
    requires (forall i :: 0 <= i < |w| ==> !IsSpace(w[i])) && (rest == [] || IsSpace(rest[0]))
    ensures WordLength(w + rest) == |w|
  {
    if w == [] {
      assert w + rest == rest;
    } else {
      assert (w + rest)[1..] == w[1..] + rest;
      LengthOfWord(w[1..], rest);
    }
  }

  lemma WordAlone(w: string, rest: string)
    requires IsWord(w) && (rest == [] || IsSpace(rest[0]))
    ensures Words(w + rest) == [w] + Words(rest)
  {
    var t := w + rest;
    LengthOfWord(w, rest);
    assert t[0] == w[0] && t[..|w|] == w && t[|w|..] == rest;
  }

  /** Joining loses nothing: the words can be read off again. */
  lemma {:induction false} JoinedKeepsWords(ws: seq<string>)
    requires forall w :: w in ws ==> IsWord(w)
    ensures Words(Joined(ws)) == ws
  {
    if |ws| == 1 {
      WordAlone(ws[0], []);
      assert ws[0] + [] == ws[0] && ws == [ws[0]];
    } else if |ws| > 1 {
      var more := " " + Joined(ws[1..]);
      JoinedKeepsWords(ws[1..]);
      WordAlone(ws[0], more);
      assert more[1..] == Joined(ws[1..]);
      assert Joined(ws) == ws[0] + more && ws == [ws[0]] + ws[1..];
    }
  }

  /** Two texts compare equal exactly when they are the same words in the same order. */
  lemma EqualByWords(a: string, b: string)
    ensures Normalized(a) == Normalized(b) <==> Words(a) == Words(b)
  {
    NormalizedIsJoined(a);
    NormalizedIsJoined(b);
    WordsAreWords(a);
    WordsAreWords(b);
    JoinedKeepsWords(Words(a));
    JoinedKeepsWords(Words(b));
  }

  /** The characters of a text other than white space. */
  function Solid(text: string): string {
    if text == [] then [] else (if IsSpace(text[0]) then [] else [text[0]]) + Solid(text[1..])
  }

  function Concat(ws: seq<string>): string {
    if ws == [] then [] else ws[0] + Concat(ws[1..])
  }

  lemma {:induction false} SolidWord(text: string, n: nat)
    requires n <= |text| && forall i :: 0 <= i < n ==> !IsSpace(text[i])
    ensures Solid(text) == text[..n] + Solid(text[n..])
  {
    if n > 0 {
      SolidWord(text[1..], n - 1);
      assert text[1..][n - 1..] == text[n..] && text[..n] == [text[0]] + text[1..][..n - 1];
    } else {
      assert text[n..] == text;
    }
  }

  /** A text's words are all its characters but the white space, in order. */
  lemma {:induction false} WordsKeepCharacters(text: string)
    ensures Concat(Words(text)) == Solid(text)
    decreases |text|
  {
    if text != [] {
      if IsSpace(text[0]) {
        WordsKeepCharacters(text[1..]);
      } else {
        var n := WordLength(text);
        SolidWord(text, n);
        WordsKeepCharacters(text[n..]);
        assert Words(text)[1..] == Words(text[n..]);
      }
    }
  }

  /** Is `part` found somewhere in `whole`? */
  ghost predicate Inside(part: string, whole: string) {
    exists before, after :: whole == before + part + after
  }

  lemma IncludesIsInside(whole: string, part: string)
    ensures Includes(whole, part) <==> Inside(part, whole)
  {
    if Includes(whole, part) {
      var i :| 0 <= i <= |whole| && OccursAt(whole, part, i);
      assert whole == whole[..i] + part + whole[i + |part|..];
    }
    if Inside(part, whole) {
      var before, after :| whole == before + part + after;
      assert OccursAt(whole, part, |before|);
    }
  }

  /** The same answer, told by the words: both texts have some, and either they are the same
    * or the one side's, written out with single spaces, are found in the other's and are
    * 32 characters long or longer. */
  ghost predicate SameWording(a: string, b: string) {
    && Words(a) != [] && Words(b) != []
    && (|| Words(a) == Words(b)
        || (|Joined(Words(b))| >= 32 && Inside(Joined(Words(b)), Joined(Words(a))))
        || (|Joined(Words(a))| >= 32 && Inside(Joined(Words(a)), Joined(Words(b)))))
  }

  lemma SameAnswerExact(flushed: string, reply: string)
    ensures SameAnswer(flushed, reply) <==> SameWording(flushed, reply)
  {
    NormalizedIsJoined(flushed);
    NormalizedIsJoined(reply);
    EqualByWords(flushed, reply);
    WordsAreWords(flushed);
    WordsAreWords(reply);
    JoinedKeepsWords(Words(flushed));
    JoinedKeepsWords(Words(reply));
    IncludesIsInside(Normalized(flushed), Normalized(reply));
    IncludesIsInside(Normalized(reply), Normalized(flushed));
  }

  /** Past its window: an open record after the cap from its flush, a completed one after the
    * grace from its completion. */
  ghost predicate PastWindow(r: Flush, lim: Limits, now: int) {
    if r.completedAt.Some? then r.completedAt.value + lim.completedGraceMs < now else r.ts + lim.openCapMs < now
  }

  /** Which reply supersedes which flush, and why not: another turn's never does, nor, unless
    * it is known to be the turn's own, one of other words; such a reply deletes nothing. */
  lemma DecidesExactly(record: Option<Flush>, lim: Limits, args: Reply)
    ensures var d := Decide(record, lim, args);
      match record
      case None => d == Decision(false, [], NoRecord)
      case Some(r) =>
        d == if PastWindow(r, lim, args.now) then Decision(false, [], Expired)
             else if r.turnId != args.liveTurnId then Decision(false, [], DifferentTurn)
             else if args.positiveAttribution || args.replyText.None? || SameWording(r.text, args.replyText.value)
             then Decision(true, r.messageIds, Superseded)
             else Decision(false, [], NewContent)
  {
    if record.Some? && args.replyText.Some? {
      SameAnswerExact(record.value.text, args.replyText.value);
    }
  }
}
