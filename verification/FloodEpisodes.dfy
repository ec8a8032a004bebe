/** The ledger's episodes as blocks of the observed 429s, and the verdict as a statement
  * about the observations themselves. */
module FloodEpisodes {
  import opened FloodLedger

  // ------------------------------------------------------------------ blocks of 429s

  function Seconds(o: Observation): nat {
    if o.retryAfterSec.Floor >= 0 then o.retryAfterSec.Floor else 0
  }

  /** When the penalty of `o`, in whole seconds, is over. */
  function EndOf(o: Observation): int {
    o.ts + Seconds(o) * 1000
  }

  ghost predicate EndsAt(block: seq<Observation>, end: int) {
    && (forall o :: o in block ==> EndOf(o) <= end)
    && (exists o :: o in block && EndOf(o) == end)
  }

  /** `o` reports the ban of the block before it: its own stated end is within a minute of
    * the block's latest end, or it falls between the block's first 429 and that end. */
  ghost predicate SameBan(block: seq<Observation>, o: Observation) {
    block != [] && exists end ::
      && EndsAt(block, end)
      && var stated := o.ts as real + (if o.retryAfterSec > 0.0 then o.retryAfterSec * 1000.0 else 0.0);
         || (stated - end as real <= 60_000.0 && end as real - stated <= 60_000.0)
         || block[0].ts <= o.ts <= end
  }

  /** The 429s in blocks, each the reports of one ban. */
  ghost function Blocks(obs: seq<Observation>): seq<seq<Observation>> {
    if obs == [] then []
    else
      var n := |obs| - 1;
      var before := Blocks(obs[..n]);
      var last := |before| - 1;
      if before != [] && SameBan(before[last], obs[n]) then before[..last] + [before[last] + [obs[n]]]
      else before + [[obs[n]]]
  }

  function Flat(blocks: seq<seq<Observation>>): seq<Observation> {
    if blocks == [] then [] else Flat(blocks[..|blocks| - 1]) + blocks[|blocks| - 1]
  }

  lemma FlatPush(blocks: seq<seq<Observation>>, block: seq<Observation>)
    ensures Flat(blocks + [block]) == Flat(blocks) + block
  {
    assert (blocks + [block])[..|blocks|] == blocks;
  }

  /** An episode says when its block's first and last 429 came, how many there were, the
    * largest penalty stated in whole seconds and the latest end. */
  ghost predicate Covers(ep: Episode, block: seq<Observation>) {
    && block != [] && ep.count == |block|
    && ep.firstTs == block[0].ts && ep.lastTs == block[|block| - 1].ts
    && (forall o :: o in block ==> ep.firstTs <= o.ts <= ep.lastTs)
    && (forall o :: o in block ==> Seconds(o) <= ep.peakRetryAfterSec)
    && (exists o :: o in block && Seconds(o) == ep.peakRetryAfterSec)
    && EndsAt(block, ep.untilTs)
  }

  ghost predicate CoverAll(eps: seq<Episode>, blocks: seq<seq<Observation>>) {
    |eps| == |blocks| && forall i :: 0 <= i < |eps| ==> Covers(eps[i], blocks[i])
  }

  lemma StartedCovers(o: Observation)
    ensures Covers(Started(o), [o])
  {
    assert o in [o];
  }

  lemma EndIsUnique(block: seq<Observation>, a: int, b: int)
    requires EndsAt(block, a) && EndsAt(block, b)
    ensures a == b
  {
  }

  /** `BelongsTo` reads off the episode what `SameBan` says of its block. */
  lemma BelongsIsSameBan(ep: Episode, block: seq<Observation>, o: Observation)
    requires Covers(ep, block)
    ensures BelongsTo(ep, o) <==> SameBan(block, o)
  {
    if SameBan(block, o) {
      var end :| EndsAt(block, end)
        && var stated := o.ts as real + (if o.retryAfterSec > 0.0 then o.retryAfterSec * 1000.0 else 0.0);
           (stated - end as real <= 60_000.0 && end as real - stated <= 60_000.0) || block[0].ts <= o.ts <= end;
      EndIsUnique(block, end, ep.untilTs);
    }
  }

  lemma MergedCovers(ep: Episode, block: seq<Observation>, o: Observation)
    requires Covers(ep, block) && ep.lastTs <= o.ts
    ensures Covers(Merged(ep, o), block + [o])
  {
    var more := block + [o];
    assert more[|block|] == o && more[0] == block[0];
    var peak :| peak in block && Seconds(peak) == ep.peakRetryAfterSec;
    var late :| late in block && EndOf(late) == ep.untilTs;
    assert peak in more && late in more && o in more;
    assert forall x :: x in more <==> x in block || x == o;
  }

  lemma {:induction false} FirstIsEarliest(obs: seq<Observation>, i: nat)
    requires InTimeOrder(obs) && i < |obs|
    ensures obs[i].ts <= obs[|obs| - 1].ts
  {
    var n := |obs| - 1;
    if i < n {
      FirstIsEarliest(obs[..n], i);
    }
  }

  /** No 429 is lost or moved by blocking. */
  lemma {:induction false} BlocksHoldAll(obs: seq<Observation>)
    ensures Flat(Blocks(obs)) == obs
  {
    if obs != [] {
      var n := |obs| - 1;
      var before := Blocks(obs[..n]);
      BlocksHoldAll(obs[..n]);
      assert obs == obs[..n] + [obs[n]];
      var last := |before| - 1;
      if before != [] && SameBan(before[last], obs[n]) {
        FlatPush(before[..last], before[last]);
        FlatPush(before[..last], before[last] + [obs[n]]);
        assert before == before[..last] + [before[last]];
      } else {
        FlatPush(before, [obs[n]]);
      }
    }
  }

  lemma FoldCovers(eps: seq<Episode>, blocks: seq<seq<Observation>>, o: Observation)
    requires CoverAll(eps, blocks)
    requires blocks != [] ==> forall x :: x in blocks[|blocks| - 1] ==> x.ts <= o.ts
    ensures var last := |blocks| - 1;
      CoverAll(Fold(eps, o), if blocks != [] && SameBan(blocks[last], o) then blocks[..last] + [blocks[last] + [o]]
                             else blocks + [[o]])
  {
    var last := |blocks| - 1;
    if blocks != [] {
      BelongsIsSameBan(eps[last], blocks[last], o);
    }
    if blocks != [] && SameBan(blocks[last], o) {
      MergedCovers(eps[last], blocks[last], o);
    } else {
      StartedCovers(o);
    }
  }

  /** The unbounded ledger is the observed 429s in blocks: block by block an episode, in
    * order, and a 429 joins the block before it exactly when it reports the same ban. */
  lemma {:induction false} HistoryIsBlocks(obs: seq<Observation>)
    requires InTimeOrder(obs)
    ensures CoverAll(History(obs), Blocks(obs)) && Flat(Blocks(obs)) == obs
  {
    BlocksHoldAll(obs);
    if obs != [] {
      var n := |obs| - 1;
      HistoryIsBlocks(obs[..n]);
      BlocksHoldAll(obs[..n]);
      forall o | o in obs[..n]
        ensures o.ts <= obs[n].ts
      {
        var i :| 0 <= i < n && obs[..n][i] == o;
        FirstIsEarliest(obs, i);
      }
      FoldCovers(History(obs[..n]), Blocks(obs[..n]), obs[n]);
    }
  }

  // ---------------------------------------------------- the verdict on observations

  /** A ban seen in the last seven days whose block holds a 429 of more than a minute. */
  ghost predicate RecentPenalty(block: seq<Observation>, now: int) {
    && block != [] && block[|block| - 1].ts >= now - 7 * 24 * 60 * 60 * 1000
    && exists o :: o in block && Seconds(o) > 60
  }

  ghost predicate Severe(block: seq<Observation>) {
    exists o :: o in block && Seconds(o) >= 600
  }

  /** How many 429s lie in blocks of nudges only that were still seen in the last day. */
  ghost function RecentNudges(blocks: seq<seq<Observation>>, now: int): nat {
    if blocks == [] then 0
    else
      var b := blocks[0];
      (if b != [] && b[|b| - 1].ts >= now - 24 * 60 * 60 * 1000 && (forall o :: o in b ==> Seconds(o) <= 60)
       then |b| else 0) + RecentNudges(blocks[1..], now)
  }

  lemma CoveredPenalty(ep: Episode, block: seq<Observation>, now: int)
    requires Covers(ep, block)
    ensures RecentPenalty(block, now) <==> ep.lastTs >= now - PENALTY_WINDOW_MS && IsPenalty(ep)
    ensures Severe(block) <==> ep.peakRetryAfterSec >= SEVERE_RETRY_AFTER_SEC
    ensures (forall o :: o in block ==> Seconds(o) <= 60) <==> !IsPenalty(ep)
  {
  }

  lemma {:induction false} NudgesAreTrivial(eps: seq<Episode>, blocks: seq<seq<Observation>>, now: int)
    requires CoverAll(eps, blocks)
    ensures TrivialCount(eps, now) == RecentNudges(blocks, now)
  {
    if eps != [] {
      CoveredPenalty(eps[0], blocks[0], now);
      NudgesAreTrivial(eps[1..], blocks[1..], now);
    }
  }

  predicate Counts(e: Episode, now: int) {
    e.lastTs >= now - PENALTY_WINDOW_MS && IsPenalty(e)
  }

  lemma {:induction false} NoPenalty(eps: seq<Episode>, now: int)
    ensures Penalties(eps, now) == [] <==> forall i :: 0 <= i < |eps| ==> !Counts(eps[i], now)
  {
    if eps != [] {
      NoPenalty(eps[1..], now);
      assert forall i :: 0 < i < |eps| ==> eps[i] == eps[1..][i - 1];
    }
  }

  lemma {:induction false} OnePenalty(eps: seq<Episode>, now: int) returns (i: nat)
    requires |Penalties(eps, now)| == 1
    ensures i < |eps| && Counts(eps[i], now) && Penalties(eps, now)[0] == eps[i]
    ensures forall k :: 0 <= k < |eps| && k != i ==> !Counts(eps[k], now)
  {
    if Counts(eps[0], now) {
      i := 0;
      NoPenalty(eps[1..], now);
      assert forall k :: 0 < k < |eps| ==> eps[k] == eps[1..][k - 1];
    } else {
      var j := OnePenalty(eps[1..], now);
      i := j + 1;
      assert forall k :: 0 < k < |eps| ==> eps[k] == eps[1..][k - 1];
    }
  }

  lemma {:induction false} TwoPenalties(eps: seq<Episode>, now: int) returns (i: nat, k: nat)
    requires |Penalties(eps, now)| >= 2
    ensures i < k < |eps| && Counts(eps[i], now) && Counts(eps[k], now)
  {
    if !Counts(eps[0], now) {
      i, k := TwoPenalties(eps[1..], now);
      i, k := i + 1, k + 1;
    } else {
      i := 0;
      NoPenalty(eps[1..], now);
      var j :| 0 <= j < |eps[1..]| && Counts(eps[1..][j], now);
      k := j + 1;
    }
  }

  /** Which reason is given, by the penalty blocks of the last seven days. */
  ghost predicate Judged(v: Verdict, blocks: seq<seq<Observation>>, now: int) {
    && (v.Verdict? && v.reason.RepeatPenalty? <==>
         exists i, k :: 0 <= i < k < |blocks| && RecentPenalty(blocks[i], now) && RecentPenalty(blocks[k], now))
    && (v.Verdict? && v.reason.SeverePenalty? <==>
         exists i :: 0 <= i < |blocks| && Lone(blocks, i, now) && Severe(blocks[i]))
    && (v.Verdict? && v.reason.SinglePenalty? <==>
         exists i :: 0 <= i < |blocks| && Lone(blocks, i, now) && !Severe(blocks[i]))
    && (v.Verdict? && v.reason.TrivialPressure? <==>
         (forall i :: 0 <= i < |blocks| ==> !RecentPenalty(blocks[i], now)) && RecentNudges(blocks, now) >= 20)
  }

  /** Block `i` is the only penalty of the last seven days. */
  ghost predicate Lone(blocks: seq<seq<Observation>>, i: nat, now: int)
    requires i < |blocks|
  {
    RecentPenalty(blocks[i], now) && forall k :: 0 <= k < |blocks| && k != i ==> !RecentPenalty(blocks[k], now)
  }

  ghost predicate Alike(eps: seq<Episode>, blocks: seq<seq<Observation>>, now: int) {
    && |eps| == |blocks|
    && forall i :: 0 <= i < |eps| ==>
         && (RecentPenalty(blocks[i], now) <==> Counts(eps[i], now))
         && (Severe(blocks[i]) <==> eps[i].peakRetryAfterSec >= 600)
  }

  lemma CoveredAlike(eps: seq<Episode>, blocks: seq<seq<Observation>>, now: int)
    requires CoverAll(eps, blocks)
    ensures Alike(eps, blocks, now)
  {
    forall i | 0 <= i < |eps|
      ensures RecentPenalty(blocks[i], now) <==> Counts(eps[i], now)
      ensures Severe(blocks[i]) <==> eps[i].peakRetryAfterSec >= 600
    {
      CoveredPenalty(eps[i], blocks[i], now);
    }
  }

  lemma JudgesOne(eps: seq<Episode>, blocks: seq<seq<Observation>>, now: int, v: Verdict, i: nat)
    requires Alike(eps, blocks, now) && i < |eps| && Counts(eps[i], now) && v.Verdict?
    requires forall k :: 0 <= k < |eps| && k != i ==> !Counts(eps[k], now)
    requires v.reason == if eps[i].peakRetryAfterSec >= 600 then SeverePenalty else SinglePenalty
    ensures Judged(v, blocks, now)
  {
    assert Lone(blocks, i, now);
    assert forall k :: 0 <= k < |blocks| && Lone(blocks, k, now) ==> k == i;
  }

  lemma JudgesMany(eps: seq<Episode>, blocks: seq<seq<Observation>>, now: int, v: Verdict, i: nat, k: nat)
    requires Alike(eps, blocks, now) && i < k < |eps| && Counts(eps[i], now) && Counts(eps[k], now)
    requires v.Verdict? && v.reason == RepeatPenalty
    ensures Judged(v, blocks, now)
  {
    assert RecentPenalty(blocks[i], now) && RecentPenalty(blocks[k], now);
  }

  lemma ClassifyJudges(eps: seq<Episode>, blocks: seq<seq<Observation>>, now: int)
    requires CoverAll(eps, blocks) && StillOpen(eps, now) == []
    ensures Judged(Classify(eps, now), blocks, now)
  {
    CoveredAlike(eps, blocks, now);
    NoPenalty(eps, now);
    if |Penalties(eps, now)| == 1 {
      var i := OnePenalty(eps, now);
      JudgesOne(eps, blocks, now, Classify(eps, now), i);
    } else if |Penalties(eps, now)| >= 2 {
      var i, k := TwoPenalties(eps, now);
      JudgesMany(eps, blocks, now, Classify(eps, now), i, k);
    } else {
      NudgesAreTrivial(eps, blocks, now);
    }
  }

  lemma {:induction false} BlockOf(blocks: seq<seq<Observation>>, o: Observation) returns (i: nat)
    requires o in Flat(blocks)
    ensures i < |blocks| && o in blocks[i]
  {
    var last := |blocks| - 1;
    if o in blocks[last] {
      i := last;
    } else {
      i := BlockOf(blocks[..last], o);
    }
  }

  lemma {:induction false} InFlat(blocks: seq<seq<Observation>>, i: nat, o: Observation)
    requires i < |blocks| && o in blocks[i]
    ensures o in Flat(blocks)
  {
    var last := |blocks| - 1;
    if i < last {
      InFlat(blocks[..last], i, o);
    }
  }

  ghost predicate SomeOpen(obs: seq<Observation>, now: int) {
    exists o :: o in obs && EndOf(o) > now
  }

  lemma {:induction false} OpenIsEpisode(eps: seq<Episode>, now: int)
    ensures StillOpen(eps, now) != [] <==> exists i :: 0 <= i < |eps| && eps[i].untilTs > now
  {
    if eps != [] {
      OpenIsEpisode(eps[1..], now);
      assert forall i :: 0 < i < |eps| ==> eps[i] == eps[1..][i - 1];
      assert eps[0].untilTs <= now ==>
        forall i :: 0 <= i < |eps[1..]| && eps[1..][i].untilTs > now ==> eps[i + 1].untilTs > now;
    }
  }

  lemma OpenBlockShows(ep: Episode, blocks: seq<seq<Observation>>, i: nat, now: int)
    requires i < |blocks| && Covers(ep, blocks[i]) && ep.untilTs > now
    ensures SomeOpen(Flat(blocks), now)
  {
    var o :| o in blocks[i] && EndOf(o) == ep.untilTs;
    InFlat(blocks, i, o);
  }

  lemma OpenOnBlocks(eps: seq<Episode>, blocks: seq<seq<Observation>>, now: int)
    requires CoverAll(eps, blocks)
    ensures StillOpen(eps, now) != [] <==> SomeOpen(Flat(blocks), now)
  {
    OpenIsEpisode(eps, now);
    if i :| 0 <= i < |eps| && eps[i].untilTs > now {
      OpenBlockShows(eps[i], blocks, i, now);
    }
    if SomeOpen(Flat(blocks), now) {
      OpenHasEpisode(eps, blocks, now);
    }
  }

  lemma OpenHasEpisode(eps: seq<Episode>, blocks: seq<seq<Observation>>, now: int)
    requires CoverAll(eps, blocks) && SomeOpen(Flat(blocks), now)
    ensures exists i :: 0 <= i < |eps| && eps[i].untilTs > now
  {
    var o :| o in Flat(blocks) && EndOf(o) > now;
    var i := BlockOf(blocks, o);
    assert Covers(eps[i], blocks[i]);
  }

  lemma VerdictOnBlocks(eps: seq<Episode>, blocks: seq<seq<Observation>>, now: int)
    requires CoverAll(eps, blocks)
    ensures var v := Classify(eps, now);
      && (v.Verdict? && v.reason.BanOpen? <==> SomeOpen(Flat(blocks), now))
      && (!(v.Verdict? && v.reason.BanOpen?) ==> Judged(v, blocks, now))
      && (v.Verdict? ==> v.trivialCount24h == RecentNudges(blocks, now))
  {
    NudgesAreTrivial(eps, blocks, now);
    OpenOnBlocks(eps, blocks, now);
    if StillOpen(eps, now) == [] {
      ClassifyJudges(eps, blocks, now);
    }
    ReasonNamesOpen(eps, now);
  }

  lemma ReasonNamesOpen(eps: seq<Episode>, now: int)
    ensures var v := Classify(eps, now);
      && (v.Verdict? && v.reason.BanOpen? <==> StillOpen(eps, now) != [])
      && (v.Verdict? ==> v.trivialCount24h == TrivialCount(eps, now))
  {
  }

  /** The verdict on the history, as a statement about the 429s observed: an open ban is
    * reported exactly when a stated penalty is not over; otherwise two penalty blocks of the
    * last seven days make a repeat, a lone one is severe exactly when a 429 of ten minutes or
    * more is in it, and without one twenty nudges of the last day raise the alarm. */
  lemma VerdictOnObservations(obs: seq<Observation>, now: int)
    requires InTimeOrder(obs)
    ensures var v := Classify(History(obs), now);
      && (v.Verdict? && v.reason.BanOpen? <==> SomeOpen(obs, now))
      && (!(v.Verdict? && v.reason.BanOpen?) ==> Judged(v, Blocks(obs), now))
      && (v.Verdict? ==> v.trivialCount24h == RecentNudges(Blocks(obs), now))
  {
    HistoryIsBlocks(obs);
    VerdictOnBlocks(History(obs), Blocks(obs), now);
  }

  lemma {:induction false} EndsBeforeNext(eps: seq<Episode>, limit: int, i: nat, k: nat)
    requires DisjointBefore(eps, limit) && i < k < |eps|
    ensures eps[i].lastTs <= eps[i].untilTs < eps[k].firstTs
  {
    var n := |eps| - 1;
    if k < n {
      EndsBeforeNext(eps[..n], eps[n].firstTs, i, k);
    } else {
      Older(eps[..n], eps[n].firstTs, i);
    }
  }

  /** A 429 that falls in the time of another's ban lies in the same block. */
  lemma DuringIsSameBlock(eps: seq<Episode>, blocks: seq<seq<Observation>>, last: int, o: Observation, x: Observation,
                          i: nat, k: nat)
    requires CoverAll(eps, blocks) && Disjoint(eps, last) && i < |eps| && k < |eps|
    requires o in blocks[i] && x in blocks[k] && o.ts <= x.ts <= EndOf(o)
    ensures i == k
  {
    assert Covers(eps[i], blocks[i]) && Covers(eps[k], blocks[k]);
    if i != k {
      BeforeNext(eps, last, if i < k then i else k, if i < k then k else i);
    }
  }

  lemma BeforeNext(eps: seq<Episode>, now: int, i: nat, k: nat)
    requires Disjoint(eps, now) && i < k < |eps|
    ensures eps[i].lastTs <= eps[i].untilTs < eps[k].firstTs
  {
    var n := |eps| - 1;
    if k < n {
      EndsBeforeNext(eps[..n], eps[n].firstTs, i, k);
    } else {
      Older(eps[..n], eps[n].firstTs, i);
    }
  }

  /** A penalty of ten minutes or more of the last seven days, now over, is reported as
    * severe if every other 429 of more than a minute came while it lasted: however often the
    * ban was run into as it counted down, it is one ban, and as long as first stated. */
  lemma SevereIsReported(obs: seq<Observation>, now: int, o: Observation)
    requires InTimeOrder(obs) && o in obs && Seconds(o) >= 600 && o.ts >= now - 7 * 24 * 60 * 60 * 1000
    requires forall x :: x in obs ==> EndOf(x) <= now
    requires forall x :: x in obs ==> Seconds(x) <= 60 || o.ts <= x.ts <= EndOf(o)
    ensures var v := Classify(History(obs), now); v.Verdict? && v.reason.SeverePenalty?
  {
    HistoryIsBlocks(obs);
    HistoryDisjoint(obs);
    VerdictOnBlocks(History(obs), Blocks(obs), now);
    LoneBan(History(obs), Blocks(obs), obs[|obs| - 1].ts, now, o);
  }

  lemma LoneBan(eps: seq<Episode>, blocks: seq<seq<Observation>>, last: int, now: int, o: Observation)
    requires CoverAll(eps, blocks) && Disjoint(eps, last)
    requires o in Flat(blocks) && Seconds(o) >= 600 && o.ts >= now - 7 * 24 * 60 * 60 * 1000
    requires forall x :: x in Flat(blocks) ==> Seconds(x) <= 60 || o.ts <= x.ts <= EndOf(o)
    ensures exists i :: 0 <= i < |blocks| && Lone(blocks, i, now) && Severe(blocks[i])
  {
    var i := BlockOf(blocks, o);
    assert Covers(eps[i], blocks[i]);
    assert RecentPenalty(blocks[i], now) && Severe(blocks[i]);
    forall k | 0 <= k < |blocks| && k != i
      ensures !RecentPenalty(blocks[k], now)
    {
      if x :| x in blocks[k] && Seconds(x) > 60 {
        InFlat(blocks, k, x);
        DuringIsSameBlock(eps, blocks, last, o, x, i, k);
      }
    }
    assert Lone(blocks, i, now);
  }
}
