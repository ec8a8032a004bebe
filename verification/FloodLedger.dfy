/** The 429 pressure ledger: observations folded into episodes, a bounded list of them,
  * and the operator verdict drawn from it. */
module FloodLedger {

  /** One observed 429: when, and the stated penalty in seconds. */
  datatype Observation = Observation(ts: int, retryAfterSec: real)

  datatype Episode = Episode(firstTs: int, lastTs: int, peakRetryAfterSec: int, untilTs: int, count: nat)

  const EPISODE_MERGE_MS := 60_000
  const MAX_EPISODES := 400
  const RETENTION_MS := 30 * 24 * 60 * 60 * 1000
  const TRIVIAL_RETRY_AFTER_SEC := 60
  const SEVERE_RETRY_AFTER_SEC := 600
  const PENALTY_WINDOW_MS := 7 * 24 * 60 * 60 * 1000
  const TRIVIAL_PRESSURE_WINDOW_MS := 24 * 60 * 60 * 1000
  const TRIVIAL_PRESSURE_WARN_COUNT := 20

  function MinInt(a: int, b: int): int { if a <= b then a else b }
  function MaxInt(a: int, b: int): int { if a >= b then a else b }

  /** The whole seconds of a penalty, never negative. */
  function WholeSeconds(r: real): nat {
    if r.Floor >= 0 then r.Floor else 0
  }

  predicate BelongsTo(ep: Episode, obs: Observation) {
    var stated := if obs.retryAfterSec >= 0.0 then obs.retryAfterSec else 0.0;
    var drift := obs.ts as real + stated * 1000.0 - ep.untilTs as real;
    || (-(EPISODE_MERGE_MS as real) <= drift <= EPISODE_MERGE_MS as real)
    || ep.firstTs <= obs.ts <= ep.untilTs
  }

  function Started(obs: Observation): Episode {
    var secs := WholeSeconds(obs.retryAfterSec);
    Episode(obs.ts, obs.ts, secs, obs.ts + secs * 1000, 1)
  }

  function Merged(ep: Episode, obs: Observation): Episode {
    var started := Started(obs);
    Episode(MinInt(ep.firstTs, obs.ts), MaxInt(ep.lastTs, obs.ts),
            MaxInt(ep.peakRetryAfterSec, started.peakRetryAfterSec), MaxInt(ep.untilTs, started.untilTs), ep.count + 1)
  }

  /** Fold one observation into the list: merge with the last episode or start a new one. */
  function Fold(eps: seq<Episode>, obs: Observation): seq<Episode> {
    var n := |eps| - 1;
    if n >= 0 && BelongsTo(eps[n], obs) then eps[..n] + [Merged(eps[n], obs)] else eps + [Started(obs)]
  }

  /** The episodes last seen at or after `from`, in order. */
  function Since(eps: seq<Episode>, from: int): seq<Episode> {
    if eps == [] then []
    else if eps[0].lastTs >= from then [eps[0]] + Since(eps[1..], from)
    else Since(eps[1..], from)
  }

  /** The newest 400. */
  function Capped(kept: seq<Episode>): seq<Episode> {
    if |kept| > MAX_EPISODES then kept[|kept| - MAX_EPISODES..] else kept
  }

  function Prune(eps: seq<Episode>, now: int): seq<Episode> {
    Capped(Since(eps, now - RETENTION_MS))
  }

  /** The bounded ledger, and the history it would be without bounds. */
  function Ledger(obs: seq<Observation>): seq<Episode> {
    if obs == [] then []
    else Prune(Fold(Ledger(obs[..|obs| - 1]), obs[|obs| - 1]), obs[|obs| - 1].ts)
  }

  function History(obs: seq<Observation>): seq<Episode> {
    if obs == [] then [] else Fold(History(obs[..|obs| - 1]), obs[|obs| - 1])
  }

  // ---------------------------------------------------------------- verdict

  predicate IsPenalty(e: Episode) {
    e.peakRetryAfterSec > TRIVIAL_RETRY_AFTER_SEC
  }

  function Penalties(eps: seq<Episode>, now: int): seq<Episode> {
    if eps == [] then []
    else if eps[0].lastTs >= now - PENALTY_WINDOW_MS && IsPenalty(eps[0]) then [eps[0]] + Penalties(eps[1..], now)
    else Penalties(eps[1..], now)
  }

  function TrivialCount(eps: seq<Episode>, now: int): nat {
    if eps == [] then 0
    else (if !IsPenalty(eps[0]) && eps[0].lastTs >= now - TRIVIAL_PRESSURE_WINDOW_MS then eps[0].count else 0)
         + TrivialCount(eps[1..], now)
  }

  function StillOpen(eps: seq<Episode>, now: int): seq<Episode> {
    if eps == [] then []
    else if eps[0].untilTs > now then [eps[0]] + StillOpen(eps[1..], now) else StillOpen(eps[1..], now)
  }

  /** The open episode that ends last, the earliest of equals. */
  function Worst(open: seq<Episode>): Episode
    requires open != []
  {
    if |open| == 1 then open[0]
    else
      var w := Worst(open[..|open| - 1]);
      if open[|open| - 1].untilTs > w.untilTs then open[|open| - 1] else w
  }

  datatype Reason = BanOpen(worst: Episode) | RepeatPenalty | SeverePenalty | SinglePenalty | TrivialPressure

  datatype Verdict = Quiet | Verdict(reason: Reason, penalties: seq<Episode>, trivialCount24h: nat)

  function Classify(eps: seq<Episode>, now: int): Verdict {
    var penalties, trivial := Penalties(eps, now), TrivialCount(eps, now);
    var open := StillOpen(eps, now);
    if open != [] then Verdict(BanOpen(Worst(open)), penalties, trivial)
    else if |penalties| >= 2 then Verdict(RepeatPenalty, penalties, trivial)
    else if |penalties| == 1 && penalties[0].peakRetryAfterSec >= SEVERE_RETRY_AFTER_SEC
    then Verdict(SeverePenalty, penalties, trivial)
    else if |penalties| == 1 then Verdict(SinglePenalty, penalties, trivial)
    else if trivial >= TRIVIAL_PRESSURE_WARN_COUNT then Verdict(TrivialPressure, penalties, trivial)
    else Quiet
  }

  lemma {:induction false} OpenMeans(eps: seq<Episode>, now: int)
    ensures forall e :: e in StillOpen(eps, now) <==> e in eps && e.untilTs > now
  {
    if eps != [] {
      OpenMeans(eps[1..], now);
    }
  }

  lemma {:induction false} PenaltiesMean(eps: seq<Episode>, now: int)
    ensures forall e :: e in Penalties(eps, now) <==> e in eps && e.lastTs >= now - PENALTY_WINDOW_MS && IsPenalty(e)
  {
    if eps != [] {
      PenaltiesMean(eps[1..], now);
    }
  }

  lemma {:induction false} WorstIsLatest(open: seq<Episode>)
    requires open != []
    ensures Worst(open) in open && forall e :: e in open ==> e.untilTs <= Worst(open).untilTs
  {
    var n := |open| - 1;
    if n > 0 {
      WorstIsLatest(open[..n]);
      assert open == open[..n] + [open[n]];
    }
  }

  /** An open ban outranks everything and the verdict names the one that ends last; with
    * none open there is a verdict exactly when a penalty fell in the last seven days or
    * the nudges of the last 24 hours reach the warning count. */
  lemma VerdictMeans(eps: seq<Episode>, now: int)
    ensures var v := Classify(eps, now);
      && ((exists e :: e in eps && e.untilTs > now) <==> v.Verdict? && v.reason.BanOpen?)
      && (v.Verdict? && v.reason.BanOpen? ==>
           v.reason.worst in eps && forall e :: e in eps ==> e.untilTs <= v.reason.worst.untilTs)
      && (v.Quiet? <==>
           && (forall e :: e in eps ==> e.untilTs <= now)
           && (forall e :: e in eps && e.lastTs >= now - PENALTY_WINDOW_MS ==>
                 e.peakRetryAfterSec <= TRIVIAL_RETRY_AFTER_SEC)
           && TrivialCount(eps, now) < TRIVIAL_PRESSURE_WARN_COUNT)
  {
    OpenMeans(eps, now);
    PenaltiesMean(eps, now);
    var open, penalties := StillOpen(eps, now), Penalties(eps, now);
    if open != [] {
      assert open[0] in open;
      WorstIsLatest(open);
    } else {
      assert penalties != [] ==> penalties[0] in penalties;
    }
  }

  // ----------------------------------------------------- shape of the history

  /** Each episode is sane, and ends strictly before the next begins; none was seen after
    * `now`. */
  ghost predicate Disjoint(eps: seq<Episode>, now: int) {
    eps == [] ||
    var n := |eps| - 1;
    && eps[n].firstTs <= eps[n].lastTs <= eps[n].untilTs && eps[n].count >= 1
    && eps[n].lastTs <= now
    && DisjointBefore(eps[..n], eps[n].firstTs)
  }

  ghost predicate DisjointBefore(eps: seq<Episode>, limit: int) {
    eps == [] ||
    var n := |eps| - 1;
    && eps[n].firstTs <= eps[n].lastTs <= eps[n].untilTs < limit && eps[n].count >= 1
    && DisjointBefore(eps[..n], eps[n].firstTs)
  }

  ghost predicate InTimeOrder(obs: seq<Observation>) {
    |obs| <= 1 || (obs[|obs| - 2].ts <= obs[|obs| - 1].ts && InTimeOrder(obs[..|obs| - 1]))
  }

  function Sum(eps: seq<Episode>): nat {
    if eps == [] then 0 else Sum(eps[..|eps| - 1]) + eps[|eps| - 1].count
  }

  lemma MergedSpan(ep: Episode, obs: Observation)
    requires ep.firstTs <= ep.lastTs <= ep.untilTs && ep.lastTs <= obs.ts
    ensures var m := Merged(ep, obs);
      m.firstTs == ep.firstTs && m.lastTs == obs.ts <= m.untilTs && m.count == ep.count + 1
  {
  }

  lemma NotBelonging(ep: Episode, obs: Observation)
    requires ep.firstTs <= obs.ts && !BelongsTo(ep, obs)
    ensures ep.untilTs < obs.ts
  {
  }

  lemma FoldKeepsDisjoint(eps: seq<Episode>, obs: Observation, before: int)
    requires Disjoint(eps, before) && before <= obs.ts
    ensures Disjoint(Fold(eps, obs), obs.ts) && Sum(Fold(eps, obs)) == Sum(eps) + 1
    ensures Fold(eps, obs) != [] && Fold(eps, obs)[|Fold(eps, obs)| - 1].lastTs == obs.ts
  {
    var n := |eps| - 1;
    if n >= 0 && BelongsTo(eps[n], obs) {
      MergedSpan(eps[n], obs);
      assert (eps[..n] + [Merged(eps[n], obs)])[..n] == eps[..n];
    } else {
      if n >= 0 {
        NotBelonging(eps[n], obs);
      }
      assert (eps + [Started(obs)])[..|eps|] == eps;
    }
  }

  /** In time order, episode windows stay disjoint and ordered, and no 429 is lost or
    * counted twice. */
  lemma {:induction false} HistoryDisjoint(obs: seq<Observation>)
    requires InTimeOrder(obs)
    ensures obs != [] ==> Disjoint(History(obs), obs[|obs| - 1].ts)
    ensures obs == [] ==> History(obs) == []
    ensures Sum(History(obs)) == |obs|
  {
    if obs != [] {
      var n := |obs| - 1;
      HistoryDisjoint(obs[..n]);
      FoldKeepsDisjoint(History(obs[..n]), obs[n], if n > 0 then obs[n - 1].ts else obs[n].ts);
    }
  }

  // ------------------------------------------------------- the ledger's suffix

  lemma {:induction false} Older(eps: seq<Episode>, limit: int, i: nat)
    requires DisjointBefore(eps, limit) && i < |eps|
    ensures eps[i].firstTs <= eps[i].lastTs <= eps[i].untilTs < limit && eps[i].count >= 1
  {
    var n := |eps| - 1;
    if i < n {
      Older(eps[..n], eps[n].firstTs, i);
    }
  }

  lemma {:induction false} LastsRiseBefore(eps: seq<Episode>, limit: int, i: nat, j: nat)
    requires DisjointBefore(eps, limit) && i <= j < |eps|
    ensures eps[i].lastTs <= eps[j].lastTs
  {
    var n := |eps| - 1;
    if i < j == n {
      Older(eps[..n], eps[n].firstTs, i);
    } else if j < n {
      LastsRiseBefore(eps[..n], eps[n].firstTs, i, j);
    }
  }

  /** Later episodes were seen later; all but the last have ended by `now`. */
  lemma LastsRise(eps: seq<Episode>, now: int, i: nat, j: nat)
    requires Disjoint(eps, now) && i <= j < |eps|
    ensures eps[i].lastTs <= eps[j].lastTs <= now && eps[i].count >= 1
    ensures i < |eps| - 1 ==> eps[i].untilTs < now
  {
    var n := |eps| - 1;
    if i < n {
      Older(eps[..n], eps[n].firstTs, i);
    }
    if j < n {
      Older(eps[..n], eps[n].firstTs, j);
      LastsRiseBefore(eps[..n], eps[n].firstTs, i, j);
    }
  }

  ghost predicate Rising(eps: seq<Episode>) {
    forall i, j :: 0 <= i <= j < |eps| ==> eps[i].lastTs <= eps[j].lastTs
  }

  /** Filtering a rising list by recency drops a prefix of it. */
  lemma {:induction false} SinceIsSuffix(eps: seq<Episode>, from: int)
    requires Rising(eps)
    ensures |Since(eps, from)| <= |eps| && Since(eps, from) == eps[|eps| - |Since(eps, from)|..]
    ensures |Since(eps, from)| < |eps| ==> eps[|eps| - |Since(eps, from)| - 1].lastTs < from
    ensures |Since(eps, from)| > 0 ==> eps[|eps| - |Since(eps, from)|].lastTs >= from
  {
    if eps != [] {
      SinceIsSuffix(eps[1..], from);
      if eps[0].lastTs >= from {
        AllSince(eps[1..], from);
        assert Since(eps, from) == eps;
      }
    }
  }

  lemma {:induction false} AllSince(eps: seq<Episode>, from: int)
    requires forall i :: 0 <= i < |eps| ==> eps[i].lastTs >= from
    ensures Since(eps, from) == eps
  {
    if eps != [] {
      AllSince(eps[1..], from);
    }
  }

  /** `kept` is `full` less a prefix that is past retention at `now`, or displaced by a
    * full ledger. */
  ghost predicate Tail(kept: seq<Episode>, full: seq<Episode>, now: int) {
    && |kept| <= |full| && kept == full[|full| - |kept|..]
    && |kept| <= MAX_EPISODES
    && (full != [] ==> kept != [])
    && (|kept| < |full| ==> |kept| == MAX_EPISODES || full[|full| - |kept| - 1].lastTs < now - RETENTION_MS)
  }

  lemma FoldTail(kept: seq<Episode>, full: seq<Episode>, obs: Observation)
    requires |kept| <= |full| && kept == full[|full| - |kept|..] && (full != [] ==> kept != [])
    ensures var k, f := Fold(kept, obs), Fold(full, obs);
      && |kept| <= |k| <= |f| && |f| - |k| == |full| - |kept| && k == f[|f| - |k|..]
      && (forall i :: 0 <= i < |f| - |k| ==> f[i] == full[i])
  {
  }

  lemma SuffixRises(full: seq<Episode>, now: int, n: nat)
    requires Disjoint(full, now) && n <= |full|
    ensures Rising(full[n..])
  {
    forall i, j | 0 <= i <= j < |full[n..]|
      ensures full[n..][i].lastTs <= full[n..][j].lastTs
    {
      LastsRise(full, now, n + i, n + j);
    }
  }

  lemma SuffixOfSuffix<T>(full: seq<T>, m: nat, n: nat)
    requires m <= |full| && n <= |full| - m
    ensures full[m..][n..] == full[m + n..]
  {
  }

  lemma TailFrom(f: seq<Episode>, d: nat, now: int)
    requires d < |f| <= d + MAX_EPISODES
    requires d > 0 ==> |f| == d + MAX_EPISODES || f[d - 1].lastTs < now - RETENTION_MS
    ensures Tail(f[d..], f, now)
  {
    assert |f[d..]| == |f| - d;
  }

  lemma CappedFrom(f: seq<Episode>, d: nat)
    requires d < |f|
    ensures Capped(f[d..]) == if |f| - d > MAX_EPISODES then f[|f| - MAX_EPISODES..] else f[d..]
  {
    if |f| - d > MAX_EPISODES {
      SuffixOfSuffix(f, d, |f| - d - MAX_EPISODES);
    }
  }

  /** Dropping `n` more expired episodes from a tail. */
  lemma DropKeepsTail(f: seq<Episode>, m: nat, n: nat, now: int)
    requires m + n < |f|
    requires n > 0 ==> f[m + n - 1].lastTs < now - RETENTION_MS
    requires m > 0 ==> |f| - m >= MAX_EPISODES || f[m - 1].lastTs < now - RETENTION_MS
    ensures Tail(Capped(f[m + n..]), f, now)
  {
    CappedFrom(f, m + n);
    TailFrom(f, if |f| - m - n > MAX_EPISODES then |f| - MAX_EPISODES else m + n, now);
  }

  /** How many episodes past retention a prune of a rising list drops. */
  lemma PruneDrops(k: seq<Episode>, now: int) returns (n: nat)
    requires k != [] && Rising(k) && k[|k| - 1].lastTs >= now - RETENTION_MS
    ensures n < |k| && Since(k, now - RETENTION_MS) == k[n..]
    ensures n > 0 ==> k[n - 1].lastTs < now - RETENTION_MS
  {
    SinceIsSuffix(k, now - RETENTION_MS);
    n := |k| - |Since(k, now - RETENTION_MS)|;
  }

  lemma PruneKeepsTail(f: seq<Episode>, m: nat, now: int)
    requires m < |f| && Rising(f[m..]) && f[|f| - 1].lastTs >= now - RETENTION_MS
    requires m > 0 ==> |f| - m >= MAX_EPISODES || f[m - 1].lastTs < now - RETENTION_MS
    ensures Tail(Prune(f[m..], now), f, now)
  {
    var n := PruneDrops(f[m..], now);
    SuffixOfSuffix(f, m, n);
    DropKeepsTail(f, m, n, now);
  }

  lemma StepKeepsTail(kept: seq<Episode>, full: seq<Episode>, obs: Observation, before: int)
    requires Disjoint(full, before) && before <= obs.ts && Tail(kept, full, before)
    ensures Tail(Prune(Fold(kept, obs), obs.ts), Fold(full, obs), obs.ts)
  {
    var k, f := Fold(kept, obs), Fold(full, obs);
    FoldKeepsDisjoint(full, obs, before);
    FoldTail(kept, full, obs);
    SuffixRises(f, obs.ts, |f| - |k|);
    PruneKeepsTail(f, |f| - |k|, obs.ts);
  }

  /** The bounded ledger and the unbounded history after one more observation. */
  lemma LastObservation(obs: seq<Observation>)
    requires obs != []
    ensures var n := |obs| - 1;
      && Ledger(obs) == Prune(Fold(Ledger(obs[..n]), obs[n]), obs[n].ts)
      && History(obs) == Fold(History(obs[..n]), obs[n])
  {
  }

  lemma NoneYet(now: int)
    ensures Tail(Ledger([]), History([]), now) && Disjoint(History([]), now)
  {
  }

  /** The time of the last observation, or `now` before any. */
  function LastSeen(obs: seq<Observation>, now: int): int {
    if obs == [] then now else obs[|obs| - 1].ts
  }

  /** The bounded ledger is always the newest part of the unbounded history. */
  lemma {:induction false} LedgerIsTail(obs: seq<Observation>)
    requires InTimeOrder(obs)
    ensures obs != [] ==> Tail(Ledger(obs), History(obs), obs[|obs| - 1].ts)
  {
    if obs != [] {
      var n := |obs| - 1;
      var before := LastSeen(obs[..n], obs[n].ts);
      LedgerIsTail(obs[..n]);
      HistoryDisjoint(obs[..n]);
      NoneYet(before);
      StepKeepsTail(Ledger(obs[..n]), History(obs[..n]), obs[n], before);
      LastObservation(obs);
    }
  }

  // ------------------------------------------------------- same verdict, exactly

  lemma {:induction false} PenaltiesConcat(a: seq<Episode>, b: seq<Episode>, now: int)
    ensures Penalties(a + b, now) == Penalties(a, now) + Penalties(b, now)
  {
    if a == [] {
      assert a + b == b;
    } else {
      assert (a + b)[1..] == a[1..] + b;
      PenaltiesConcat(a[1..], b, now);
    }
  }

  lemma {:induction false} TrivialConcat(a: seq<Episode>, b: seq<Episode>, now: int)
    ensures TrivialCount(a + b, now) == TrivialCount(a, now) + TrivialCount(b, now)
  {
    if a == [] {
      assert a + b == b;
    } else {
      assert (a + b)[1..] == a[1..] + b;
      TrivialConcat(a[1..], b, now);
    }
  }

  lemma {:induction false} OpenConcat(a: seq<Episode>, b: seq<Episode>, now: int)
    ensures StillOpen(a + b, now) == StillOpen(a, now) + StillOpen(b, now)
  {
    if a == [] {
      assert a + b == b;
    } else {
      assert (a + b)[1..] == a[1..] + b;
      OpenConcat(a[1..], b, now);
    }
  }

  lemma {:induction false} NoneOpen(eps: seq<Episode>, now: int)
    requires forall i :: 0 <= i < |eps| ==> eps[i].untilTs <= now
    ensures StillOpen(eps, now) == []
  {
    if eps != [] {
      NoneOpen(eps[1..], now);
    }
  }

  lemma {:induction false} NoneRecent(eps: seq<Episode>, now: int)
    requires forall i :: 0 <= i < |eps| ==> eps[i].lastTs < now - PENALTY_WINDOW_MS
    ensures Penalties(eps, now) == [] && TrivialCount(eps, now) == 0
  {
    if eps != [] {
      NoneRecent(eps[1..], now);
    }
  }

  /** A list of recent episodes with no penalty among them counts at least one 429 each. */
  lemma {:induction false} TrivialAtLeast(eps: seq<Episode>, now: int)
    requires forall i :: 0 <= i < |eps| ==> eps[i].lastTs >= now - TRIVIAL_PRESSURE_WINDOW_MS && eps[i].count >= 1
    requires Penalties(eps, now) == []
    ensures TrivialCount(eps, now) >= |eps|
  {
    if eps != [] {
      TrivialAtLeast(eps[1..], now);
    }
  }

  lemma {:induction false} SomeTrivial(eps: seq<Episode>, now: int) returns (i: nat)
    requires TrivialCount(eps, now) > 0
    ensures i < |eps| && eps[i].lastTs >= now - TRIVIAL_PRESSURE_WINDOW_MS
  {
    if !IsPenalty(eps[0]) && eps[0].lastTs >= now - TRIVIAL_PRESSURE_WINDOW_MS {
      i := 0;
    } else {
      var j := SomeTrivial(eps[1..], now);
      i := j + 1;
    }
  }

  /** The prefix the ledger has lost. */
  function Lost(obs: seq<Observation>): seq<Episode> {
    if |Ledger(obs)| <= |History(obs)| then History(obs)[..|History(obs)| - |Ledger(obs)|] else []
  }

  lemma EarlierAreClosed(full: seq<Episode>, t: int, n: nat, now: int)
    requires Disjoint(full, t) && n < |full| && t <= now
    ensures StillOpen(full[..n], now) == []
  {
    forall i | 0 <= i < n
      ensures full[..n][i].untilTs <= now
    {
      LastsRise(full, t, i, i);
    }
    NoneOpen(full[..n], now);
  }

  lemma LostIsClosed(kept: seq<Episode>, full: seq<Episode>, t: int, now: int)
    requires Disjoint(full, t) && Tail(kept, full, t) && t <= now
    ensures full == full[..|full| - |kept|] + kept && StillOpen(full[..|full| - |kept|], now) == []
  {
    if full != [] {
      EarlierAreClosed(full, t, |full| - |kept|, now);
    }
  }

  /** If the ledger has lost a nudge of the last 24 hours, then it holds 400 episodes, all
    * of the last 24 hours. */
  lemma LostTrivialMeansFull(kept: seq<Episode>, full: seq<Episode>, t: int, now: int, i: nat)
    requires Disjoint(full, t) && Tail(kept, full, t) && t <= now
    requires i < |full| - |kept| && full[i].lastTs >= now - TRIVIAL_PRESSURE_WINDOW_MS
    requires Penalties(kept, now) == []
    ensures TrivialCount(kept, now) >= TRIVIAL_PRESSURE_WARN_COUNT
  {
    var n := |full| - |kept|;
    LastsRise(full, t, i, n - 1);
    forall j | 0 <= j < |kept|
      ensures kept[j].lastTs >= now - TRIVIAL_PRESSURE_WINDOW_MS && kept[j].count >= 1
    {
      LastsRise(full, t, i, n + j);
      LastsRise(full, t, n + j, n + j);
    }
    TrivialAtLeast(kept, now);
  }

  /** When one of two lists with the same open bans earns a verdict, the verdicts are equal
    * exactly when the counted facts are. */
  lemma SameFacts(a: seq<Episode>, b: seq<Episode>, now: int)
    requires StillOpen(a, now) == StillOpen(b, now)
    ensures Penalties(a, now) == Penalties(b, now) && TrivialCount(a, now) == TrivialCount(b, now) ==>
      Classify(a, now) == Classify(b, now)
    ensures Classify(a, now) == Classify(b, now) && !Classify(b, now).Quiet? ==>
      Penalties(a, now) == Penalties(b, now) && TrivialCount(a, now) == TrivialCount(b, now)
    ensures |Penalties(b, now)| > 0 || TrivialCount(b, now) >= TRIVIAL_PRESSURE_WARN_COUNT ==>
      !Classify(b, now).Quiet?
  {
  }

  lemma VerdictsDiffer(lost: seq<Episode>, kept: seq<Episode>, full: seq<Episode>, now: int)
    requires Penalties(full, now) == Penalties(lost, now) + Penalties(kept, now)
    requires TrivialCount(full, now) == TrivialCount(lost, now) + TrivialCount(kept, now)
    requires StillOpen(full, now) == StillOpen(kept, now)
    requires TrivialCount(lost, now) > 0 && Penalties(kept, now) == [] ==>
      TrivialCount(kept, now) >= TRIVIAL_PRESSURE_WARN_COUNT
    ensures Classify(kept, now) == Classify(full, now)
       <==> Penalties(lost, now) == [] && TrivialCount(lost, now) == 0
  {
    SameFacts(kept, full, now);
    if Penalties(lost, now) == [] {
      assert Penalties(full, now) == Penalties(kept, now);
    } else {
      assert |Penalties(full, now)| > |Penalties(kept, now)|;
    }
  }

  /** The bounded ledger gives the verdict of the unbounded history if and only if it has
    * lost no penalty of the last seven days and no nudge of the last 24 hours. */
  lemma VerdictExact(obs: seq<Observation>, now: int)
    requires InTimeOrder(obs) && obs != [] && obs[|obs| - 1].ts <= now
    ensures Classify(Ledger(obs), now) == Classify(History(obs), now)
       <==> Penalties(Lost(obs), now) == [] && TrivialCount(Lost(obs), now) == 0
  {
    var kept := Ledger(obs);
    HistoryDisjoint(obs);
    LedgerIsTail(obs);
    TailVerdictExact(kept, History(obs), obs[|obs| - 1].ts, now);
  }

  lemma TailVerdictExact(kept: seq<Episode>, full: seq<Episode>, t: int, now: int)
    requires Disjoint(full, t) && Tail(kept, full, t) && t <= now
    ensures var lost := full[..|full| - |kept|];
      Classify(kept, now) == Classify(full, now) <==> Penalties(lost, now) == [] && TrivialCount(lost, now) == 0
  {
    var lost := full[..|full| - |kept|];
    LostIsClosed(kept, full, t, now);
    PenaltiesConcat(lost, kept, now);
    TrivialConcat(lost, kept, now);
    OpenConcat(lost, kept, now);
    assert StillOpen(full, now) == StillOpen(kept, now);
    if TrivialCount(lost, now) > 0 && Penalties(kept, now) == [] {
      var i := SomeTrivial(lost, now);
      LostTrivialMeansFull(kept, full, t, now, i);
    }
    VerdictsDiffer(lost, kept, full, now);
  }

  /** With at most 400 episodes in the last seven days, bounding the ledger never changes
    * the verdict. */
  lemma BoundedVerdictSame(obs: seq<Observation>, now: int)
    requires InTimeOrder(obs) && obs != [] && obs[|obs| - 1].ts <= now
    requires |Since(History(obs), now - PENALTY_WINDOW_MS)| <= MAX_EPISODES
    ensures Classify(Ledger(obs), now) == Classify(History(obs), now)
  {
    HistoryDisjoint(obs);
    LedgerIsTail(obs);
    LostAreOld(Ledger(obs), History(obs), obs[|obs| - 1].ts, now);
    NoneRecent(Lost(obs), now);
    VerdictExact(obs, now);
  }

  lemma LostAreOld(kept: seq<Episode>, full: seq<Episode>, t: int, now: int)
    requires Disjoint(full, t) && Tail(kept, full, t) && t <= now
    requires |Since(full, now - PENALTY_WINDOW_MS)| <= MAX_EPISODES
    ensures forall i :: 0 <= i < |full| - |kept| ==> full[i].lastTs < now - PENALTY_WINDOW_MS
  {
    var n := |full| - |kept|;
    if n > 0 {
      SuffixRises(full, t, 0);
      assert full[0..] == full;
      SinceIsSuffix(full, now - PENALTY_WINDOW_MS);
      assert full[n - 1].lastTs < now - PENALTY_WINDOW_MS by {
        if |kept| == MAX_EPISODES {
          LastsRise(full, t, n - 1, |full| - |Since(full, now - PENALTY_WINDOW_MS)| - 1);
        }
      }
      forall i | 0 <= i < n
        ensures full[i].lastTs < now - PENALTY_WINDOW_MS
      {
        LastsRise(full, t, i, n - 1);
      }
    }
  }

  // --------------------------------------------------------- a verdict that is lost

  /** A ten-minute ban, and then `n` nudges 200 s apart. */
  function BanThenNudges(n: nat): seq<Observation> {
    if n == 0 then [Observation(0, 600.0)] else BanThenNudges(n - 1) + [Observation(600_000 + n * 200_000, 3.0)]
  }

  const BAN := Episode(0, 0, 600, 600_000, 1)

  function Nudge(n: nat): Episode {
    Episode(600_000 + n * 200_000, 600_000 + n * 200_000, 3, 603_000 + n * 200_000, 1)
  }

  function Nudges(n: nat): seq<Episode> {
    if n == 0 then [] else Nudges(n - 1) + [Nudge(n)]
  }

  lemma {:induction false} NudgesAre(n: nat)
    ensures |Nudges(n)| == n && forall i :: 0 <= i < n ==> Nudges(n)[i] == Nudge(i + 1)
  {
    if n > 0 {
      NudgesAre(n - 1);
    }
  }

  lemma {:induction false} BanThenNudgesShape(n: nat)
    ensures |BanThenNudges(n)| == n + 1 && InTimeOrder(BanThenNudges(n))
    ensures BanThenNudges(n)[n].ts == if n == 0 then 0 else 600_000 + n * 200_000
  {
    if n > 0 {
      BanThenNudgesShape(n - 1);
      assert BanThenNudges(n)[..n] == BanThenNudges(n - 1);
    }
  }

  /** None of them belongs to the episode before it. */
  lemma NudgeStarts(ep: Episode, n: nat)
    requires n >= 1 && ep == if n == 1 then BAN else Nudge(n - 1)
    ensures var obs := Observation(600_000 + n * 200_000, 3.0); !BelongsTo(ep, obs) && Started(obs) == Nudge(n)
  {
  }

  lemma FoldStarts(eps: seq<Episode>, obs: Observation)
    requires eps != [] && !BelongsTo(eps[|eps| - 1], obs)
    ensures Fold(eps, obs) == eps + [Started(obs)]
  {
  }

  lemma LastOfNudges(n: nat)
    ensures var eps := [BAN] + Nudges(n); eps[|eps| - 1] == if n == 0 then BAN else Nudge(n)
  {
    NudgesAre(n);
  }

  lemma {:induction false} HistoryOfNudges(n: nat)
    ensures History(BanThenNudges(n)) == [BAN] + Nudges(n)
  {
    BanThenNudgesShape(n);
    var obs := BanThenNudges(n);
    if n == 0 {
      assert obs[..0] == [];
      assert Started(obs[0]) == BAN;
    } else {
      HistoryOfNudges(n - 1);
      assert obs[..n] == BanThenNudges(n - 1);
      var before := [BAN] + Nudges(n - 1);
      LastOfNudges(n - 1);
      NudgeStarts(before[|before| - 1], n);
      FoldStarts(before, obs[n]);
      assert before + [Nudge(n)] == [BAN] + Nudges(n);
    }
  }

  lemma {:induction false} NudgesAreTrivial(eps: seq<Episode>, now: int)
    requires forall i :: 0 <= i < |eps| ==> eps[i].peakRetryAfterSec == 3
    ensures Penalties(eps, now) == []
  {
    if eps != [] {
      NudgesAreTrivial(eps[1..], now);
    }
  }

  /** After 400 nudges the bounded ledger holds the nudges alone. */
  lemma LedgerLosesBan()
    ensures Ledger(BanThenNudges(MAX_EPISODES)) == Nudges(MAX_EPISODES)
  {
    var n := MAX_EPISODES;
    var obs := BanThenNudges(n);
    BanThenNudgesShape(n);
    NudgesAre(n);
    HistoryOfNudges(n);
    LedgerIsTail(obs);
    LosesFirst(Ledger(obs), Nudges(n), obs[n].ts);
  }

  lemma LosesFirst(kept: seq<Episode>, rest: seq<Episode>, now: int)
    requires Tail(kept, [BAN] + rest, now) && |rest| == MAX_EPISODES && now < RETENTION_MS
    requires forall i :: 0 <= i < |rest| ==> rest[i].lastTs >= 0
    ensures kept == rest
  {
    var full := [BAN] + rest;
    assert full[|full| - |kept| - 1].lastTs >= 0;
    assert full[1..] == rest;
  }

  /** What the two lists come to once the last nudge is over. */
  lemma NudgesClassified(n: nat, now: int)
    requires n == MAX_EPISODES && now == 603_000 + n * 200_000
    ensures Classify(Nudges(n), now).Verdict? && Classify(Nudges(n), now).reason == TrivialPressure
    ensures Classify([BAN] + Nudges(n), now).Verdict? && Classify([BAN] + Nudges(n), now).reason == SeverePenalty
  {
    var eps := Nudges(n);
    NudgesAre(n);
    NudgesAreTrivial(eps, now);
    NoneOpen(eps, now);
    TrivialAtLeast(eps, now);
    assert ([BAN] + eps)[0] == BAN && ([BAN] + eps)[1..] == eps;
  }

  /** An outage is lost from the verdict: the history says a severe penalty, the bounded
    * ledger a mere pressure of nudges. */
  lemma VerdictLost()
    ensures var obs := BanThenNudges(MAX_EPISODES); var now := 603_000 + MAX_EPISODES * 200_000;
      && obs[|obs| - 1].ts <= now
      && Classify(History(obs), now).Verdict? && Classify(History(obs), now).reason == SeverePenalty
      && Classify(Ledger(obs), now).Verdict? && Classify(Ledger(obs), now).reason == TrivialPressure
  {
    BanThenNudgesShape(MAX_EPISODES);
    HistoryOfNudges(MAX_EPISODES);
    LedgerLosesBan();
    NudgesClassified(MAX_EPISODES, 603_000 + MAX_EPISODES * 200_000);
  }
}
