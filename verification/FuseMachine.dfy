/** The fuse as the source runs it: timestamp lists pruned and spliced in place, a lazily
  * decayed tighten level, in-flight counters and the give-back list each call carries.
  * Every method is one stretch of code between two awaits and is proved to take exactly
  * the protocol's step. */
module FuseMachine {
  import opened FuseCeilings
  import opened FuseLog
  import opened FuseProtocol
  import opened FuseRuns
  import opened FuseWindows

  type Counters = map<(int, int), nat>

  function Count(inflight: Counters, m: (int, int)): nat {
    if m in inflight then inflight[m] else 0
  }

  ghost predicate CountersMatch(inflight: Counters, s: State) {
    forall chat, msg :: Count(inflight, (chat, msg)) == |InFlight(s, chat, msg)|
  }

  /** The give-back list of a call names exactly the returnable slots it holds. */
  ghost predicate ReceiptsOf(log: seq<Reservation>, id: nat, c: Call, list: Receipts) {
    && DistinctKeys(list)
    && (forall key :: Own(log, id, key) == Receipt(list, key))
    && (c.stage == MessageTier || !c.kind.Edit? ==> list == [])
    && (c.stage == ChatTier ==> forall i :: 0 <= i < |list| ==> list[i].0.KMessage?)
  }

  ghost predicate Holding(c: Call) {
    c.stage in {MessageTier, ChatTier, SendTier, TotalTier}
  }

  ghost predicate ReceiptsMatch(receipts: map<nat, Receipts>, s: State) {
    && (forall id, key :: id !in s.calls ==> Own(s.log, id, key) == [])
    && (forall id :: id in s.calls && Holding(s.calls[id]) ==>
          id in receipts && ReceiptsOf(s.log, id, s.calls[id], receipts[id]))
  }

  // ------------------------------------------------------- bookkeeping lemmas

  /** The lanes a call can take at its tier. */
  ghost predicate LaneFits(c: Call, lane: Lane) {
    && Chargeable(lane)
    && (c.stage == MessageTier ==> lane.Single? && lane.key.KMessage?)
    && (c.stage == ChatTier ==> (lane.Single? ==> !lane.key.KMessage?))
    && (c.stage != MessageTier && c.stage != ChatTier ==> !Returnable(lane))
  }

  function ReceiptsFor(lane: Lane, at: int): Receipts {
    match lane
    case Single(key) => if Returnable(lane) then [(key, at)] else []
    case Floor(chat, msg) => [(KFloorOf(chat, msg), at), (KFloorAll(chat), at)]
  }

  lemma {:induction false} ReceiptAppend(list: Receipts, more: Receipts, key: Key)
    ensures Receipt(list + more, key) == Receipt(list, key) + Receipt(more, key)
  {
    if more == [] {
      assert list + more == list;
    } else {
      var n := |more| - 1;
      ReceiptAppend(list, more[..n], key);
      assert (list + more)[..|list| + n] == list + more[..n];
    }
  }

  lemma ReceiptsForLane(lane: Lane, at: int, key: Key)
    requires Chargeable(lane)
    ensures Receipt(ReceiptsFor(lane, at), key) == if Returnable(lane) && Charges(lane, key) then [at] else []
  {
    match lane
    case Single(k) =>
    case Floor(chat, msg) =>
      var one := [(KFloorOf(chat, msg), at)];
      assert ReceiptsFor(lane, at)[..1] == one;
      assert one[..0] == [];
      assert Receipt(one, key) == if key == KFloorOf(chat, msg) then [at] else [];
  }

  lemma TakeReceipts(log: seq<Reservation>, id: nat, c: Call, list: Receipts, r: Reservation)
    requires ReceiptsOf(log, id, c, list) && LaneFits(c, r.lane) && r.owner == id && WellStaged(c) && Holding(c)
    ensures ReceiptsOf(log + [r], id, c.(stage := NextStage(c.stage)), list + ReceiptsFor(r.lane, r.at))
  {
    var more := ReceiptsFor(r.lane, r.at);
    forall key
      ensures Own(log + [r], id, key) == Receipt(list + more, key)
    {
      OwnAppend(log, r, id, key);
      ReceiptAppend(list, more, key);
      ReceiptsForLane(r.lane, r.at, key);
    }
    assert !c.kind.Edit? ==> list + more == [];
    assert c.stage == MessageTier ==> list + more == more;
  }

  /** A reservation that is not this call's, or not returnable, leaves its list right. */
  lemma KeepReceipts(log: seq<Reservation>, id: nat, c: Call, list: Receipts, r: Reservation)
    requires ReceiptsOf(log, id, c, list) && (r.owner != id || !Returnable(r.lane))
    ensures ReceiptsOf(log + [r], id, c, list)
  {
    forall key
      ensures Own(log + [r], id, key) == Receipt(list, key)
    {
      OwnAppend(log, r, id, key);
    }
  }

  /** The list depends on a call's kind and stage alone. */
  lemma SameReceipts(log: seq<Reservation>, id: nat, c: Call, d: Call, list: Receipts)
    requires ReceiptsOf(log, id, c, list) && d.kind == c.kind && d.stage == c.stage
    ensures ReceiptsOf(log, id, d, list)
  {
  }

  lemma AdvanceReceipts(receipts: map<nat, Receipts>, s: State, id: nat, r: Reservation)
    requires ReceiptsMatch(receipts, s) && id in s.calls && WellStaged(s.calls[id]) && r.owner == id
    requires LaneFits(s.calls[id], r.lane)
    ensures ReceiptsMatch(
      if id in receipts then receipts[id := receipts[id] + ReceiptsFor(r.lane, r.at)] else receipts,
      Advance(s, id, s.log + [r]))
  {
    var t := Advance(s, id, s.log + [r]);
    assert t.calls[id].kind == s.calls[id].kind && t.calls[id].stage == NextStage(s.calls[id].stage);
    forall x, key | x !in t.calls
      ensures Own(t.log, x, key) == []
    {
      OwnAppend(s.log, r, x, key);
    }
    forall x | x in t.calls && Holding(t.calls[x])
      ensures x in receipts
      ensures ReceiptsOf(t.log, x, t.calls[x],
                         if x == id then receipts[x] + ReceiptsFor(r.lane, r.at) else receipts[x])
    {
      if x == id {
        TakeReceipts(s.log, id, s.calls[id], receipts[id], r);
        SameReceipts(t.log, id, s.calls[id].(stage := NextStage(s.calls[id].stage)), t.calls[id],
                     receipts[id] + ReceiptsFor(r.lane, r.at));
      } else {
        KeepReceipts(s.log, x, s.calls[x], receipts[x], r);
      }
    }
  }

  lemma PayReceipts(receipts: map<nat, Receipts>, s: State, r: Reservation)
    requires ReceiptsMatch(receipts, s) && !Returnable(r.lane)
    ensures ReceiptsMatch(receipts, s.(log := s.log + [r]))
  {
    forall x, key | x !in s.calls
      ensures Own(s.log + [r], x, key) == []
    {
      OwnAppend(s.log, r, x, key);
    }
    forall x | x in s.calls && Holding(s.calls[x])
      ensures ReceiptsOf(s.log + [r], x, s.calls[x], receipts[x])
    {
      KeepReceipts(s.log, x, s.calls[x], receipts[x], r);
    }
  }

  lemma GoneReceipts(receipts: map<nat, Receipts>, s: State, id: nat)
    requires ReceiptsMatch(receipts, s) && id in s.calls
    ensures ReceiptsMatch(receipts, Gone(s, id))
  {
    forall x, key | x != id
      ensures Own(Gone(s, id).log, x, key) == Own(s.log, x, key)
    {
      OwnAfterGiveBack(s.log, id, x, key);
    }
  }

  /** A call that changes, but keeps its kind, changes at most its own message's frames. */
  lemma ChangeInFlight(s: State, t: State, id: nat, d: Call, chat: int, msg: int)
    requires id in s.calls && t.calls == s.calls[id := d] && d.kind == s.calls[id].kind
    requires d.counted ==> s.calls[id].counted
    ensures InFlight(t, chat, msg)
         == if s.calls[id].counted && !d.counted && d.kind == Edit(chat, msg)
            then InFlight(s, chat, msg) - {id} else InFlight(s, chat, msg)
  {
  }

  function Departed(inflight: Counters, m: (int, int)): Counters {
    var n := Count(inflight, m);
    inflight[m := if n > 0 then n - 1 else 0]
  }

  /** The counts after a call, counted or not before, is `still` counted or no more. */
  function Left(inflight: Counters, c: Call, still: bool): Counters
    requires c.counted ==> c.kind.Edit?
  {
    if c.counted && !still then Departed(inflight, (c.kind.chat, c.kind.msg)) else inflight
  }

  lemma ChangeCounters(inflight: Counters, s: State, t: State, id: nat, d: Call)
    requires CountersMatch(inflight, s) && id in s.calls && (s.calls[id].counted ==> s.calls[id].kind.Edit?)
    requires t.calls == s.calls[id := d] && d.kind == s.calls[id].kind && (d.counted ==> s.calls[id].counted)
    ensures CountersMatch(Left(inflight, s.calls[id], d.counted), t)
  {
    var c := s.calls[id];
    var leaves := c.counted && !d.counted;
    if leaves {
      assert id in InFlight(s, c.kind.chat, c.kind.msg);
    }
    forall chat, msg
      ensures |InFlight(t, chat, msg)|
           == Count(inflight, (chat, msg)) - if leaves && c.kind == Edit(chat, msg) then 1 else 0
    {
      assert Count(inflight, (chat, msg)) == |InFlight(s, chat, msg)|;
      ChangeInFlight(s, t, id, d, chat, msg);
    }
  }

  /** The calls keep their kind, their stage and whether they count. */
  ghost predicate SameFrames(s: State, t: State) {
    && t.calls.Keys == s.calls.Keys
    && forall x :: x in s.calls ==>
         && t.calls[x].kind == s.calls[x].kind && t.calls[x].stage == s.calls[x].stage
         && t.calls[x].counted == s.calls[x].counted
  }

  lemma SameInFlight(s: State, t: State, chat: int, msg: int)
    requires SameFrames(s, t)
    ensures InFlight(t, chat, msg) == InFlight(s, chat, msg)
  {
  }

  lemma SameBooks(inflight: Counters, receipts: map<nat, Receipts>, s: State, t: State)
    requires CountersMatch(inflight, s) && ReceiptsMatch(receipts, s)
    requires SameFrames(s, t) && t.log == s.log
    ensures CountersMatch(inflight, t) && ReceiptsMatch(receipts, t)
  {
    forall chat, msg
      ensures Count(inflight, (chat, msg)) == |InFlight(t, chat, msg)|
    {
      SameInFlight(s, t, chat, msg);
    }
    forall x | x in t.calls && Holding(t.calls[x])
      ensures x in receipts && ReceiptsOf(t.log, x, t.calls[x], receipts[x])
    {
      assert Holding(s.calls[x]);
    }
  }

  lemma PayCounters(inflight: Counters, s: State, r: Reservation)
    requires CountersMatch(inflight, s)
    ensures CountersMatch(inflight, s.(log := s.log + [r]))
  {
    forall chat, msg
      ensures Count(inflight, (chat, msg)) == |InFlight(s.(log := s.log + [r]), chat, msg)|
    {
      SameInFlight(s, s.(log := s.log + [r]), chat, msg);
    }
  }

  lemma ArriveInFlight(s: State, t: State, id: nat, c: Call, chat: int, msg: int)
    requires id !in s.calls && t.calls == s.calls[id := c] && c.counted == c.kind.Edit?
    ensures InFlight(t, chat, msg)
         == if c.kind == Edit(chat, msg) then InFlight(s, chat, msg) + {id} else InFlight(s, chat, msg)
  {
  }

  function Joined(inflight: Counters, m: (int, int)): Counters {
    inflight[m := Count(inflight, m) + 1]
  }

  lemma ArriveBooks(inflight: Counters, receipts: map<nat, Receipts>, s: State, t: State, id: nat, c: Call)
    requires CountersMatch(inflight, s) && ReceiptsMatch(receipts, s)
    requires id !in s.calls && t.calls == s.calls[id := c] && t.log == s.log && c.stage == FirstStage(c.kind)
    requires c.counted == c.kind.Edit?
    ensures CountersMatch(if c.kind.Edit? then Joined(inflight, (c.kind.chat, c.kind.msg)) else inflight, t)
    ensures ReceiptsMatch(receipts[id := []], t)
  {
    forall chat, msg
      ensures |InFlight(t, chat, msg)| == Count(inflight, (chat, msg)) + if c.kind == Edit(chat, msg) then 1 else 0
    {
      assert Count(inflight, (chat, msg)) == |InFlight(s, chat, msg)|;
      ArriveInFlight(s, t, id, c, chat, msg);
    }
    forall x | x in t.calls && Holding(t.calls[x])
      ensures x in receipts[id := []] && ReceiptsOf(t.log, x, t.calls[x], receipts[id := []][x])
    {
      if x == id {
        assert forall key :: Own(s.log, id, key) == [] == Receipt([], key);
      } else {
        assert Holding(s.calls[x]);
      }
    }
  }

  /** The concrete bookkeeping says what the protocol state says. */
  ghost predicate Books(cfg: Config, windows: Table, inflight: Counters, receipts: map<nat, Receipts>, s: State) {
    && TableShows(cfg, windows, s.log, s.now)
    && CountersMatch(inflight, s)
    && ReceiptsMatch(receipts, s)
  }

  function Filed(receipts: map<nat, Receipts>, id: nat, lane: Lane, at: int): map<nat, Receipts> {
    if id in receipts then receipts[id := receipts[id] + ReceiptsFor(lane, at)] else receipts
  }

  lemma OutcomeFits(cfg: Config, s: State, c: Call, level: nat, cap: nat)
    requires cfg.Valid() && WellStaged(c) && Active(c)
    ensures var o := Try(cfg, s, c, level, cap);
      && (o.Admit? || o.Release? || o.ReleasePaid? ==> LaneFits(c, o.lane))
      && (o.ReleasePaid? ==> c.kind.Edit?)
      && (o.Deny? ==> Holding(c))
  {
  }

  lemma TakeBooks(cfg: Config, windows: Table, inflight: Counters, receipts: map<nat, Receipts>, s: State,
                  id: nat, r: Reservation)
    requires Books(cfg, windows, inflight, receipts, s) && id in s.calls && WellStaged(s.calls[id])
    requires Active(s.calls[id]) && LaneFits(s.calls[id], r.lane) && r.owner == id && r.at == s.now
    ensures Books(cfg, Charged(windows, r.lane, r.at), Left(inflight, s.calls[id], StillCounted(s.calls[id])),
                  Filed(receipts, id, r.lane, r.at), Advance(s, id, s.log + [r]))
  {
    var t := Advance(s, id, s.log + [r]);
    TablePush(cfg, windows, s.log, r);
    AdvanceReceipts(receipts, s, id, r);
    ChangeCounters(inflight, s, t, id, t.calls[id]);
  }

  lemma PayBooks(cfg: Config, windows: Table, inflight: Counters, receipts: map<nat, Receipts>, s: State,
                 r: Reservation)
    requires Books(cfg, windows, inflight, receipts, s) && r.lane.Single? && r.lane.key.KLate? && r.at == s.now
    ensures Books(cfg, Charged(windows, r.lane, r.at), inflight, receipts, s.(log := s.log + [r]))
  {
    TablePush(cfg, windows, s.log, r);
    PayReceipts(receipts, s, r);
    PayCounters(inflight, s, r);
  }

  lemma {:induction false} WithoutLastAt(ts: seq<int>, at: int, i: nat)
    requires i < |ts| && ts[i] == at && forall k :: i < k < |ts| ==> ts[k] != at
    ensures Without(ts, at) == ts[..i] + ts[i + 1..]
  {
    var n := |ts| - 1;
    if i < n {
      var front := ts[..n];
      WithoutLastAt(front, at, i);
      assert front[..i] == ts[..i] && front[i + 1..] + [ts[n]] == ts[i + 1..];
    }
  }

  method WithoutLast(ts: seq<int>, at: int) returns (r: seq<int>)
    ensures r == Without(ts, at)
  {
    var i := |ts| - 1;
    while i >= 0 && ts[i] != at
      invariant -1 <= i < |ts| && forall k :: i < k < |ts| ==> ts[k] != at
      decreases i
    {
      i := i - 1;
    }
    if i >= 0 {
      WithoutLastAt(ts, at, i);
      r := ts[..i] + ts[i + 1..];
    } else {
      WithoutAbsent(ts, at);
      r := ts;
    }
  }

  lemma SplicedOne(windows: Table, key: Key, at: int)
    ensures Spliced(windows, [(key, at)])
         == if key in windows then windows[key := Without(windows[key], at)] else windows
  {
    assert [(key, at)][..0] == [];
  }

  /** `apply` resumes after a drop. */
  lemma GoneBooks(cfg: Config, windows: Table, inflight: Counters, receipts: map<nat, Receipts>, s: State, id: nat)
    requires Books(cfg, windows, inflight, receipts, s) && Chronological(s.log, s.now)
    requires id in s.calls && WellStaged(s.calls[id]) && Holding(s.calls[id])
    ensures id in receipts
    ensures Books(cfg, if s.calls[id].rest.Denied? then Spliced(windows, receipts[id]) else windows,
                  Left(inflight, s.calls[id], false), receipts, Gone(s, id))
  {
    assert ReceiptsOf(s.log, id, s.calls[id], receipts[id]);
    if s.calls[id].rest.Denied? {
      TableGiveBack(cfg, windows, s.log, s.now, id, receipts[id]);
    }
    GoneReceipts(receipts, s, id);
    ChangeCounters(inflight, s, Gone(s, id), id, Gone(s, id).calls[id]);
  }

  /** Sleeping changes no list; at the token tier the call leaves the count. */
  lemma SleepBooks(cfg: Config, windows: Table, inflight: Counters, receipts: map<nat, Receipts>, s: State,
                   id: nat, ms: nat)
    requires Books(cfg, windows, inflight, receipts, s) && id in s.calls && WellStaged(s.calls[id])
    ensures Books(cfg, windows, Left(inflight, s.calls[id], StillCounted(s.calls[id])), receipts, Sleep(s, id, ms))
  {
    var c := s.calls[id];
    var m := s.(calls := s.calls[id := c.(counted := StillCounted(c))]);
    ChangeCounters(inflight, s, m, id, m.calls[id]);
    assert ReceiptsMatch(receipts, m) by {
      forall x | x in m.calls && Holding(m.calls[x])
        ensures x in receipts && ReceiptsOf(m.log, x, m.calls[x], receipts[x])
      {
        assert Holding(s.calls[x]);
        SameReceipts(s.log, x, s.calls[x], m.calls[x], receipts[x]);
      }
    }
    SameBooks(Left(inflight, c, StillCounted(c)), receipts, m, Sleep(s, id, ms));
  }

  lemma RefuseBooks(cfg: Config, windows: Table, inflight: Counters, receipts: map<nat, Receipts>, s: State, id: nat)
    requires Books(cfg, windows, inflight, receipts, s) && id in s.calls
    ensures Books(cfg, windows, inflight, receipts, s.(calls := s.calls[id := s.calls[id].(rest := Denied)]))
  {
    SameBooks(inflight, receipts, s, s.(calls := s.calls[id := s.calls[id].(rest := Denied)]));
  }

  // -------------------------------------------------------------- the machine

  class EditFloodFuse {
    const cfg: Config
    var now: int
    var windows: Table
    var tightenLevel: nat
    var tightenedUntil: int
    var inflight: Counters
    var waiter: map<(int, int), nat>
    var calls: map<nat, Call>
    var receipts: map<nat, Receipts>
    ghost var log: seq<Reservation>

    ghost function Abs(): State
      reads this
    {
      State(now, log, calls, waiter)
    }

    ghost function Tightening(): Tighten
      reads this
    {
      Tighten(tightenLevel, tightenedUntil)
    }

    ghost predicate Faithful()
      reads this
    {
      Books(cfg, windows, inflight, receipts, Abs())
    }

    ghost predicate Valid()
      reads this
    {
      cfg.Valid() && Inv(cfg, Abs()) && Faithful() && tightenLevel <= cfg.maxTightenLevel
    }

    constructor (cfg: Config, start: int)
      requires cfg.Valid()
      ensures Valid() && this.cfg == cfg && Abs() == Init(start) && Tightening() == Tighten(0, 0)
    {
      this.cfg := cfg;
      now := start;
      windows, tightenLevel, tightenedUntil := map[], 0, 0;
      inflight, waiter, calls, receipts, log := map[], map[], map[], map[], [];
      new;
      InitInv(cfg, start);
      assert forall chat, msg :: InFlight(Abs(), chat, msg) == {};
    }

    // ------------------------------------------------------- tighten level

    /** Decay one level per `tightenMs` of quiet; a persisted flood window with
      * `remainingMs` left can only raise the answer. */
    method LevelAt(remainingMs: nat) returns (level: nat)
      requires tightenLevel <= cfg.maxTightenLevel
      modifies this`tightenLevel, this`tightenedUntil
      ensures Tightening() == Decay(old(Tightening()), now, cfg.tightenMs)
      ensures level == EffectiveLevel(cfg, old(Tightening()), now, remainingMs) <= cfg.maxTightenLevel
      ensures tightenLevel <= old(tightenLevel)
    {
      EffectiveLevelBounded(cfg, Tightening(), now, remainingMs);
      while tightenLevel > 0 && tightenedUntil <= now
        invariant Decay(Tightening(), now, cfg.tightenMs) == Decay(old(Tightening()), now, cfg.tightenMs)
        invariant tightenLevel <= old(tightenLevel)
        decreases tightenLevel
      {
        tightenLevel := tightenLevel - 1;
        tightenedUntil := if tightenLevel > 0 then tightenedUntil + cfg.tightenMs else 0;
      }
      level := if remainingMs > 0
               then Max(tightenLevel, Min(cfg.maxTightenLevel, StepForMs(cfg, remainingMs))) else tightenLevel;
    }

    method NoteFlood(retryAfterSec: int)
      requires Valid()
      modifies this`tightenLevel, this`tightenedUntil
      ensures Valid() && Abs() == old(Abs())
      ensures Tightening() == Flooded(cfg, old(Tightening()), now, retryAfterSec)
    {
      var _ := LevelAt(0);
      tightenLevel := Min(cfg.maxTightenLevel, tightenLevel + TightenStep(cfg, retryAfterSec));
      tightenedUntil := now + if retryAfterSec >= 0 then retryAfterSec * 1000 + cfg.tightenMs else cfg.tightenMs;
    }

    // -------------------------------------------------------------- windows

    method Prune(key: Key)
      requires TableShows(cfg, windows, log, now)
      modifies this`windows
      ensures TableShows(cfg, windows, log, now)
      ensures Slots(windows, key) == Live(log, key, now - Width(cfg, key))
    {
      var cut := now - Width(cfg, key);
      var ts := Slots(windows, key);
      while |ts| > 0 && ts[0] <= cut
        invariant Pruned(ts, cut) == Pruned(Slots(windows, key), cut)
        decreases |ts|
      {
        ts := ts[1..];
      }
      TablePrune(cfg, windows, log, now, key);
      assert Shows(Slots(windows, key), log, key, now, Width(cfg, key));
      windows := windows[key := ts];
    }

    /** Milliseconds until `key` has room for one more of `max`. */
    method WaitFor(key: Key, max: nat) returns (wait: nat)
      requires TableShows(cfg, windows, log, now)
      modifies this`windows
      ensures TableShows(cfg, windows, log, now)
      ensures wait == Wait(cfg, Abs(), key, max)
    {
      Prune(key);
      var ts, width := Slots(windows, key), Width(cfg, key);
      if max == 0 {
        wait := if |ts| > 0 then (if ts[0] + width - now >= 1 then ts[0] + width - now else 1) else Max(1, width);
      } else if |ts| < max {
        wait := 0;
      } else {
        wait := if ts[0] + width - now >= 1 then ts[0] + width - now else 1;
      }
    }

    /** Give one slot back: splice out the last entry equal to `at`. */
    method Unreserve(key: Key, at: int)
      modifies this`windows
      ensures windows == old(Spliced(windows, [(key, at)]))
    {
      SplicedOne(windows, key, at);
      if key in windows {
        var ts := WithoutLast(windows[key], at);
        windows := windows[key := ts];
      }
    }

    // --------------------------------------------- endings of one iteration

    /** Reserve a slot of `lane` and move on to the next tier. */
    method Take(id: nat, lane: Lane, late: bool, level: nat)
      requires Faithful() && id in calls && WellStaged(calls[id]) && Active(calls[id]) && LaneFits(calls[id], lane)
      modifies this`windows, this`log, this`receipts, this`calls, this`inflight
      ensures Faithful()
      ensures Abs() == Advance(old(Abs()), id, old(log) + [Taken(old(Abs()), id, lane, late, level)])
    {
      var c := calls[id];
      ghost var r := Taken(Abs(), id, lane, late, level);
      TakeBooks(cfg, windows, inflight, receipts, Abs(), id, r);
      windows := Charged(windows, lane, now);
      receipts := Filed(receipts, id, lane, now);
      inflight := Left(inflight, c, StillCounted(c));
      calls := calls[id := c.(stage := NextStage(c.stage), counted := StillCounted(c))];
      log := log + [r];
    }

    /** Charge a late release to the chat's overshoot budget. */
    method PayLate(id: nat, chat: int, level: nat)
      requires Faithful() && id in calls
      modifies this`windows, this`log
      ensures Faithful()
      ensures Abs() == old(Abs()).(log := old(log) + [Taken(old(Abs()), id, Single(KLate(chat)), true, level)])
    {
      ghost var r := Taken(Abs(), id, Single(KLate(chat)), true, level);
      PayBooks(cfg, windows, inflight, receipts, Abs(), r);
      windows := Pushed(windows, KLate(chat), now);
      log := log + [r];
    }

    /** The tier denies the call: the wait loop returns, and `apply` is yet to resume. */
    method Refuse(id: nat)
      requires Faithful() && id in calls
      modifies this`calls
      ensures Faithful() && Abs() == old(Abs()).(calls := old(calls)[id := old(calls)[id].(rest := Denied)])
    {
      RefuseBooks(cfg, windows, inflight, receipts, Abs(), id);
      calls := calls[id := calls[id].(rest := Denied)];
    }

    /** A denied call hands back every slot it reserved on the way. */
    method HandBack(id: nat)
      requires id in calls && id in receipts
      modifies this`windows, this`log
      ensures windows == if calls[id].rest.Denied? then old(Spliced(windows, receipts[id])) else old(windows)
      ensures log == if calls[id].rest.Denied? then GiveBack(old(log), id) else old(log)
    {
      if calls[id].rest.Denied? {
        GiveBackAll(receipts[id]);
        log := GiveBack(log, id);
      }
    }

    method GiveBackAll(list: Receipts)
      modifies this`windows
      ensures windows == old(Spliced(windows, list))
    {
      ghost var table := windows;
      for i := 0 to |list|
        invariant windows == Spliced(table, list[..i])
      {
        assert list[..i + 1][..i] == list[..i];
        assert [list[i]][..0] == [];
        Unreserve(list[i].0, list[i].1);
      }
      assert list[..|list|] == list;
    }

    /** Go to sleep; at the message tier the frame already waiting there is superseded. */
    method GoToSleep(id: nat, ms: nat)
      requires Faithful() && id in calls && WellStaged(calls[id])
      modifies this`calls, this`waiter, this`inflight
      ensures Faithful() && Abs() == Sleep(old(Abs()), id, ms)
    {
      SleepBooks(cfg, windows, inflight, receipts, Abs(), id, ms);
      var c := calls[id];
      inflight := Left(inflight, c, StillCounted(c));
      if c.stage == MessageTier {
        var m := (c.kind.chat, c.kind.msg);
        if m in waiter && waiter[m] in calls && waiter[m] != id {
          calls := calls[waiter[m] := calls[waiter[m]].(rest := Killed)];
        }
        waiter := waiter[m := id];
      }
      calls := calls[id := c.(rest := Asleep(now + ms), naps := c.naps + 1, counted := StillCounted(c))];
    }

    // ------------------------------------------------------------ the steps

    /** Whether the chat's overshoot budget is used up. */
    method OvershootSpent(chat: int, level: nat) returns (spent: bool)
      requires cfg.Valid() && TableShows(cfg, windows, log, now)
      modifies this`windows
      ensures TableShows(cfg, windows, log, now)
      ensures spent == LateBudgetSpent(cfg, Abs(), chat, level)
    {
      Prune(KLate(chat));
      spent := |Slots(windows, KLate(chat))| >= Ceiling(cfg, cfg.lateReleaseMax, level);
    }

    /** One iteration of the wait loop of a tier with a single window. */
    method AwaitRoom(c: Call, level: nat, cap: nat) returns (o: Outcome)
      requires cfg.Valid() && TableShows(cfg, windows, log, now) && CountersMatch(inflight, Abs())
      requires WellStaged(c) && Active(c) && !Fair(cfg, c)
      modifies this`windows
      ensures TableShows(cfg, windows, log, now)
      ensures o == Try(cfg, Abs(), c, level, cap)
    {
      var key := TierKey(c);
      var wait := WaitFor(key, TierMax(cfg, c, level));
      if wait == 0 {
        return Admit(Single(key));
      }
      if now < Deadline(cfg, c) {
        return Nap(Min(wait, Min(Deadline(cfg, c) - now, cap)));
      }
      if Sheds(c) {
        if !c.kind.Edit? || Count(inflight, (c.kind.chat, c.kind.msg)) > 1 {
          return Deny;
        }
      }
      if !PaysForLateness(c) {
        return Release(Single(key));
      }
      var spent := OvershootSpent(c.kind.chat, level);
      o := if spent then Deny else ReleasePaid(Single(key));
    }

    /** One iteration of the fair admission to the chat's cosmetic pool: the message's own
      * floor first, then the shared remainder. */
    method AwaitCosmeticChatFair(c: Call, level: nat, cap: nat) returns (o: Outcome)
      requires cfg.Valid() && TableShows(cfg, windows, log, now) && CountersMatch(inflight, Abs())
      requires WellStaged(c) && Active(c) && Fair(cfg, c)
      modifies this`windows
      ensures TableShows(cfg, windows, log, now)
      ensures o == Try(cfg, Abs(), c, level, cap)
    {
      var chat, msg := c.kind.chat, c.kind.msg;
      var ownWait := WaitFor(KFloorOf(chat, msg), cfg.FloorPerWindow());
      var allWait := WaitFor(KFloorAll(chat), cfg.FloorAggMax());
      var floorWait := Max(ownWait, allWait);
      var spareWait := WaitFor(KRemainder(chat), RemainderCap(cfg, level));
      if floorWait == 0 {
        return Admit(Floor(chat, msg));
      }
      if RemainderCap(cfg, level) > 0 && spareWait == 0 {
        return Admit(Single(KRemainder(chat)));
      }
      if now < Deadline(cfg, c) {
        return Nap(Min(Min(floorWait, spareWait), Min(Deadline(cfg, c) - now, cap)));
      }
      if Count(inflight, (chat, msg)) > 1 {
        return Deny;
      }
      var spent := OvershootSpent(chat, level);
      o := if spent then Deny
           else if cfg.RemainderMax() > 0 then ReleasePaid(Single(KRemainder(chat)))
           else ReleasePaid(Floor(chat, msg));
    }

    /** Act on what an iteration decided. */
    method Carry(id: nat, o: Outcome, level: nat)
      requires Faithful() && Shape(Abs()) && Chronological(log, now)
      requires id in calls && Active(calls[id])
      requires o.Admit? || o.Release? || o.ReleasePaid? ==> LaneFits(calls[id], o.lane)
      requires o.ReleasePaid? ==> calls[id].kind.Edit?
      modifies this`windows, this`log, this`receipts, this`calls, this`inflight, this`waiter
      ensures Faithful() && Abs() == Carried(old(Abs()), id, o, level)
    {
      assert WellStaged(calls[id]);
      match o
      case Admit(lane) => Take(id, lane, false, level);
      case Release(lane) => Take(id, lane, true, level);
      case ReleasePaid(lane) =>
        PayLate(id, calls[id].kind.chat, level);
        Take(id, lane, true, level);
      case Deny => Refuse(id);
      case Nap(ms) => GoToSleep(id, ms);
    }

    /** Run a call up to its next await, at the tighten level now in force. */
    method Run(id: nat, remainingMs: nat, cap: nat) returns (level: nat)
      requires Valid() && id in calls && Active(calls[id]) && calls[id].rest.Runnable? && cap >= 1
      modifies this
      ensures level == EffectiveLevel(cfg, old(Tightening()), now, remainingMs) <= cfg.maxTightenLevel
      ensures Valid() && Abs() == Next(cfg, old(Abs()), Attempt(id, level, cap))
    {
      ghost var s := Abs();
      level := LevelAt(remainingMs);
      var c := calls[id];
      assert WellStaged(c);
      var o;
      if Fair(cfg, c) {
        o := AwaitCosmeticChatFair(c, level, cap);
      } else {
        o := AwaitRoom(c, level, cap);
      }
      OutcomeFits(cfg, s, c, level, cap);
      Carry(id, o, level);
      StepKeepsInv(cfg, s, Attempt(id, level, cap));
    }

    /** A call enters the fuse; edits are counted in flight before their first await. */
    method Apply(id: nat, kind: Kind, cls: OutboundClass)
      requires Valid() && id !in calls
      modifies this`calls, this`inflight, this`receipts
      ensures Valid() && Abs() == Next(cfg, old(Abs()), Arrive(id, kind, cls))
    {
      ghost var s := Abs();
      var c := Call(kind, cls, now, FirstStage(kind), Runnable, 0, kind.Edit?);
      ArriveBooks(inflight, receipts, s, Next(cfg, s, Arrive(id, kind, cls)), id, c);
      StepKeepsInv(cfg, s, Arrive(id, kind, cls));
      calls := calls[id := c];
      receipts := receipts[id := []];
      if kind.Edit? {
        inflight := Joined(inflight, (kind.chat, kind.msg));
      }
    }

    /** A sleeper's timer fires. */
    method TimerFired(id: nat)
      requires Valid() && Enabled(cfg, Abs(), Wake(id))
      modifies this`calls, this`waiter
      ensures Valid() && Abs() == Next(cfg, old(Abs()), Wake(id))
    {
      ghost var s := Abs();
      SameBooks(inflight, receipts, s, Next(cfg, s, Wake(id)));
      StepKeepsInv(cfg, s, Wake(id));
      var c := calls[id];
      assert WellStaged(c);
      if c.stage == MessageTier {
        waiter := waiter - {(c.kind.chat, c.kind.msg)};
      }
      calls := calls[id := c.(rest := Runnable)];
    }

    /** The call leaves: a denied one hands its slots back, and it is counted no more. */
    method Leave(id: nat)
      requires Faithful() && Chronological(log, now) && id in calls && WellStaged(calls[id]) && Holding(calls[id])
      modifies this`windows, this`log, this`calls, this`inflight
      ensures Faithful() && Abs() == Gone(old(Abs()), id)
    {
      var c := calls[id];
      GoneBooks(cfg, windows, inflight, receipts, Abs(), id);
      HandBack(id);
      inflight := Left(inflight, c, false);
      calls := calls[id := c.(stage := Dropped, counted := false)];
    }

    /** `apply` resumes after its call was superseded or denied. */
    method ResumeDropped(id: nat)
      requires Valid() && Enabled(cfg, Abs(), Resume(id))
      modifies this`windows, this`log, this`calls, this`inflight
      ensures Valid() && Abs() == Next(cfg, old(Abs()), Resume(id))
    {
      assert WellStaged(calls[id]);
      StepKeepsInv(cfg, Abs(), Resume(id));
      Leave(id);
    }

    method ClockAdvances(ms: nat)
      requires Valid()
      modifies this`now
      ensures Valid() && Abs() == Next(cfg, old(Abs()), Tick(ms))
    {
      TableTick(cfg, windows, log, now, now + ms);
      SameBooks(inflight, receipts, Abs(), Next(cfg, Abs(), Tick(ms)));
      StepKeepsInv(cfg, Abs(), Tick(ms));
      now := now + ms;
    }

    /** Evict a key whose newest slot is older than the widest message or chat window. It is
      * not observable if the key's own window is no wider; a wider token window can lose
      * live slots. */
    method Evict(key: Key)
      requires Valid()
      requires key in windows && windows[key] != [] ==>
        windows[key][|windows[key]| - 1] <= now - Max(cfg.perMessageWindowMs, cfg.perChatWindowMs)
      modifies this`windows
      ensures Abs() == old(Abs()) && windows == old(windows) - {key}
      ensures Valid() <==> Live(log, key, now - Width(cfg, key)) == []
      ensures Width(cfg, key) <= Max(cfg.perMessageWindowMs, cfg.perChatWindowMs) ==> Valid()
    {
      TableEvict(cfg, windows, log, now, key);
      windows := windows - {key};
    }
  }
}
