/** The fuse's tiers one by one: what each of them lets through in its window, in terms of
  * the configuration, what a call holds on its way through them, and when a call that has
  * to wait is let go. */
module FuseTiers {
  import opened FuseCeilings
  import opened FuseLog
  import opened FuseProtocol
  import opened FuseBounds
  import opened FuseRuns

  // ------------------------------------------------------------ the rate of each tier

  /** A limit as it stands over a whole run: tightening lifts a limit of 0 to 1. */
  function Lifted(cfg: Config, base: nat): nat {
    if cfg.maxTightenLevel > 0 && base == 0 then 1 else base
  }

  /** In every span of `width` ms at most `base` timely reservations, lifted. */
  ghost predicate Limited(cfg: Config, log: seq<Reservation>, key: Key, width: nat, base: nat) {
    Bounded(log, Timely(key), width, Lifted(cfg, base), Nothing)
  }

  ghost predicate TiersInv(cfg: Config, log: seq<Reservation>) {
    && (forall chat, msg :: Limited(cfg, log, KMessage(chat, msg), cfg.perMessageWindowMs, cfg.perMessageMax))
    && (forall chat :: Limited(cfg, log, KEdits(chat), cfg.perChatWindowMs, cfg.perChatEditMax))
    && (forall chat :: Limited(cfg, log, KSends(chat), cfg.perChatWindowMs, cfg.perChatSendMax))
    && (forall chat :: Limited(cfg, log, KTotal(chat), cfg.perChatWindowMs, cfg.perChatTotalMax))
    && Limited(cfg, log, KToken, Max(1, cfg.perTokenWindowRaw), Max(1, cfg.perTokenRaw))
  }

  /** What a timely reservation finds in the window of its tier. */
  ghost predicate RoomInTier(cfg: Config, log: seq<Reservation>, r: Reservation) {
    r.lane.Single? && !r.late ==>
      match r.lane.key
      case KMessage(_, _) => Below(log, r, cfg.perMessageWindowMs, Lifted(cfg, cfg.perMessageMax))
      case KEdits(_) => Below(log, r, cfg.perChatWindowMs, Lifted(cfg, cfg.perChatEditMax))
      case KSends(_) => Below(log, r, cfg.perChatWindowMs, Lifted(cfg, cfg.perChatSendMax))
      case KTotal(_) => Below(log, r, cfg.perChatWindowMs, Lifted(cfg, cfg.perChatTotalMax))
      case KToken => Below(log, r, Max(1, cfg.perTokenWindowRaw), Lifted(cfg, Max(1, cfg.perTokenRaw)))
      case _ => true
  }

  ghost predicate Below(log: seq<Reservation>, r: Reservation, width: nat, max: nat)
    requires r.lane.Single?
  {
    Within(log, OnKey(r.lane.key), r.at - width, width) < max
  }

  lemma {:induction false} TimelyAreOnKey(log: seq<Reservation>, key: Key, lo: int, width: nat)
    ensures Within(log, Timely(key), lo, width) <= Within(log, OnKey(key), lo, width)
  {
    if log != [] {
      TimelyAreOnKey(log[..|log| - 1], key, lo, width);
    }
  }

  lemma PushLimited(cfg: Config, log: seq<Reservation>, r: Reservation, key: Key, width: nat, base: nat)
    requires Limited(cfg, log, key, width, base)
    requires forall i :: 0 <= i < |log| ==> log[i].at <= r.at
    requires Matches(Timely(key), r) ==> r.lane.Single? && Below(log, r, width, Lifted(cfg, base))
    ensures Limited(cfg, log + [r], key, width, base)
  {
    TimelyAreOnKey(log, key, r.at - width, width);
    PushKeepsBound(log, r, Timely(key), width, Lifted(cfg, base), Nothing);
  }

  lemma PushTiers(cfg: Config, log: seq<Reservation>, r: Reservation)
    requires TiersInv(cfg, log) && Chronological(log, r.at) && RoomInTier(cfg, log, r)
    ensures TiersInv(cfg, log + [r])
  {
    AllBefore(log, r.at);
    forall chat, msg
      ensures Limited(cfg, log + [r], KMessage(chat, msg), cfg.perMessageWindowMs, cfg.perMessageMax)
    {
      assert Limited(cfg, log, KMessage(chat, msg), cfg.perMessageWindowMs, cfg.perMessageMax);
      PushLimited(cfg, log, r, KMessage(chat, msg), cfg.perMessageWindowMs, cfg.perMessageMax);
    }
    forall chat
      ensures Limited(cfg, log + [r], KEdits(chat), cfg.perChatWindowMs, cfg.perChatEditMax)
      ensures Limited(cfg, log + [r], KSends(chat), cfg.perChatWindowMs, cfg.perChatSendMax)
      ensures Limited(cfg, log + [r], KTotal(chat), cfg.perChatWindowMs, cfg.perChatTotalMax)
    {
      PushLimited(cfg, log, r, KEdits(chat), cfg.perChatWindowMs, cfg.perChatEditMax);
      PushLimited(cfg, log, r, KSends(chat), cfg.perChatWindowMs, cfg.perChatSendMax);
      PushLimited(cfg, log, r, KTotal(chat), cfg.perChatWindowMs, cfg.perChatTotalMax);
    }
    PushLimited(cfg, log, r, KToken, Max(1, cfg.perTokenWindowRaw), Max(1, cfg.perTokenRaw));
  }

  lemma GiveBackLimited(cfg: Config, log: seq<Reservation>, id: nat, key: Key, width: nat, base: nat)
    requires Limited(cfg, log, key, width, base)
    ensures Limited(cfg, GiveBack(log, id), key, width, base)
  {
    GiveBackKeepsBound(log, id, Timely(key), width, Lifted(cfg, base), Nothing);
  }

  lemma GiveBackTiers(cfg: Config, log: seq<Reservation>, id: nat)
    requires TiersInv(cfg, log)
    ensures TiersInv(cfg, GiveBack(log, id))
  {
    forall chat, msg
      ensures Limited(cfg, GiveBack(log, id), KMessage(chat, msg), cfg.perMessageWindowMs, cfg.perMessageMax)
    {
      GiveBackLimited(cfg, log, id, KMessage(chat, msg), cfg.perMessageWindowMs, cfg.perMessageMax);
    }
    forall chat
      ensures Limited(cfg, GiveBack(log, id), KEdits(chat), cfg.perChatWindowMs, cfg.perChatEditMax)
      ensures Limited(cfg, GiveBack(log, id), KSends(chat), cfg.perChatWindowMs, cfg.perChatSendMax)
      ensures Limited(cfg, GiveBack(log, id), KTotal(chat), cfg.perChatWindowMs, cfg.perChatTotalMax)
    {
      GiveBackLimited(cfg, log, id, KEdits(chat), cfg.perChatWindowMs, cfg.perChatEditMax);
      GiveBackLimited(cfg, log, id, KSends(chat), cfg.perChatWindowMs, cfg.perChatSendMax);
      GiveBackLimited(cfg, log, id, KTotal(chat), cfg.perChatWindowMs, cfg.perChatTotalMax);
    }
    GiveBackLimited(cfg, log, id, KToken, Max(1, cfg.perTokenWindowRaw), Max(1, cfg.perTokenRaw));
  }

  // --------------------------------------------------------------- admission, exactly

  /** Fewer than `max` reservations on `key` in the last `width` ms. */
  ghost predicate Room(s: State, key: Key, width: nat, max: nat) {
    Within(s.log, OnKey(key), s.now - width, width) < max
  }

  /** Whether the tier of call `c` has room for it at tighten level `level`. */
  ghost predicate RoomAtTier(cfg: Config, s: State, c: Call, level: nat)
    requires cfg.Valid() && WellStaged(c) && Active(c)
  {
    match c.stage
    case MessageTier =>
      Room(s, KMessage(c.kind.chat, c.kind.msg), cfg.perMessageWindowMs,
           if c.cls == Cosmetic then CosmeticMessageCeiling(cfg, level)
           else ClassCeiling(cfg, cfg.perMessageMax, c.cls, level))
    case ChatTier =>
      if c.cls == Cosmetic && cfg.fairShare then RoomInPool(cfg, s, c.kind.chat, c.kind.msg, level)
      else Room(s, KEdits(c.kind.chat), cfg.perChatWindowMs,
                if c.cls == Cosmetic then Ceiling(cfg, cfg.CosmeticPerChatMax(), level)
                else ClassCeiling(cfg, cfg.perChatEditMax, c.cls, level))
    case SendTier =>
      Room(s, KSends(c.kind.chat), cfg.perChatWindowMs, ClassCeiling(cfg, cfg.perChatSendMax, c.cls, level))
    case TotalTier =>
      Room(s, KTotal(c.kind.chat), cfg.perChatWindowMs,
           if c.cls == Cosmetic then CosmeticTotalMax(cfg, level)
           else ClassCeiling(cfg, cfg.perChatTotalMax, c.cls, level))
    case TokenTier =>
      Room(s, KToken, Max(1, cfg.perTokenWindowRaw), Ceiling(cfg, Max(1, cfg.perTokenRaw), level))
  }

  /** Room on a message's own floor and the chat's floors together. */
  ghost predicate RoomOnFloor(cfg: Config, s: State, chat: int, msg: int) {
    && Room(s, KFloorOf(chat, msg), cfg.perChatWindowMs, cfg.FloorPerWindow())
    && Room(s, KFloorAll(chat), cfg.perChatWindowMs, cfg.FloorAggMax())
  }

  /** Room on the floor, or in what the floors leave of the pool, tightened. */
  ghost predicate RoomInPool(cfg: Config, s: State, chat: int, msg: int, level: nat)
    requires cfg.Valid()
  {
    || RoomOnFloor(cfg, s, chat, msg)
    || (cfg.RemainderMax() > 0
        && Room(s, KRemainder(chat), cfg.perChatWindowMs, Ceiling(cfg, cfg.RemainderMax(), level)))
  }

  /** A tier admits a call exactly when its window holds fewer reservations than the tier's
    * configured limit tightened to the level in force; a fair cosmetic edit takes a floor
    * slot whenever there is one. */
  lemma AdmittedExactly(cfg: Config, s: State, c: Call, level: nat, cap: nat)
    requires cfg.Valid() && Chronological(s.log, s.now) && WellStaged(c) && Active(c)
    ensures Try(cfg, s, c, level, cap).Admit? <==> RoomAtTier(cfg, s, c, level)
    ensures Try(cfg, s, c, level, cap).Admit? && Fair(cfg, c) ==>
      Try(cfg, s, c, level, cap).lane == if RoomOnFloor(cfg, s, c.kind.chat, c.kind.msg)
                                         then Floor(c.kind.chat, c.kind.msg) else Single(KRemainder(c.kind.chat))
  {
    if Fair(cfg, c) {
      FairAdmitted(cfg, s, c, level, cap);
    } else {
      WaitZeroHasRoom(cfg, s, TierKey(c), TierMax(cfg, c, level));
    }
  }

  lemma FairAdmitted(cfg: Config, s: State, c: Call, level: nat, cap: nat)
    requires cfg.Valid() && Chronological(s.log, s.now) && WellStaged(c) && Active(c) && Fair(cfg, c)
    ensures Try(cfg, s, c, level, cap).Admit? <==> RoomInPool(cfg, s, c.kind.chat, c.kind.msg, level)
    ensures Try(cfg, s, c, level, cap).Admit? ==>
      Try(cfg, s, c, level, cap).lane == if RoomOnFloor(cfg, s, c.kind.chat, c.kind.msg)
                                         then Floor(c.kind.chat, c.kind.msg) else Single(KRemainder(c.kind.chat))
  {
    var chat, msg := c.kind.chat, c.kind.msg;
    WaitZeroHasRoom(cfg, s, KFloorOf(chat, msg), cfg.FloorPerWindow());
    WaitZeroHasRoom(cfg, s, KFloorAll(chat), cfg.FloorAggMax());
    WaitZeroHasRoom(cfg, s, KRemainder(chat), RemainderCap(cfg, level));
    CeilingInRange(cfg, cfg.RemainderMax(), 0, level);
  }

  lemma CeilingLifted(cfg: Config, base: nat, cls: OutboundClass, level: nat)
    requires cfg.Valid() && level <= cfg.maxTightenLevel
    ensures ClassCeiling(cfg, base, cls, level) <= Lifted(cfg, base)
    ensures Ceiling(cfg, base, level) <= Lifted(cfg, base)
  {
    CeilingInRange(cfg, base, 0, level);
  }

  lemma AdmissionInTier(cfg: Config, s: State, id: nat, level: nat, cap: nat, lane: Lane)
    requires cfg.Valid() && Chronological(s.log, s.now) && level <= cfg.maxTightenLevel && id in s.calls
    requires WellStaged(s.calls[id]) && Active(s.calls[id])
    requires Try(cfg, s, s.calls[id], level, cap) == Admit(lane)
    ensures RoomInTier(cfg, s.log, Taken(s, id, lane, false, level))
  {
    var c := s.calls[id];
    AdmittedExactly(cfg, s, c, level, cap);
    match c.stage
    case MessageTier =>
      CeilingLifted(cfg, cfg.perMessageMax, c.cls, level);
      CeilingLifted(cfg, cfg.CosmeticPerMessageMax(), c.cls, level);
    case ChatTier =>
      CeilingLifted(cfg, cfg.perChatEditMax, c.cls, level);
      CeilingLifted(cfg, cfg.CosmeticPerChatMax(), c.cls, level);
    case SendTier => CeilingLifted(cfg, cfg.perChatSendMax, c.cls, level);
    case TotalTier => CeilingLifted(cfg, cfg.perChatTotalMax, c.cls, level);
    case TokenTier => CeilingLifted(cfg, Max(1, cfg.perTokenRaw), c.cls, level);
  }

  lemma AttemptTiers(cfg: Config, s: State, id: nat, level: nat, cap: nat)
    requires cfg.Valid() && TiersInv(cfg, s.log) && Chronological(s.log, s.now) && level <= cfg.maxTightenLevel
    requires id in s.calls && WellStaged(s.calls[id]) && Active(s.calls[id])
    ensures TiersInv(cfg, AttemptResult(cfg, s, id, level, cap).log)
  {
    var c := s.calls[id];
    match Try(cfg, s, c, level, cap)
    case Admit(lane) =>
      AdmissionInTier(cfg, s, id, level, cap, lane);
      PushTiers(cfg, s.log, Taken(s, id, lane, false, level));
    case Release(lane) => PushTiers(cfg, s.log, Taken(s, id, lane, true, level));
    case ReleasePaid(lane) =>
      var charge := Taken(s, id, Single(KLate(c.kind.chat)), true, level);
      PushTiers(cfg, s.log, charge);
      ChronologicalPush(s.log, charge);
      PushTiers(cfg, s.log + [charge], Taken(s, id, lane, true, level));
    case Deny =>
    case Nap(_) =>
  }

  lemma StepKeepsTiers(cfg: Config, s: State, ev: Event)
    requires cfg.Valid() && Shape(s) && Chronological(s.log, s.now) && TiersInv(cfg, s.log) && Enabled(cfg, s, ev)
    ensures TiersInv(cfg, Next(cfg, s, ev).log)
  {
    if ev.Attempt? {
      assert WellStaged(s.calls[ev.id]);
      AttemptTiers(cfg, s, ev.id, ev.level, ev.cap);
    } else if ev.Resume? {
      GiveBackTiers(cfg, s.log, ev.id);
    }
  }

  lemma {:induction false} RunKeepsTiers(cfg: Config, s: State, evs: seq<Event>)
    requires cfg.Valid() && Inv(cfg, s) && TiersInv(cfg, s.log) && IsRun(cfg, s, evs)
    ensures TiersInv(cfg, End(cfg, s, evs).log)
    decreases evs
  {
    if evs != [] {
      StepKeepsInv(cfg, s, evs[0]);
      StepKeepsTiers(cfg, s, evs[0]);
      RunKeepsTiers(cfg, Next(cfg, s, evs[0]), evs[1..]);
    }
  }

  /** In every run and every span of a tier's window, the reservations on the tier that are
    * not late releases are at most the limit configured for it. */
  lemma TierBound(cfg: Config, start: int, evs: seq<Event>, chat: int, msg: int, lo: int)
    requires cfg.Valid() && IsRun(cfg, Init(start), evs)
    ensures var log := End(cfg, Init(start), evs).log;
      && Within(log, Timely(KMessage(chat, msg)), lo, cfg.perMessageWindowMs) <= Lifted(cfg, cfg.perMessageMax)
      && Within(log, Timely(KEdits(chat)), lo, cfg.perChatWindowMs) <= Lifted(cfg, cfg.perChatEditMax)
      && Within(log, Timely(KSends(chat)), lo, cfg.perChatWindowMs) <= Lifted(cfg, cfg.perChatSendMax)
      && Within(log, Timely(KTotal(chat)), lo, cfg.perChatWindowMs) <= Lifted(cfg, cfg.perChatTotalMax)
      && Within(log, Timely(KToken), lo, Max(1, cfg.perTokenWindowRaw)) <= Max(1, cfg.perTokenRaw)
  {
    InitInv(cfg, start);
    RunKeepsTiers(cfg, Init(start), evs);
    var log := End(cfg, Init(start), evs).log;
    assert Limited(cfg, log, KMessage(chat, msg), cfg.perMessageWindowMs, cfg.perMessageMax);
    NothingWithin(log, lo, cfg.perMessageWindowMs);
    NothingWithin(log, lo, cfg.perChatWindowMs);
    NothingWithin(log, lo, Max(1, cfg.perTokenWindowRaw));
  }

  // ------------------------------------------------------------------ waiting, exactly

  /** Every entry of a window lies in [from, to]. */
  ghost predicate Between(ts: seq<int>, from: int, to: int) {
    forall i :: 0 <= i < |ts| ==> from <= ts[i] <= to
  }

  lemma BetweenSplits(ts: seq<int>, t: int, from: int, to: int)
    ensures Between(ts + [t], from, to) <==> Between(ts, from, to) && from <= t <= to
  {
    if Between(ts + [t], from, to) {
      assert forall i :: 0 <= i < |ts| ==> (ts + [t])[i] == ts[i];
      assert (ts + [t])[|ts|] == t;
    }
  }

  /** A window looked at with a later cut loses exactly what lies up to that cut. */
  lemma {:induction false} LiveLater(log: seq<Reservation>, key: Key, cut: int, later: int, now: int)
    requires cut <= later
    ensures |Live(log, key, later)| <= |Live(log, key, cut)|
    ensures Between(Live(log, key, cut), later + 1, now) ==> Live(log, key, later) == Live(log, key, cut)
    ensures (exists i :: 0 <= i < |Live(log, key, cut)| && Live(log, key, cut)[i] <= later) ==>
      |Live(log, key, later)| < |Live(log, key, cut)|
  {
    if log != [] {
      var n := |log| - 1;
      LiveLater(log[..n], key, cut, later, now);
      BetweenSplits(Live(log[..n], key, cut), log[n].at, later + 1, now);
    }
  }

  lemma {:induction false} OldestFirst(log: seq<Reservation>, key: Key, cut: int, now: int)
    requires Chronological(log, now)
    ensures var ts := Live(log, key, cut); Between(ts, if ts == [] then cut else ts[0], now)
    ensures Between(Live(log, key, cut), cut + 1, now)
  {
    if log != [] {
      var n := |log| - 1;
      var older := Live(log[..n], key, cut);
      OldestFirst(log[..n], key, cut, log[n].at);
      BetweenSplits(older, log[n].at, cut + 1, now);
      if older != [] {
        BetweenSplits(older, log[n].at, older[0], now);
      }
    }
  }

  /** While a full window keeps its slots its length stays the same until the wait is over,
    * and then the oldest slot is gone: the wait is the earliest moment anything changes. An
    * empty window with a limit of 0 is looked at again after its width. */
  lemma WaitsForOldest(cfg: Config, s: State, key: Key, max: nat, later: int)
    requires Chronological(s.log, s.now) && Wait(cfg, s, key, max) > 0
    ensures var wait, width := Wait(cfg, s, key, max), Width(cfg, key);
      && (s.now <= later < s.now + wait && Window(cfg, s, key) != [] ==>
           Live(s.log, key, later - width) == Window(cfg, s, key))
      && (Window(cfg, s, key) != [] ==> |Live(s.log, key, s.now + wait - width)| < |Window(cfg, s, key)|)
      && (Window(cfg, s, key) == [] ==> max == 0 && wait == if width >= 1 then width else 1)
  {
    var wait, width := Wait(cfg, s, key, max), Width(cfg, key);
    var ts := Window(cfg, s, key);
    OldestFirst(s.log, key, s.now - width, s.now);
    if ts != [] {
      LiveLater(s.log, key, s.now - width, s.now + wait - width, s.now);
      if s.now <= later < s.now + wait {
        LiveLater(s.log, key, s.now - width, later - width, s.now);
      }
    }
  }

  /** The widths of the windows. */
  lemma WidthsAre(cfg: Config, chat: int, msg: int)
    ensures Width(cfg, KMessage(chat, msg)) == cfg.perMessageWindowMs
    ensures Width(cfg, KFloorOf(chat, msg)) == Width(cfg, KFloorAll(chat)) == Width(cfg, KRemainder(chat))
      == Width(cfg, KEdits(chat)) == Width(cfg, KSends(chat)) == Width(cfg, KTotal(chat)) == Width(cfg, KLate(chat))
      == cfg.perChatWindowMs
    ensures Width(cfg, KToken) >= 1 && Width(cfg, KToken) >= cfg.perTokenWindowRaw
    ensures cfg.perTokenWindowRaw >= 1 ==> Width(cfg, KToken) == cfg.perTokenWindowRaw
  {
  }

  /** When a call stops waiting for room: `maxDeferMs` after its arrival, or sooner for a
    * chat action. */
  ghost predicate TimeIsUp(cfg: Config, s: State, c: Call) {
    && (s.now >= c.arrived + cfg.maxDeferMs
        || (c.kind.ChatAction? && c.stage == TotalTier && s.now >= c.arrived + cfg.chatActionMaxDeferMs))
  }

  /** A cosmetic edit before the token tier whose chat has no late release left. */
  ghost predicate OutOfLateBudget(cfg: Config, s: State, c: Call, level: nat)
    requires cfg.Valid()
  {
    && c.kind.Edit? && c.cls == Cosmetic && c.stage in {MessageTier, ChatTier, TotalTier}
    && Within(s.log, OnKey(KLate(c.kind.chat)), s.now - cfg.perChatWindowMs, cfg.perChatWindowMs)
         >= Ceiling(cfg, cfg.lateReleaseMax, level)
  }

  /** An edit at its message or chat tier, or a cosmetic one at the shared tier, while
    * another frame of its message counts as in flight; a chat action at the shared tier. */
  ghost predicate MayShed(s: State, c: Call) {
    || (c.kind.Edit? && (c.stage in {MessageTier, ChatTier} || (c.stage == TotalTier && c.cls == Cosmetic))
        && |InFlight(s, c.kind.chat, c.kind.msg)| > 1)
    || (c.kind.ChatAction? && c.stage == TotalTier)
  }

  /** What happens to a call that finds no room, in full: before its time is up it sleeps;
    * after that it is denied if it may be shed or its late budget is spent, else it is
    * released, and a cosmetic edit before the token tier pays for that. */
  lemma NoRoomExactly(cfg: Config, s: State, c: Call, level: nat, cap: nat)
    requires cfg.Valid() && Chronological(s.log, s.now) && WellStaged(c) && Active(c)
    requires !RoomAtTier(cfg, s, c, level)
    ensures var o := Try(cfg, s, c, level, cap);
      && (o.Nap? <==> !TimeIsUp(cfg, s, c))
      && (o.Deny? <==> TimeIsUp(cfg, s, c) && (MayShed(s, c) || OutOfLateBudget(cfg, s, c, level)))
      && (o.ReleasePaid? ==> PaysForLateness(c))
      && (o.Release? ==> !PaysForLateness(c))
      && (o.ReleasePaid? && Fair(cfg, c) ==>
           o.lane == if cfg.RemainderMax() > 0 then Single(KRemainder(c.kind.chat)) else Floor(c.kind.chat, c.kind.msg))
  {
    AdmittedExactly(cfg, s, c, level, cap);
    AllBefore(s.log, s.now);
    if c.kind.Edit? {
      LiveCount(s.log, KLate(c.kind.chat), s.now, cfg.perChatWindowMs);
    }
  }

  /** The wait a tier asks for: its window's, or at the fair chat tier the shorter of the
    * remainder's and of the later of the two floors'. */
  ghost function TierWait(cfg: Config, s: State, c: Call, level: nat): nat
    requires cfg.Valid() && WellStaged(c) && Active(c)
  {
    if Fair(cfg, c) then
      Min(Max(Wait(cfg, s, KFloorOf(c.kind.chat, c.kind.msg), cfg.FloorPerWindow()),
              Wait(cfg, s, KFloorAll(c.kind.chat), cfg.FloorAggMax())),
          Wait(cfg, s, KRemainder(c.kind.chat), RemainderCap(cfg, level)))
    else Wait(cfg, s, TierKey(c), TierMax(cfg, c, level))
  }

  /** A sleep ends at the first of three moments: when the tier's windows may have room,
    * when the call's time is up, and after `cap`. */
  lemma SleepsUntil(cfg: Config, s: State, c: Call, level: nat, cap: nat, ms: nat)
    requires cfg.Valid() && Chronological(s.log, s.now) && WellStaged(c) && Active(c) && cap >= 1
    requires Try(cfg, s, c, level, cap) == Nap(ms)
    ensures 1 <= ms <= cap && ms <= TierWait(cfg, s, c, level)
    ensures !TimeIsUp(cfg, s.(now := s.now + ms - 1), c)
    ensures ms < cap && ms < TierWait(cfg, s, c, level) ==> TimeIsUp(cfg, s.(now := s.now + ms), c)
  {
  }
}
