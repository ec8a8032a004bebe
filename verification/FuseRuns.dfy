/** Whole runs of the fuse: what they keep, and the guarantees stated over them. */
module FuseRuns {
  import opened FuseCeilings
  import opened FuseLog
  import opened FuseProtocol
  import opened FuseBounds

  // -------------------------------------------------------------- one step

  lemma SleepKeepsShape(s: State, id: nat, ms: nat)
    requires Shape(s) && id in s.calls && Active(s.calls[id]) && s.calls[id].rest.Runnable?
    ensures Shape(Sleep(s, id, ms))
  {
    var t := Sleep(s, id, ms);
    forall x | x in t.calls
      ensures WellStaged(t.calls[x])
    {
      assert WellStaged(s.calls[x]);
    }
    forall m | m in t.waiter
      ensures t.waiter[m] in t.calls && t.calls[t.waiter[m]].kind == Edit(m.0, m.1)
      ensures t.calls[t.waiter[m]].stage == MessageTier && t.calls[t.waiter[m]].rest.Asleep?
    {
      assert WellStaged(s.calls[id]);
    }
    forall x, chat, msg | x in t.calls && Superseded(t.calls[x], chat, msg)
      ensures (chat, msg) in t.waiter
    {
      assert Superseded(s.calls[x], chat, msg) || (chat, msg) in s.waiter;
    }
  }

  /** Changing a runnable call, but not into a superseded one, touches no waiter. */
  lemma MoveKeepsShape(s: State, t: State, id: nat, c: Call)
    requires Shape(s) && id in s.calls && s.calls[id].rest.Runnable?
    requires t.calls == s.calls[id := c] && t.waiter == s.waiter
    requires WellStaged(c) && !c.rest.Killed?
    ensures Shape(t)
  {
    forall x, chat, msg | x in t.calls && Superseded(t.calls[x], chat, msg)
      ensures (chat, msg) in t.waiter
    {
      assert Superseded(s.calls[x], chat, msg);
    }
  }

  lemma WakeKeepsShape(cfg: Config, s: State, id: nat)
    requires cfg.Valid() && Shape(s) && Enabled(cfg, s, Wake(id))
    ensures Shape(Next(cfg, s, Wake(id)))
  {
    var t := Next(cfg, s, Wake(id));
    assert WellStaged(s.calls[id]);
    forall x, chat, msg | x in t.calls && Superseded(t.calls[x], chat, msg)
      ensures (chat, msg) in t.waiter
    {
      assert Superseded(s.calls[x], chat, msg);
      assert KilledOn(s, chat, msg);
    }
  }

  lemma OtherStepKeepsShape(cfg: Config, s: State, ev: Event)
    requires cfg.Valid() && Shape(s) && Enabled(cfg, s, ev) && (ev.Arrive? || ev.Resume? || ev.Tick?)
    ensures Shape(Next(cfg, s, ev))
  {
    var t := Next(cfg, s, ev);
    forall x, chat, msg | x in t.calls && Superseded(t.calls[x], chat, msg)
      ensures (chat, msg) in t.waiter
    {
      assert Superseded(s.calls[x], chat, msg);
    }
  }

  lemma StepKeepsShape(cfg: Config, s: State, ev: Event)
    requires cfg.Valid() && Shape(s) && Enabled(cfg, s, ev)
    ensures Shape(Next(cfg, s, ev))
  {
    match ev
    case Attempt(id, level, cap) =>
      var c := s.calls[id];
      assert WellStaged(c);
      match Try(cfg, s, c, level, cap) {
        case Nap(ms) => SleepKeepsShape(s, id, ms);
        case _ => MoveKeepsShape(s, Next(cfg, s, ev), id, Next(cfg, s, ev).calls[id]);
      }
    case Wake(id) => WakeKeepsShape(cfg, s, id);
    case _ => OtherStepKeepsShape(cfg, s, ev);
  }

  /** The history stays bounded and in order. */
  ghost predicate GoodLog(cfg: Config, log: seq<Reservation>, now: int)
    requires cfg.Valid()
  {
    LogInv(cfg, log) && Chronological(log, now)
  }

  lemma PushKeepsGood(cfg: Config, log: seq<Reservation>, r: Reservation)
    requires cfg.Valid() && GoodLog(cfg, log, r.at) && RoomFor(cfg, log, r)
    ensures GoodLog(cfg, log + [r], r.at)
  {
    AllBefore(log, r.at);
    PushKeepsLog(cfg, log, r);
    ChronologicalPush(log, r);
  }

  lemma PaidKeepsGood(cfg: Config, log: seq<Reservation>, charge: Reservation, r: Reservation, payer: int)
    requires cfg.Valid() && GoodLog(cfg, log, r.at) && PaidBy(cfg, log, payer, r)
    requires charge.at == r.at && charge.lane == Single(KLate(payer))
    ensures GoodLog(cfg, log + [charge] + [r], r.at)
  {
    AllBefore(log, r.at);
    PaidKeepsLog(cfg, log, charge, r, payer);
    ChronologicalPush(log, charge);
    ChronologicalPush(log + [charge], r);
  }

  lemma DenyKeepsGood(cfg: Config, log: seq<Reservation>, id: nat, now: int)
    requires cfg.Valid() && GoodLog(cfg, log, now)
    ensures GoodLog(cfg, GiveBack(log, id), now)
  {
    GiveBackKeepsLog(cfg, log, id);
    GiveBackChronological(log, id, now);
  }

  lemma AttemptKeepsLog(cfg: Config, s: State, id: nat, level: nat, cap: nat)
    requires cfg.Valid() && GoodLog(cfg, s.log, s.now) && level <= cfg.maxTightenLevel
    requires id in s.calls && WellStaged(s.calls[id]) && Active(s.calls[id])
    ensures GoodLog(cfg, AttemptResult(cfg, s, id, level, cap).log, s.now)
  {
    var c := s.calls[id];
    match Try(cfg, s, c, level, cap)
    case Admit(lane) =>
      AdmissionHasRoom(cfg, s, id, level, cap, lane);
      PushKeepsGood(cfg, s.log, Taken(s, id, lane, false, level));
    case Release(lane) =>
      ReleaseHasRoom(cfg, s, id, level, cap, lane);
      PushKeepsGood(cfg, s.log, Taken(s, id, lane, true, level));
    case ReleasePaid(lane) =>
      LateReleaseIsPaid(cfg, s, id, level, cap, lane);
      var charge := Taken(s, id, Single(KLate(c.kind.chat)), true, level);
      PaidKeepsGood(cfg, s.log, charge, Taken(s, id, lane, true, level), c.kind.chat);
    case Deny =>
    case Nap(_) =>
  }

  lemma StepKeepsInv(cfg: Config, s: State, ev: Event)
    requires cfg.Valid() && Inv(cfg, s) && Enabled(cfg, s, ev)
    ensures Inv(cfg, Next(cfg, s, ev))
  {
    StepKeepsShape(cfg, s, ev);
    if ev.Attempt? {
      assert WellStaged(s.calls[ev.id]);
      AttemptKeepsLog(cfg, s, ev.id, ev.level, ev.cap);
    } else if ev.Resume? {
      DenyKeepsGood(cfg, s.log, ev.id, s.now);
    }
  }

  // ------------------------------------------------------------------ runs

  ghost predicate IsRun(cfg: Config, s: State, evs: seq<Event>)
    requires cfg.Valid() && Shape(s)
    decreases evs
  {
    evs == [] ||
    (Enabled(cfg, s, evs[0]) &&
     (StepKeepsShape(cfg, s, evs[0]); IsRun(cfg, Next(cfg, s, evs[0]), evs[1..])))
  }

  ghost function End(cfg: Config, s: State, evs: seq<Event>): (t: State)
    requires cfg.Valid() && Shape(s) && IsRun(cfg, s, evs)
    ensures Shape(t)
    decreases evs
  {
    if evs == [] then s
    else (StepKeepsShape(cfg, s, evs[0]); End(cfg, Next(cfg, s, evs[0]), evs[1..]))
  }

  lemma InitInv(cfg: Config, now: int)
    requires cfg.Valid()
    ensures Inv(cfg, Init(now))
  {
  }

  lemma {:induction false} RunKeepsInv(cfg: Config, s: State, evs: seq<Event>)
    requires cfg.Valid() && Inv(cfg, s) && IsRun(cfg, s, evs)
    ensures Inv(cfg, End(cfg, s, evs))
    decreases evs
  {
    if evs != [] {
      StepKeepsInv(cfg, s, evs[0]);
      RunKeepsInv(cfg, Next(cfg, s, evs[0]), evs[1..]);
    }
  }

  // ------------------------------------------------- the cosmetic pool bound

  /** In every run, under any 429 history, the cosmetic edits holding a chat reservation
    * in any span of `perChatWindowMs`, over all floor lanes and the remainder lane, are at
    * most the pool plus the late-release budget. */
  lemma CosmeticPoolBound(cfg: Config, start: int, evs: seq<Event>, chat: int, lo: int)
    requires cfg.Valid() && IsRun(cfg, Init(start), evs)
    ensures Within(End(cfg, Init(start), evs).log, CosmeticPool(chat), lo, cfg.perChatWindowMs)
         <= cfg.CosmeticPerChatMax() + LateCap(cfg)
    ensures cfg.lateReleaseMax >= 1 || cfg.maxTightenLevel == 0 ==> LateCap(cfg) == cfg.lateReleaseMax
  {
    InitInv(cfg, start);
    RunKeepsInv(cfg, Init(start), evs);
    var log, w := End(cfg, Init(start), evs).log, cfg.perChatWindowMs;
    assert LanesInv(cfg, log, chat);
    PoolSplits(log, chat, lo, w);
    NothingWithin(log, lo, w);
  }

  // -------------------------------------------------------- the reply reserve

  /** A call outside the cosmetic class has to wait at the shared chat tier only when other
    * such traffic fills the window beyond what is left of the reserve: if every sheddable
    * admission of the trailing window was made at the present level, the reserved slots
    * less the late-release budget were taken by calls other than cosmetic edits and chat
    * actions, except as many as chat actions tagged with another class took. */
  lemma ReplyReserve(cfg: Config, start: int, evs: seq<Event>, chat: int, cls: OutboundClass, level: nat)
    requires cfg.Valid() && IsRun(cfg, Init(start), evs) && cls != Cosmetic
    requires var s := End(cfg, Init(start), evs);
      && Wait(cfg, s, KTotal(chat), TotalMaxFor(cfg, cls, level)) > 0
      && (forall r :: r in s.log && Hit(Sheddable(chat), r, s.now - cfg.perChatWindowMs, cfg.perChatWindowMs)
            ==> r.level == level)
    ensures var s := End(cfg, Init(start), evs);
      Within(s.log, Replies(chat), s.now - cfg.perChatWindowMs, cfg.perChatWindowMs) + LateCap(cfg)
        >= ReservedSlots(cfg, level)
           - Within(s.log, TaggedActions(chat), s.now - cfg.perChatWindowMs, cfg.perChatWindowMs)
  {
    InitInv(cfg, start);
    RunKeepsInv(cfg, Init(start), evs);
    ReserveTakenNow(cfg, End(cfg, Init(start), evs), chat, cls, level);
  }

  /** Every sheddable admission to the shared window in the span was made at `level`. */
  ghost predicate OneLevel(cfg: Config, log: seq<Reservation>, chat: int, lo: int, level: nat) {
    forall r :: r in log && Hit(Sheddable(chat), r, lo, cfg.perChatWindowMs) ==> r.level == level
  }

  lemma OneLevelShares(cfg: Config, log: seq<Reservation>, chat: int, lo: int, level: nat)
    requires cfg.Valid() && OneLevel(cfg, log, chat, lo, level)
    ensures SharesBelow(cfg, log, chat, lo, CosmeticTotalMax(cfg, level))
  {
  }

  lemma ReserveTakenNow(cfg: Config, s: State, chat: int, cls: OutboundClass, level: nat)
    requires cfg.Valid() && LogInv(cfg, s.log) && Chronological(s.log, s.now) && cls != Cosmetic
    requires Wait(cfg, s, KTotal(chat), TotalMaxFor(cfg, cls, level)) > 0
    requires OneLevel(cfg, s.log, chat, s.now - cfg.perChatWindowMs, level)
    ensures Within(s.log, Replies(chat), s.now - cfg.perChatWindowMs, cfg.perChatWindowMs) + LateCap(cfg)
         >= ReservedSlots(cfg, level)
            - Within(s.log, TaggedActions(chat), s.now - cfg.perChatWindowMs, cfg.perChatWindowMs)
  {
    assert LanesInv(cfg, s.log, chat) && SharesInv(cfg, s.log, chat);
    OneLevelShares(cfg, s.log, chat, s.now - cfg.perChatWindowMs, level);
    WaitZeroHasRoom(cfg, s, KTotal(chat), TotalMaxFor(cfg, cls, level));
    ReserveTaken(cfg, s.log, chat, s.now - cfg.perChatWindowMs, cls, level);
  }

  lemma ReserveTaken(cfg: Config, log: seq<Reservation>, chat: int, lo: int, cls: OutboundClass, level: nat)
    requires cfg.Valid() && cls != Cosmetic && LanesInv(cfg, log, chat) && SharesInv(cfg, log, chat)
    requires SharesBelow(cfg, log, chat, lo, CosmeticTotalMax(cfg, level))
    requires Within(log, OnKey(KTotal(chat)), lo, cfg.perChatWindowMs) >= TotalMaxFor(cfg, cls, level)
    ensures Within(log, Replies(chat), lo, cfg.perChatWindowMs) + LateCap(cfg)
         >= ReservedSlots(cfg, level) - Within(log, TaggedActions(chat), lo, cfg.perChatWindowMs)
  {
    ProtectedSplits(log, chat, lo, cfg.perChatWindowMs);
    TotalSplits(log, chat, lo, cfg.perChatWindowMs);
    NothingWithin(log, lo, cfg.perChatWindowMs);
  }

  // ---------------------------------------------------------- anti-starvation

  /** While no more ids than floor slots hold a floor reservation, a cosmetic edit whose
    * message is below its own floor is admitted to the chat tier at once, at every
    * tighten level. */
  lemma NoStarvation(cfg: Config, start: int, evs: seq<Event>, id: nat, level: nat, cap: nat)
    requires cfg.Valid() && IsRun(cfg, Init(start), evs)
    requires cfg.RemainderMax() > 0 && cfg.FloorPerWindow() * cfg.floorSlots <= cfg.CosmeticPerChatMax()
    requires var s := End(cfg, Init(start), evs);
      && id in s.calls && Fair(cfg, s.calls[id]) && s.calls[id].kind.Edit?
      && |FloorHolders(s.log, s.calls[id].kind.chat, s.now - cfg.perChatWindowMs, cfg.perChatWindowMs)
          + {s.calls[id].kind.msg}| <= cfg.floorSlots
      && |Window(cfg, s, KFloorOf(s.calls[id].kind.chat, s.calls[id].kind.msg))| < cfg.FloorPerWindow()
    ensures var s := End(cfg, Init(start), evs);
      && WellStaged(s.calls[id])
      && Try(cfg, s, s.calls[id], level, cap) == Admit(Floor(s.calls[id].kind.chat, s.calls[id].kind.msg))
  {
    InitInv(cfg, start);
    RunKeepsInv(cfg, Init(start), evs);
    var s := End(cfg, Init(start), evs);
    assert WellStaged(s.calls[id]);
    FloorHasRoom(cfg, s, s.calls[id].kind.chat, s.calls[id].kind.msg);
  }

  lemma FloorHasRoom(cfg: Config, s: State, chat: int, msg: int)
    requires cfg.Valid() && GoodLog(cfg, s.log, s.now)
    requires cfg.RemainderMax() > 0 && cfg.FloorPerWindow() * cfg.floorSlots <= cfg.CosmeticPerChatMax()
    requires |FloorHolders(s.log, chat, s.now - cfg.perChatWindowMs, cfg.perChatWindowMs) + {msg}| <= cfg.floorSlots
    requires |Window(cfg, s, KFloorOf(chat, msg))| < cfg.FloorPerWindow()
    ensures Wait(cfg, s, KFloorOf(chat, msg), cfg.FloorPerWindow()) == 0
    ensures Wait(cfg, s, KFloorAll(chat), cfg.FloorAggMax()) == 0
  {
    var w := cfg.perChatWindowMs;
    AllBefore(s.log, s.now);
    FloorsRespected(cfg, s, chat);
    LiveCount(s.log, KFloorOf(chat, msg), s.now, w);
    LiveCount(s.log, KFloorAll(chat), s.now, w);
    FloorIsFree(s.log, chat, msg, cfg.FloorPerWindow(), cfg.floorSlots, s.now - w, w);
  }

  lemma FloorsRespected(cfg: Config, s: State, chat: int)
    requires cfg.Valid() && LogInv(cfg, s.log) && cfg.RemainderMax() > 0
    ensures forall m :: Within(s.log, OnKey(KFloorOf(chat, m)), s.now - cfg.perChatWindowMs, cfg.perChatWindowMs)
                        <= cfg.FloorPerWindow()
  {
    var w, lo := cfg.perChatWindowMs, s.now - cfg.perChatWindowMs;
    NothingWithin(s.log, lo, w);
    forall m
      ensures Within(s.log, OnKey(KFloorOf(chat, m)), lo, w) <= cfg.FloorPerWindow()
    {
      assert FloorsInv(cfg, s.log, chat, m);
    }
  }

  lemma FloorIsFree(log: seq<Reservation>, chat: int, msg: int, floor: nat, slots: nat, lo: int, w: nat)
    requires forall m :: Within(log, OnKey(KFloorOf(chat, m)), lo, w) <= floor
    requires |FloorHolders(log, chat, lo, w) + {msg}| <= slots
    requires Within(log, OnKey(KFloorOf(chat, msg)), lo, w) < floor
    ensures Within(log, OnKey(KFloorAll(chat)), lo, w) < floor * slots
  {
    var ids := FloorHolders(log, chat, lo, w) + {msg};
    AggregateIsMerge(log, chat, ids, lo, w);
    FloorAmongSplits(log, chat, ids, msg, lo, w);
    FloorAmongBound(log, chat, ids - {msg}, floor, lo, w);
    assert |ids| == |ids - {msg}| + 1;
    SlotsLeft(floor, |ids - {msg}|, slots);
  }

  lemma SlotsLeft(floor: nat, others: nat, slots: nat)
    requires others + 1 <= slots
    ensures floor * others + floor <= floor * slots
  {
    assert floor * others + floor == floor * (others + 1);
    MulMonotone(floor, others + 1, slots);
  }

  lemma MulMonotone(a: nat, b: nat, c: nat)
    requires b <= c
    ensures a * b <= a * c
  {
  }

  // ------------------------------------------------------------- one waiter a message

  /** Every frame asleep at its message tier is the one its message's waiter names. */
  ghost predicate AsleepIsWaiter(s: State) {
    forall id :: id in s.calls && s.calls[id].stage == MessageTier && s.calls[id].rest.Asleep? ==>
      && s.calls[id].kind.Edit?
      && var m := (s.calls[id].kind.chat, s.calls[id].kind.msg);
         m in s.waiter && s.waiter[m] == id
  }

  lemma SleepSupersedes(s: State, id: nat, ms: nat)
    requires Shape(s) && AsleepIsWaiter(s) && id in s.calls && Active(s.calls[id]) && s.calls[id].rest.Runnable?
    ensures AsleepIsWaiter(Sleep(s, id, ms))
  {
    assert WellStaged(s.calls[id]);
  }

  lemma StepKeepsWaiter(cfg: Config, s: State, ev: Event)
    requires cfg.Valid() && Shape(s) && AsleepIsWaiter(s) && Enabled(cfg, s, ev)
    ensures AsleepIsWaiter(Next(cfg, s, ev))
  {
    match ev
    case Attempt(id, level, cap) =>
      assert WellStaged(s.calls[id]);
      match Try(cfg, s, s.calls[id], level, cap) {
        case Nap(ms) => SleepSupersedes(s, id, ms);
        case _ =>
      }
    case _ =>
  }

  lemma {:induction false} RunKeepsWaiter(cfg: Config, s: State, evs: seq<Event>)
    requires cfg.Valid() && Shape(s) && AsleepIsWaiter(s) && IsRun(cfg, s, evs)
    ensures AsleepIsWaiter(End(cfg, s, evs))
    decreases evs
  {
    if evs != [] {
      StepKeepsShape(cfg, s, evs[0]);
      StepKeepsWaiter(cfg, s, evs[0]);
      RunKeepsWaiter(cfg, Next(cfg, s, evs[0]), evs[1..]);
    }
  }

  /** In every run at most one frame of a message sleeps at its message tier, and a frame
    * going to sleep there supersedes the one that slept before it. */
  lemma NewestFrameWaits(cfg: Config, start: int, evs: seq<Event>, older: nat, newer: nat, level: nat, cap: nat)
    requires cfg.Valid() && IsRun(cfg, Init(start), evs)
    requires var s := End(cfg, Init(start), evs);
      && older in s.calls && newer in s.calls && older != newer
      && s.calls[older].kind == s.calls[newer].kind && s.calls[older].stage == s.calls[newer].stage == MessageTier
      && s.calls[older].rest.Asleep?
    ensures !End(cfg, Init(start), evs).calls[newer].rest.Asleep?
    ensures var s := End(cfg, Init(start), evs);
      Enabled(cfg, s, Attempt(newer, level, cap)) ==>
        && WellStaged(s.calls[newer])
        && (Try(cfg, s, s.calls[newer], level, cap).Nap? ==>
             Next(cfg, s, Attempt(newer, level, cap)).calls[older] == s.calls[older].(rest := Killed))
  {
    RunKeepsWaiter(cfg, Init(start), evs);
    var s := End(cfg, Init(start), evs);
    assert WellStaged(s.calls[newer]) && WellStaged(s.calls[older]);
  }

  // ------------------------------------------------------------ bounded hold

  lemma NapBounds(cfg: Config, s: State, c: Call, level: nat, cap: nat)
    requires cfg.Valid() && WellStaged(c) && Active(c) && cap >= 1
    requires Try(cfg, s, c, level, cap).Nap?
    ensures s.now < Deadline(cfg, c)
    ensures 1 <= Try(cfg, s, c, level, cap).ms <= Deadline(cfg, c) - s.now
  {
  }

  lemma StepKeepsNaps(cfg: Config, s: State, ev: Event)
    requires cfg.Valid() && Shape(s) && NapsInv(cfg, s) && Enabled(cfg, s, ev)
    ensures NapsInv(cfg, Next(cfg, s, ev))
  {
    var t := Next(cfg, s, ev);
    if ev.Attempt? {
      var c := s.calls[ev.id];
      assert WellStaged(c) && NapsOk(cfg, s.now, c);
      if Try(cfg, s, c, ev.level, ev.cap).Nap? {
        NapBounds(cfg, s, c, ev.level, ev.cap);
      }
    }
    forall id | id in t.calls
      ensures NapsOk(cfg, t.now, t.calls[id])
    {
      if id in s.calls {
        assert NapsOk(cfg, s.now, s.calls[id]);
      }
    }
  }

  lemma {:induction false} RunKeepsNaps(cfg: Config, s: State, evs: seq<Event>)
    requires cfg.Valid() && Shape(s) && NapsInv(cfg, s) && IsRun(cfg, s, evs)
    ensures NapsInv(cfg, End(cfg, s, evs))
    decreases evs
  {
    if evs != [] {
      StepKeepsShape(cfg, s, evs[0]);
      StepKeepsNaps(cfg, s, evs[0]);
      RunKeepsNaps(cfg, Next(cfg, s, evs[0]), evs[1..]);
    }
  }

  /** In every run, on any clock, a call sleeps at most `maxDeferMs` times, and while it
    * sleeps its timer is set for no later than `maxDeferMs` after its arrival. */
  lemma SleepsAreBounded(cfg: Config, start: int, evs: seq<Event>, id: nat)
    requires cfg.Valid() && IsRun(cfg, Init(start), evs) && id in End(cfg, Init(start), evs).calls
    ensures var c := End(cfg, Init(start), evs).calls[id];
      c.naps <= cfg.maxDeferMs && (c.rest.Asleep? ==> c.rest.until <= c.arrived + cfg.maxDeferMs)
  {
    RunKeepsNaps(cfg, Init(start), evs);
    var s := End(cfg, Init(start), evs);
    assert NapsOk(cfg, s.now, s.calls[id]);
  }

  /** Time passes only while every unfinished call is asleep, and no further than the
    * first wake-up. */
  ghost predicate OnTime(s: State, ev: Event) {
    ev.Tick? ==> forall id :: id in s.calls && Active(s.calls[id]) ==>
      s.calls[id].rest.Asleep? && s.now + ev.ms <= s.calls[id].rest.until
  }

  ghost predicate OnTimeRun(cfg: Config, s: State, evs: seq<Event>)
    requires cfg.Valid() && Shape(s) && IsRun(cfg, s, evs)
    decreases evs
  {
    evs == [] ||
    (OnTime(s, evs[0]) &&
     (StepKeepsShape(cfg, s, evs[0]); OnTimeRun(cfg, Next(cfg, s, evs[0]), evs[1..])))
  }

  ghost predicate HeldInv(cfg: Config, s: State) {
    forall id :: id in s.calls && Active(s.calls[id]) ==> s.now <= s.calls[id].arrived + cfg.maxDeferMs
  }

  lemma StepKeepsHeld(cfg: Config, s: State, ev: Event)
    requires cfg.Valid() && Shape(s) && NapsInv(cfg, s) && HeldInv(cfg, s) && Enabled(cfg, s, ev) && OnTime(s, ev)
    ensures HeldInv(cfg, Next(cfg, s, ev))
  {
    var t := Next(cfg, s, ev);
    if ev.Attempt? {
      assert WellStaged(s.calls[ev.id]);
    }
    forall id | id in t.calls && Active(t.calls[id])
      ensures t.now <= t.calls[id].arrived + cfg.maxDeferMs
    {
      if id in s.calls {
        assert NapsOk(cfg, s.now, s.calls[id]);
      }
    }
  }

  /** With a clock that wakes every sleeper on time, no call is still held once
    * `maxDeferMs` have passed since it arrived: by then it has gone downstream or been
    * dropped. */
  lemma {:induction false} HoldIsBounded(cfg: Config, s: State, evs: seq<Event>)
    requires cfg.Valid() && Shape(s) && NapsInv(cfg, s) && HeldInv(cfg, s)
    requires IsRun(cfg, s, evs) && OnTimeRun(cfg, s, evs)
    ensures HeldInv(cfg, End(cfg, s, evs))
    decreases evs
  {
    if evs != [] {
      StepKeepsShape(cfg, s, evs[0]);
      StepKeepsNaps(cfg, s, evs[0]);
      StepKeepsHeld(cfg, s, evs[0]);
      HoldIsBounded(cfg, Next(cfg, s, evs[0]), evs[1..]);
    }
  }

  /** No call is ever stuck: it can run, or resume, or its timer is still to come, or its
    * timer is due and can fire as soon as the superseded frames of its message resume. */
  lemma NeverStuck(cfg: Config, s: State, id: nat) returns (ev: Event)
    requires cfg.Valid() && Shape(s) && id in s.calls && Active(s.calls[id])
    requires s.calls[id].rest.Asleep? ==> s.calls[id].rest.until <= s.now
    ensures Enabled(cfg, s, ev) && !ev.Tick? && !ev.Arrive?
    ensures ev.id == id || (ev.Resume? && s.calls[ev.id].kind == s.calls[id].kind)
  {
    var c := s.calls[id];
    assert WellStaged(c);
    match c.rest
    case Runnable => ev := Attempt(id, 0, 1);
    case Killed => ev := Resume(id);
    case Denied => ev := Resume(id);
    case Asleep(_) =>
      ev := Wake(id);
      if c.stage == MessageTier && KilledOn(s, c.kind.chat, c.kind.msg) {
        var k :| k in s.calls && Superseded(s.calls[k], c.kind.chat, c.kind.msg);
        ev := Resume(k);
      }
  }

  /** Started empty on such a clock, every call is finished once `maxDeferMs` have passed
    * since it arrived, after at most `maxDeferMs` sleeps. */
  lemma EveryCallFinishes(cfg: Config, start: int, evs: seq<Event>, id: nat)
    requires cfg.Valid() && IsRun(cfg, Init(start), evs) && OnTimeRun(cfg, Init(start), evs)
    requires id in End(cfg, Init(start), evs).calls
    ensures var s := End(cfg, Init(start), evs);
      && s.calls[id].naps <= cfg.maxDeferMs
      && (s.now > s.calls[id].arrived + cfg.maxDeferMs ==> s.calls[id].stage in {Passed, Dropped})
  {
    RunKeepsNaps(cfg, Init(start), evs);
    HoldIsBounded(cfg, Init(start), evs);
    assert NapsOk(cfg, End(cfg, Init(start), evs).now, End(cfg, Init(start), evs).calls[id]);
  }
}
