/** The cosmetic pool bound fails exactly where a late-release budget of 0 meets
  * tightening, which raises that budget's ceiling to 1. */
module FusePoolLimit {
  import opened FuseCeilings
  import opened FuseLog
  import opened FuseProtocol
  import opened FuseRuns
  import opened FuseBursts
  import opened FusePaths

  /** Fair share on, a window of some width, no late-release budget, tightening on. */
  predicate Leaky(cfg: Config) {
    cfg.fairShare && cfg.perChatWindowMs >= 1 && cfg.lateReleaseMax == 0 && cfg.maxTightenLevel >= 1
  }

  // ------------------------------------------------------------------- levels of a run

  ghost predicate AtLevel(evs: seq<Event>, level: nat) {
    forall i :: 0 <= i < |evs| && evs[i].Attempt? ==> evs[i].level == level
  }

  /** The tighten level is 0 up to some point of the run and 1 from there on: one 429. */
  ghost predicate RisesOnce(evs: seq<Event>) {
    exists k :: 0 <= k <= |evs| && AtLevel(evs[..k], 0) && AtLevel(evs[k..], 1)
  }

  /** A stretch without timers, passing of time or tightening. */
  ghost predicate Calm(evs: seq<Event>) {
    Timeless(evs) && AtLevel(evs, 0)
  }

  lemma CalmConcat(a: seq<Event>, b: seq<Event>)
    requires Calm(a) && Calm(b)
    ensures Calm(a + b)
  {
  }

  // ------------------------------------------------------------------- filling the pool

  /** No slot of message `m` was ever taken. */
  ghost predicate Untouched(log: seq<Reservation>, m: int) {
    forall r :: r in log ==> !Charges(r.lane, KFloorOf(7, m)) && !Charges(r.lane, KMessage(7, m))
  }

  ghost predicate NeverLate(log: seq<Reservation>) {
    forall r :: r in log ==> !Charges(r.lane, KLate(7))
  }

  lemma {:induction false} NeverCharged(log: seq<Reservation>, key: Key, cut: int)
    requires forall r :: r in log ==> !Charges(r.lane, key)
    ensures Live(log, key, cut) == []
  {
    if log != [] {
      NeverCharged(log[..|log| - 1], key, cut);
      assert log[|log| - 1] in log;
    }
  }

  /** The pool of chat 7 holds `k` slots: the floor lane filled first, then the remainder
    * lane. Messages above `top` have taken nothing, nor has the late-release budget. */
  ghost predicate PoolHolds(cfg: Config, s: State, top: nat, k: nat) {
    && |Window(cfg, s, KFloorAll(7))| == Min(k, cfg.FloorAggMax())
    && |Window(cfg, s, KRemainder(7))| == k - Min(k, cfg.FloorAggMax())
    && Within(s.log, CosmeticPool(7), s.now - 1, cfg.perChatWindowMs) == k
    && NeverLate(s.log) && forall m :: m > top ==> Untouched(s.log, m)
  }

  /** Calls up to `top` have arrived, each for the message of its number; none but call 0 has
    * a microtask queued, where calls may wait. */
  ghost predicate CallsUpTo(cfg: Config, s: State, top: nat) {
    && Shape(s)
    && (forall id :: id in s.calls ==> id <= top && s.calls[id].kind == Edit(7, id))
    && (cfg.maxDeferMs >= 1 ==> forall id :: id in s.calls && id != 0 ==> !Queued(s.calls[id]))
  }

  /** What filling leaves alone: the clock, call 0 and message 0. */
  ghost predicate LoneKept(s: State, t: State) {
    && t.now == s.now && (0 in t.calls <==> 0 in s.calls) && (0 in s.calls ==> t.calls[0] == s.calls[0])
    && (Untouched(s.log, 0) ==> Untouched(t.log, 0))
  }

  /** A cosmetic frame that has just arrived. */
  ghost predicate Frame(s: State, id: nat, stage: Stage) {
    id in s.calls && s.calls[id] == Call(Edit(7, id), Cosmetic, s.now, stage, Runnable, 0, true)
  }

  lemma FrameArrives(cfg: Config, s: State, id: nat) returns (ev: Event, t: State)
    requires cfg.Valid() && Shape(s) && id !in s.calls
    ensures Leads(cfg, s, ev, t) && ev.Arrive? && Frame(t, id, MessageTier)
    ensures t == s.(calls := s.calls[id := t.calls[id]])
  {
    ev := Arrive(id, Edit(7, id), Cosmetic);
    t := Next(cfg, s, ev);
    StepKeepsShape(cfg, s, ev);
  }

  lemma MessageAdmits(cfg: Config, s: State, id: nat) returns (ev: Event, t: State, r: Reservation)
    requires cfg.Valid() && Leaky(cfg) && cfg.CosmeticPerMessageMax() >= 1
    requires Shape(s) && Frame(s, id, MessageTier) && Untouched(s.log, id)
    ensures Leads(cfg, s, ev, t) && ev == Attempt(id, 0, 1) && MovesOn(s, t, id, ChatTier, r)
    ensures r.at == s.now && r.lane == Single(KMessage(7, id))
  {
    ev := Attempt(id, 0, 1);
    t := Next(cfg, s, ev);
    NeverCharged(s.log, KMessage(7, id), s.now - cfg.perMessageWindowMs);
    assert TierMax(cfg, s.calls[id], 0) >= 1;
    assert Try(cfg, s, s.calls[id], 0, 1) == Admit(Single(KMessage(7, id)));
    r := Taken(s, id, Single(KMessage(7, id)), false, 0);
    StepKeepsShape(cfg, s, ev);
  }

  /** A message without slots enters the pool while the pool has room. */
  lemma PoolAdmits(cfg: Config, s: State, id: nat, top: nat, k: nat) returns (ev: Event, t: State, r: Reservation)
    requires cfg.Valid() && Leaky(cfg) && Shape(s) && Frame(s, id, ChatTier) && k < cfg.CosmeticPerChatMax()
    requires PoolHolds(cfg, s, top, k) && (forall r :: r in s.log ==> !Charges(r.lane, KFloorOf(7, id)))
    ensures Leads(cfg, s, ev, t) && ev == Attempt(id, 0, 1) && MovesOn(s, t, id, TotalTier, r)
    ensures r.at == s.now && r.lane == if k < cfg.FloorAggMax() then Floor(7, id) else Single(KRemainder(7))
  {
    ev := Attempt(id, 0, 1);
    t := Next(cfg, s, ev);
    var lane := if k < cfg.FloorAggMax() then Floor(7, id) else Single(KRemainder(7));
    NeverCharged(s.log, KFloorOf(7, id), s.now - cfg.perChatWindowMs);
    assert k < cfg.FloorAggMax() ==> cfg.FloorPerWindow() > 0;
    assert Try(cfg, s, s.calls[id], 0, 1) == Admit(lane);
    r := Taken(s, id, lane, false, 0);
    StepKeepsShape(cfg, s, ev);
  }

  /** A slot of the shared or token window, or of the message `above`, taken now. */
  ghost predicate OutsidePool(r: Reservation, above: nat) {
    r.lane.Single? && (r.lane.key.KTotal? || r.lane.key.KToken? || r.lane == Single(KMessage(7, above)))
  }

  lemma UntouchedPush(log: seq<Reservation>, r: Reservation, m: int)
    requires Untouched(log, m) && !Charges(r.lane, KFloorOf(7, m)) && !Charges(r.lane, KMessage(7, m))
    ensures Untouched(log + [r], m)
  {
  }

  /** It leaves the pool as it was. */
  lemma OtherSlot(cfg: Config, s: State, t: State, r: Reservation, top: nat, k: nat, above: nat)
    requires PoolHolds(cfg, s, top, k) && t.log == s.log + [r] && t.now == s.now == r.at
    requires OutsidePool(r, above) && (top <= above || above == 0)
    ensures PoolHolds(cfg, t, Max(top, above), k)
  {
    WindowGrows(cfg, s, t, r, KFloorAll(7));
    WindowGrows(cfg, s, t, r, KRemainder(7));
    WithinAppend(s.log, r, CosmeticPool(7), s.now - 1, cfg.perChatWindowMs);
    forall m | m > Max(top, above)
      ensures Untouched(t.log, m)
    {
      assert Untouched(s.log, m);
      UntouchedPush(s.log, r, m);
    }
  }

  lemma PoolSlot(cfg: Config, s: State, t: State, r: Reservation, top: nat, k: nat)
    requires PoolHolds(cfg, s, top, k) && t.log == s.log + [r] && t.now == s.now == r.at
    requires cfg.perChatWindowMs >= 1 && k < cfg.CosmeticPerChatMax()
    requires r.lane == if k < cfg.FloorAggMax() then Floor(7, top) else Single(KRemainder(7))
    ensures PoolHolds(cfg, t, top, k + 1)
  {
    WindowGrows(cfg, s, t, r, KFloorAll(7));
    WindowGrows(cfg, s, t, r, KRemainder(7));
    WithinAppend(s.log, r, CosmeticPool(7), s.now - 1, cfg.perChatWindowMs);
    forall m | m > top
      ensures Untouched(t.log, m)
    {
      assert Untouched(s.log, m);
      UntouchedPush(s.log, r, m);
    }
  }

  // ------------------------------------------------------------- settling a frame

  /** A frame past the pool passes its tier or sleeps there: its deadline is still to come. */
  lemma PassesOrSleeps(cfg: Config, s: State, id: nat, stage: Stage) returns (ev: Event, t: State, r: Reservation)
    requires cfg.Valid() && cfg.maxDeferMs >= 1 && Shape(s) && Frame(s, id, stage)
    requires stage == TotalTier || stage == TokenTier
    ensures Leads(cfg, s, ev, t) && ev == Attempt(id, 0, 1) && t.now == s.now
    ensures id in t.calls && t.calls == s.calls[id := t.calls[id]] && t.calls[id].kind == s.calls[id].kind
    ensures !Queued(t.calls[id]) || (stage == TotalTier && Frame(t, id, TokenTier))
    ensures t.log == s.log || (t.log == s.log + [r] && r.at == s.now && OutsidePool(r, 0) && !r.lane.key.KMessage?)
  {
    ev := Attempt(id, 0, 1);
    t := Next(cfg, s, ev);
    StepKeepsShape(cfg, s, ev);
    var lane := Single(if stage == TotalTier then KTotal(7) else KToken);
    r := Taken(s, id, lane, false, 0);
    var o := Try(cfg, s, s.calls[id], 0, 1);
    assert o == Admit(lane) || o.Nap?;
  }

  /** Whatever it takes there is outside the pool. */
  lemma PoolStays(cfg: Config, s: State, t: State, r: Reservation, top: nat, k: nat)
    requires PoolHolds(cfg, s, top, k) && t.now == s.now
    requires t.log == s.log || (t.log == s.log + [r] && r.at == s.now && OutsidePool(r, 0) && !r.lane.key.KMessage?)
    ensures PoolHolds(cfg, t, top, k) && forall m :: Untouched(s.log, m) ==> Untouched(t.log, m)
  {
    if t.log != s.log {
      OtherSlot(cfg, s, t, r, top, k, 0);
      forall m | Untouched(s.log, m)
        ensures Untouched(t.log, m)
      {
        UntouchedPush(s.log, r, m);
      }
    }
  }

  lemma Settles(cfg: Config, s: State, id: nat, top: nat, k: nat) returns (evs: seq<Event>)
    requires cfg.Valid() && cfg.maxDeferMs >= 1 && Shape(s) && Frame(s, id, TotalTier) && PoolHolds(cfg, s, top, k)
    ensures IsRun(cfg, s, evs) && Calm(evs)
    ensures var t := End(cfg, s, evs);
      && Shape(t) && t.now == s.now && PoolHolds(cfg, t, top, k) && id in t.calls
      && t.calls == s.calls[id := t.calls[id]] && t.calls[id].kind == s.calls[id].kind && !Queued(t.calls[id])
      && forall m :: Untouched(s.log, m) ==> Untouched(t.log, m)
  {
    var e, t, r := PassesOrSleeps(cfg, s, id, TotalTier);
    PoolStays(cfg, s, t, r, top, k);
    if Queued(t.calls[id]) {
      var f, u, q := PassesOrSleeps(cfg, t, id, TokenTier);
      PoolStays(cfg, t, u, q, top, k);
      TwoLead(cfg, s, e, t, f, u);
      evs := [e, f];
    } else {
      OneLeads(cfg, s, e, t);
      evs := [e];
    }
  }

  // ---------------------------------------------------------------------- one more frame

  /** A frame `id` between its message tier and the pool, with `k` slots in the pool. */
  ghost predicate AtPool(cfg: Config, s: State, t: State, id: nat, top: nat, k: nat) {
    && Shape(t) && PoolHolds(cfg, t, top, k) && Frame(t, id, ChatTier)
    && t.calls == s.calls[id := t.calls[id]] && t.now == s.now
    && forall r :: r in t.log ==> !Charges(r.lane, KFloorOf(7, id))
  }

  lemma ArrivesAfter(cfg: Config, s: State, t: State, u: State, r: Reservation, id: nat, top: nat, k: nat)
    requires PoolHolds(cfg, s, top, k) && Untouched(s.log, id) && (id == 0 || id == top + 1)
    requires id in t.calls && t == s.(calls := s.calls[id := t.calls[id]]) && Frame(t, id, MessageTier)
    requires MovesOn(t, u, id, ChatTier, r) && r.at == s.now && r.lane == Single(KMessage(7, id)) && Shape(u)
    ensures AtPool(cfg, s, u, id, Max(top, id), k)
    ensures id != 0 ==> LoneKept(s, u)
  {
    assert PoolHolds(cfg, t, top, k);
    OtherSlot(cfg, t, u, r, top, k, id);
    if id != 0 && Untouched(s.log, 0) {
      UntouchedPush(s.log, r, 0);
    }
  }

  /** The frame of message `id` arrives and passes its message tier. */
  lemma Arrives(cfg: Config, s: State, id: nat, top: nat, k: nat) returns (evs: seq<Event>)
    requires cfg.Valid() && Leaky(cfg) && cfg.CosmeticPerMessageMax() >= 1
    requires Shape(s) && PoolHolds(cfg, s, top, k) && Untouched(s.log, id)
    requires id !in s.calls && (id == 0 || id == top + 1)
    ensures IsRun(cfg, s, evs) && Calm(evs) && AtPool(cfg, s, End(cfg, s, evs), id, Max(top, id), k)
    ensures id != 0 ==> LoneKept(s, End(cfg, s, evs))
  {
    var e, t := FrameArrives(cfg, s, id);
    var f, u, r := MessageAdmits(cfg, t, id);
    ArrivesAfter(cfg, s, t, u, r, id, top, k);
    TwoLead(cfg, s, e, t, f, u);
    evs := [e, f];
  }

  /** A frame that has entered the pool. */
  ghost predicate InPool(cfg: Config, s: State, t: State, id: nat, k: nat) {
    && Shape(t) && PoolHolds(cfg, t, id, k) && Frame(t, id, TotalTier)
    && t.calls == s.calls[id := t.calls[id]] && LoneKept(s, t)
  }

  lemma EntersAfter(cfg: Config, s: State, u: State, v: State, q: Reservation, id: nat, k: nat)
    requires AtPool(cfg, s, u, id, id, k) && LoneKept(s, u) && id > 0 && Shape(v)
    requires cfg.perChatWindowMs >= 1 && k < cfg.CosmeticPerChatMax()
    requires MovesOn(u, v, id, TotalTier, q) && q.at == u.now
    requires q.lane == if k < cfg.FloorAggMax() then Floor(7, id) else Single(KRemainder(7))
    ensures InPool(cfg, s, v, id, k + 1)
  {
    PoolSlot(cfg, u, v, q, id, k);
    if Untouched(u.log, 0) {
      UntouchedPush(u.log, q, 0);
    }
  }

  /** The frame of message `top + 1` arrives and enters the pool. */
  lemma Enters(cfg: Config, s: State, top: nat, k: nat) returns (evs: seq<Event>)
    requires cfg.Valid() && Leaky(cfg) && cfg.CosmeticPerMessageMax() >= 1 && k < cfg.CosmeticPerChatMax()
    requires CallsUpTo(cfg, s, top) && PoolHolds(cfg, s, top, k)
    ensures IsRun(cfg, s, evs) && Calm(evs) && InPool(cfg, s, End(cfg, s, evs), top + 1, k + 1)
  {
    assert Untouched(s.log, top + 1);
    var first := Arrives(cfg, s, top + 1, top, k);
    var u := End(cfg, s, first);
    var g, v, q := PoolAdmits(cfg, u, top + 1, top + 1, k);
    EntersAfter(cfg, s, u, v, q, top + 1, k);
    OneLeads(cfg, u, g, v);
    Onward(cfg, s, first, [g]);
    CalmConcat(first, [g]);
    evs := first + [g];
  }

  lemma CallsGrow(cfg: Config, s: State, t: State, top: nat)
    requires CallsUpTo(cfg, s, top) && Shape(t) && top + 1 in t.calls && t.calls == s.calls[top + 1 := t.calls[top + 1]]
    requires t.calls[top + 1].kind == Edit(7, top + 1) && (cfg.maxDeferMs >= 1 ==> !Queued(t.calls[top + 1]))
    ensures CallsUpTo(cfg, t, top + 1)
  {
  }

  lemma FillStep(cfg: Config, s: State, top: nat, k: nat) returns (evs: seq<Event>)
    requires cfg.Valid() && Leaky(cfg) && cfg.CosmeticPerMessageMax() >= 1 && k < cfg.CosmeticPerChatMax()
    requires CallsUpTo(cfg, s, top) && PoolHolds(cfg, s, top, k)
    ensures IsRun(cfg, s, evs) && Calm(evs)
    ensures var t := End(cfg, s, evs);
      CallsUpTo(cfg, t, top + 1) && PoolHolds(cfg, t, top + 1, k + 1) && LoneKept(s, t)
  {
    var first := Enters(cfg, s, top, k);
    var t := End(cfg, s, first);
    var more := SettlesIfNeeded(cfg, s, t, top, k);
    Onward(cfg, s, first, more);
    CalmConcat(first, more);
    evs := first + more;
    CallsGrow(cfg, s, End(cfg, t, more), top);
  }

  lemma SettlesIfNeeded(cfg: Config, s: State, t: State, top: nat, k: nat) returns (evs: seq<Event>)
    requires cfg.Valid() && InPool(cfg, s, t, top + 1, k + 1)
    ensures IsRun(cfg, t, evs) && Calm(evs)
    ensures var u := End(cfg, t, evs);
      && Shape(u) && PoolHolds(cfg, u, top + 1, k + 1) && LoneKept(s, u) && top + 1 in u.calls
      && u.calls == s.calls[top + 1 := u.calls[top + 1]] && u.calls[top + 1].kind == Edit(7, top + 1)
      && (cfg.maxDeferMs >= 1 ==> !Queued(u.calls[top + 1]))
  {
    evs := [];
    if cfg.maxDeferMs >= 1 {
      evs := Settles(cfg, t, top + 1, top + 1, k + 1);
    }
  }

  /** `k` frames fill the pool as far. */
  lemma {:induction false} Fills(cfg: Config, s: State, top: nat, k: nat) returns (evs: seq<Event>)
    requires cfg.Valid() && Leaky(cfg) && cfg.CosmeticPerMessageMax() >= 1 && k <= cfg.CosmeticPerChatMax()
    requires CallsUpTo(cfg, s, top) && PoolHolds(cfg, s, top, 0)
    ensures IsRun(cfg, s, evs) && Calm(evs)
    ensures var t := End(cfg, s, evs);
      CallsUpTo(cfg, t, top + k) && PoolHolds(cfg, t, top + k, k) && LoneKept(s, t)
  {
    if k == 0 {
      evs := [];
    } else {
      var first := Fills(cfg, s, top, k - 1);
      var more := FillStep(cfg, End(cfg, s, first), top + k - 1, k - 1);
      Onward(cfg, s, first, more);
      CalmConcat(first, more);
      evs := first + more;
    }
  }

  // ------------------------------------------------------------------- the lone frame

  /** Call 0 has passed the message tier; the pool is full. */
  ghost predicate LoneBefore(cfg: Config, s: State, top: nat) {
    && CallsUpTo(cfg, s, top) && PoolHolds(cfg, s, top, cfg.CosmeticPerChatMax()) && 0 in s.calls
    && s.calls[0].cls == Cosmetic && s.calls[0].stage == ChatTier && s.calls[0].counted
  }

  lemma LoneArrives(cfg: Config, s: State, top: nat) returns (evs: seq<Event>)
    requires cfg.Valid() && Leaky(cfg) && cfg.CosmeticPerMessageMax() >= 1
    requires CallsUpTo(cfg, s, top) && PoolHolds(cfg, s, top, cfg.CosmeticPerChatMax())
    requires 0 !in s.calls && Untouched(s.log, 0)
    ensures IsRun(cfg, s, evs) && Calm(evs)
    ensures var t := End(cfg, s, evs); LoneBefore(cfg, t, top) && Frame(t, 0, ChatTier) && t.now == s.now
  {
    evs := Arrives(cfg, s, 0, top, cfg.CosmeticPerChatMax());
    LoneAfter(cfg, s, End(cfg, s, evs), top);
  }

  lemma LoneAfter(cfg: Config, s: State, t: State, top: nat)
    requires CallsUpTo(cfg, s, top) && AtPool(cfg, s, t, 0, Max(top, 0), cfg.CosmeticPerChatMax())
    ensures LoneBefore(cfg, t, top)
  {
  }

  lemma LoneNaps(cfg: Config, s: State, top: nat)
    requires cfg.Valid() && Leaky(cfg) && cfg.maxDeferMs >= 1 && LoneBefore(cfg, s, top) && Frame(s, 0, ChatTier)
    ensures WellStaged(s.calls[0]) && Try(cfg, s, s.calls[0], 0, 1) == Nap(1)
  {
    PoolIsFull(cfg, s, top, 0);
  }

  /** Before its deadline the lone frame sleeps at the chat tier. */
  lemma LoneSleeps(cfg: Config, s: State, top: nat) returns (evs: seq<Event>)
    requires cfg.Valid() && Leaky(cfg) && cfg.maxDeferMs >= 1 && LoneBefore(cfg, s, top) && Frame(s, 0, ChatTier)
    ensures IsRun(cfg, s, evs) && Calm(evs)
    ensures var t := End(cfg, s, evs);
      && CallsUpTo(cfg, t, top) && t.log == s.log && t.now == s.now
      && 0 in t.calls && t.calls[0] == s.calls[0].(rest := Asleep(s.now + 1), naps := 1)
  {
    var ev, t := LoneGoesToSleep(cfg, s, top);
    LoneChanges(cfg, s, t, top);
    OneLeads(cfg, s, ev, t);
    evs := [ev];
  }

  lemma LoneGoesToSleep(cfg: Config, s: State, top: nat) returns (ev: Event, t: State)
    requires cfg.Valid() && Leaky(cfg) && cfg.maxDeferMs >= 1 && LoneBefore(cfg, s, top) && Frame(s, 0, ChatTier)
    ensures Leads(cfg, s, ev, t) && ev == Attempt(0, 0, 1)
    ensures t == s.(calls := s.calls[0 := s.calls[0].(rest := Asleep(s.now + 1), naps := 1)])
  {
    ev := Attempt(0, 0, 1);
    LoneNaps(cfg, s, top);
    t := Next(cfg, s, ev);
    StepKeepsShape(cfg, s, ev);
  }

  /** A change of call 0 alone. */
  lemma LoneChanges(cfg: Config, s: State, t: State, top: nat)
    requires CallsUpTo(cfg, s, top) && Shape(t) && 0 in s.calls && 0 in t.calls
    requires t.calls == s.calls[0 := t.calls[0]] && t.calls[0].kind == s.calls[0].kind
    ensures CallsUpTo(cfg, t, top)
  {
  }

  /** At neither level does a full pool have room in either lane. */
  lemma PoolIsFull(cfg: Config, s: State, top: nat, level: nat)
    requires cfg.Valid() && PoolHolds(cfg, s, top, cfg.CosmeticPerChatMax())
    ensures Wait(cfg, s, KFloorAll(7), cfg.FloorAggMax()) > 0
    ensures Wait(cfg, s, KRemainder(7), RemainderCap(cfg, level)) > 0
  {
    CeilingInRange(cfg, cfg.RemainderMax(), 0, level);
  }

  /** Past its deadline, at level 1, it is released late: the empty budget has a ceiling of 1
    * there. */
  lemma LoneOutcome(cfg: Config, s: State, top: nat, lane: Lane)
    requires cfg.Valid() && Leaky(cfg) && LoneBefore(cfg, s, top) && s.calls[0].rest.Runnable?
    requires s.now >= s.calls[0].arrived + cfg.maxDeferMs
    requires lane == if cfg.RemainderMax() > 0 then Single(KRemainder(7)) else Floor(7, 0)
    ensures WellStaged(s.calls[0]) && Try(cfg, s, s.calls[0], 1, 1) == ReleasePaid(lane)
  {
    assert InFlight(s, 7, 0) == {0};
    PoolIsFull(cfg, s, top, 1);
    CeilingInRange(cfg, 0, 0, 1);
    NeverCharged(s.log, KLate(7), s.now - cfg.perChatWindowMs);
    assert !LateBudgetSpent(cfg, s, 7, 1);
  }

  lemma LoneReleased(cfg: Config, s: State, top: nat) returns (evs: seq<Event>)
    requires cfg.Valid() && Leaky(cfg) && LoneBefore(cfg, s, top) && s.calls[0].rest.Runnable?
    requires s.now >= s.calls[0].arrived + cfg.maxDeferMs
    ensures IsRun(cfg, s, evs) && Timeless(evs) && AtLevel(evs, 1)
    ensures Within(End(cfg, s, evs).log, CosmeticPool(7), s.now - 1, cfg.perChatWindowMs)
         == cfg.CosmeticPerChatMax() + 1
  {
    var lane := if cfg.RemainderMax() > 0 then Single(KRemainder(7)) else Floor(7, 0);
    LoneOutcome(cfg, s, top, lane);
    var ev := Attempt(0, 1, 1);
    var t := Next(cfg, s, ev);
    StepKeepsShape(cfg, s, ev);
    var charge, r := Taken(s, 0, Single(KLate(7)), true, 1), Taken(s, 0, lane, true, 1);
    assert t.log == s.log + [charge] + [r];
    WithinAppend(s.log, charge, CosmeticPool(7), s.now - 1, cfg.perChatWindowMs);
    WithinAppend(s.log + [charge], r, CosmeticPool(7), s.now - 1, cfg.perChatWindowMs);
    OneLeads(cfg, s, ev, t);
    evs := [ev];
  }

  // ------------------------------------------------------------------ time passes

  lemma {:induction false} AllExpired(log: seq<Reservation>, key: Key, cut: int)
    requires forall i :: 0 <= i < |log| ==> log[i].at <= cut
    ensures Live(log, key, cut) == []
  {
    if log != [] {
      AllExpired(log[..|log| - 1], key, cut);
    }
  }

  lemma {:induction false} NoneSince(log: seq<Reservation>, sel: Sel, lo: int, width: nat)
    requires forall i :: 0 <= i < |log| ==> log[i].at <= lo
    ensures Within(log, sel, lo, width) == 0
  {
    if log != [] {
      NoneSince(log[..|log| - 1], sel, lo, width);
    }
  }

  /** Past the deadline and the window, the pool is empty again and the lone frame asleep. */
  lemma PoolEmpties(cfg: Config, s: State, t: State, top: nat)
    requires cfg.perChatWindowMs >= 1 && cfg.maxDeferMs >= 1 && Chronological(s.log, s.now)
    requires NeverLate(s.log) && forall m :: m > top ==> Untouched(s.log, m)
    requires t == s.(now := s.now + cfg.maxDeferMs + cfg.perChatWindowMs)
    ensures PoolHolds(cfg, t, top, 0)
  {
    AllBefore(s.log, s.now);
    AllExpired(t.log, KFloorAll(7), t.now - cfg.perChatWindowMs);
    AllExpired(t.log, KRemainder(7), t.now - cfg.perChatWindowMs);
    NoneSince(t.log, CosmeticPool(7), t.now - 1, cfg.perChatWindowMs);
  }

  /** A step that is prompt. */
  lemma PromptStep(cfg: Config, s: State, ev: Event) returns (evs: seq<Event>)
    requires cfg.Valid() && Shape(s) && Enabled(cfg, s, ev) && Prompt(s, ev) && !ev.Attempt?
    ensures IsRun(cfg, s, evs) && PromptRun(cfg, s, evs) && AtLevel(evs, 0) && End(cfg, s, evs) == Next(cfg, s, ev)
    ensures Shape(End(cfg, s, evs))
  {
    StepKeepsShape(cfg, s, ev);
    OneLeads(cfg, s, ev, Next(cfg, s, ev));
    evs := [ev];
    assert evs[1..] == [];
  }

  // ---------------------------------------------------------------------- the whole run

  /** A prompt run at level 0. */
  ghost predicate Level0(cfg: Config, s: State, evs: seq<Event>)
    requires cfg.Valid() && Shape(s)
  {
    IsRun(cfg, s, evs) && PromptRun(cfg, s, evs) && AtLevel(evs, 0)
  }

  lemma CalmIsLevel0(cfg: Config, s: State, evs: seq<Event>)
    requires cfg.Valid() && Shape(s) && IsRun(cfg, s, evs) && Calm(evs)
    ensures Level0(cfg, s, evs)
  {
    TimelessIsPrompt(cfg, s, evs);
  }

  lemma Level0Onward(cfg: Config, s: State, evs: seq<Event>, more: seq<Event>)
    requires cfg.Valid() && Shape(s) && Level0(cfg, s, evs) && Level0(cfg, End(cfg, s, evs), more)
    ensures Level0(cfg, s, evs + more) && End(cfg, s, evs + more) == End(cfg, End(cfg, s, evs), more)
  {
    Onward(cfg, s, evs, more);
    OnwardPrompt(cfg, s, evs, more);
  }

  /** The pool is filled at once, and then the lone frame comes. */
  lemma FillsThenLone(cfg: Config) returns (evs: seq<Event>)
    requires cfg.Valid() && Leaky(cfg) && cfg.CosmeticPerMessageMax() >= 1
    ensures Level0(cfg, Init(0), evs)
    ensures var t := End(cfg, Init(0), evs);
      LoneBefore(cfg, t, cfg.CosmeticPerChatMax()) && Frame(t, 0, ChatTier) && t.now == 0
  {
    var p := cfg.CosmeticPerChatMax();
    assert PoolHolds(cfg, Init(0), 0, 0);
    var first := Fills(cfg, Init(0), 0, p);
    CalmIsLevel0(cfg, Init(0), first);
    var s := End(cfg, Init(0), first);
    var more := LoneArrives(cfg, s, p);
    CalmIsLevel0(cfg, s, more);
    Level0Onward(cfg, Init(0), first, more);
    evs := first + more;
  }

  /** The lone frame sleeps until past its deadline, and its timer is late. */
  lemma SleepsPast(cfg: Config, s: State, top: nat) returns (evs: seq<Event>)
    requires cfg.Valid() && Leaky(cfg) && cfg.maxDeferMs >= 1
    requires Chronological(s.log, s.now) && LoneBefore(cfg, s, top) && Frame(s, 0, ChatTier)
    ensures Level0(cfg, s, evs)
    ensures var t := End(cfg, s, evs);
      && CallsUpTo(cfg, t, top) && PoolHolds(cfg, t, top, 0) && 0 in t.calls
      && t.now == s.now + cfg.maxDeferMs + cfg.perChatWindowMs
      && t.calls[0] == s.calls[0].(rest := Asleep(s.now + 1), naps := 1)
  {
    var first := LoneSleeps(cfg, s, top);
    CalmIsLevel0(cfg, s, first);
    var t := End(cfg, s, first);
    var more := PromptStep(cfg, t, Tick(cfg.maxDeferMs + cfg.perChatWindowMs));
    Level0Onward(cfg, s, first, more);
    evs := first + more;
    PoolEmpties(cfg, t, End(cfg, t, more), top);
  }

  /** Before that timer fires, new frames refill the pool; then it fires. */
  lemma RefillsThenWakes(cfg: Config, s: State, top: nat) returns (evs: seq<Event>)
    requires cfg.Valid() && Leaky(cfg) && cfg.CosmeticPerMessageMax() >= 1 && cfg.maxDeferMs >= 1
    requires CallsUpTo(cfg, s, top) && PoolHolds(cfg, s, top, 0) && 0 in s.calls
    requires s.calls[0].cls == Cosmetic && s.calls[0].stage == ChatTier && s.calls[0].counted
    requires s.calls[0].rest.Asleep? && s.calls[0].rest.until <= s.now
    ensures Level0(cfg, s, evs)
    ensures var t := End(cfg, s, evs);
      && LoneBefore(cfg, t, top + cfg.CosmeticPerChatMax()) && t.now == s.now
      && t.calls[0] == s.calls[0].(rest := Runnable)
  {
    var p := cfg.CosmeticPerChatMax();
    var first := Fills(cfg, s, top, p);
    CalmIsLevel0(cfg, s, first);
    var more := LoneWakes(cfg, End(cfg, s, first), top + p);
    Level0Onward(cfg, s, first, more);
    evs := first + more;
  }

  lemma LoneWakes(cfg: Config, s: State, top: nat) returns (evs: seq<Event>)
    requires cfg.Valid() && cfg.maxDeferMs >= 1 && LoneBefore(cfg, s, top)
    requires s.calls[0].rest.Asleep? && s.calls[0].rest.until <= s.now
    ensures Level0(cfg, s, evs)
    ensures var t := End(cfg, s, evs);
      LoneBefore(cfg, t, top) && t.now == s.now && t.calls[0] == s.calls[0].(rest := Runnable)
  {
    evs := PromptStep(cfg, s, Wake(0));
    WakeResult(cfg, s);
    WakeAfter(cfg, s, End(cfg, s, evs), top);
  }

  lemma WakeAfter(cfg: Config, s: State, t: State, top: nat)
    requires LoneBefore(cfg, s, top) && t == s.(calls := s.calls[0 := s.calls[0].(rest := Runnable)]) && Shape(t)
    ensures LoneBefore(cfg, t, top)
  {
    LoneChanges(cfg, s, t, top);
  }

  lemma WakeResult(cfg: Config, s: State)
    requires cfg.Valid() && Shape(s) && Enabled(cfg, s, Wake(0)) && s.calls[0].stage == ChatTier
    ensures Next(cfg, s, Wake(0)) == s.(calls := s.calls[0 := s.calls[0].(rest := Runnable)])
  {
  }

  /** At level 0 throughout, the lone frame comes to its deadline with the pool full. */
  lemma LonePastDeadline(cfg: Config) returns (evs: seq<Event>, top: nat)
    requires cfg.Valid() && Leaky(cfg) && cfg.CosmeticPerMessageMax() >= 1
    ensures Level0(cfg, Init(0), evs)
    ensures var s := End(cfg, Init(0), evs);
      && LoneBefore(cfg, s, top) && s.calls[0].rest.Runnable? && s.now >= s.calls[0].arrived + cfg.maxDeferMs
  {
    evs := FillsThenLone(cfg);
    top := cfg.CosmeticPerChatMax();
    if cfg.maxDeferMs >= 1 {
      var s := End(cfg, Init(0), evs);
      InitInv(cfg, 0);
      RunKeepsInv(cfg, Init(0), evs);
      var more := SleepsPast(cfg, s, top);
      var t := End(cfg, s, more);
      var last := RefillsThenWakes(cfg, t, top);
      Level0Onward(cfg, s, more, last);
      Level0Onward(cfg, Init(0), evs, more + last);
      evs, top := evs + (more + last), top + cfg.CosmeticPerChatMax();
    }
  }

  /** In every such configuration that lets a cosmetic edit pass its message tier at all, some
    * run of the event loop, the level rising once, exceeds the pool plus the empty budget. */
  lemma ZeroBudgetLeaks(cfg: Config) returns (evs: seq<Event>, lo: int)
    requires cfg.Valid() && Leaky(cfg) && cfg.CosmeticPerMessageMax() >= 1
    ensures IsRun(cfg, Init(0), evs) && PromptRun(cfg, Init(0), evs) && RisesOnce(evs)
    ensures Within(End(cfg, Init(0), evs).log, CosmeticPool(7), lo, cfg.perChatWindowMs)
          > cfg.CosmeticPerChatMax() + cfg.lateReleaseMax
  {
    var first, top := LonePastDeadline(cfg);
    var s := End(cfg, Init(0), first);
    var last := LoneReleased(cfg, s, top);
    TimelessIsPrompt(cfg, s, last);
    Onward(cfg, Init(0), first, last);
    OnwardPrompt(cfg, Init(0), first, last);
    evs, lo := first + last, s.now - 1;
    assert evs[..|first|] == first && evs[|first|..] == last;
  }

  // ------------------------------------------------------------------- the exact condition

  ghost predicate WithinPool(cfg: Config, start: int, evs: seq<Event>, chat: int, lo: int)
    requires cfg.Valid() && IsRun(cfg, Init(start), evs)
  {
    Within(End(cfg, Init(start), evs).log, CosmeticPool(chat), lo, cfg.perChatWindowMs)
      <= cfg.CosmeticPerChatMax() + cfg.lateReleaseMax
  }

  /** Pool plus budget bounds every span of every run, on any clock and at any levels. */
  ghost predicate PoolIsBound(cfg: Config)
    requires cfg.Valid()
  {
    forall start, evs, chat, lo | IsRun(cfg, Init(start), evs) :: WithinPool(cfg, start, evs, chat, lo)
  }

  /** It does so in the runs of the event loop in which the level rises once. */
  ghost predicate PoolIsBoundInLoop(cfg: Config)
    requires cfg.Valid()
  {
    forall start, evs, chat, lo
      | IsRun(cfg, Init(start), evs) && PromptRun(cfg, Init(start), evs) && RisesOnce(evs)
      :: WithinPool(cfg, start, evs, chat, lo)
  }

  /** With fair share on and a window of some width, pool plus budget is a bound, in all runs
    * or in those of the event loop, if and only if the budget is at least 1 or tightening is
    * off. */
  lemma PoolBoundExact(cfg: Config)
    requires cfg.Valid() && cfg.fairShare && cfg.perChatWindowMs >= 1
    ensures cfg.lateReleaseMax >= 1 || cfg.maxTightenLevel == 0 ==> PoolIsBound(cfg) && PoolIsBoundInLoop(cfg)
    ensures cfg.CosmeticPerMessageMax() >= 1 && (PoolIsBound(cfg) || PoolIsBoundInLoop(cfg)) ==>
      cfg.lateReleaseMax >= 1 || cfg.maxTightenLevel == 0
  {
    if cfg.lateReleaseMax >= 1 || cfg.maxTightenLevel == 0 {
      forall start, evs, chat, lo | IsRun(cfg, Init(start), evs)
        ensures WithinPool(cfg, start, evs, chat, lo)
      {
        CosmeticPoolBound(cfg, start, evs, chat, lo);
      }
    } else if cfg.CosmeticPerMessageMax() >= 1 {
      var evs, lo := ZeroBudgetLeaks(cfg);
      assert !WithinPool(cfg, 0, evs, 7, lo);
    }
  }
}
