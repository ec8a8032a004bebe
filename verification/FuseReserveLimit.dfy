/** Chat actions tagged with another class than cosmetic draw on the replies' reserve, and
  * nothing else does: the condition on the reserve is exact. */
module FuseReserveLimit {
  import opened FuseCeilings
  import opened FuseGrades
  import opened FuseLog
  import opened FuseProtocol
  import opened FuseRuns
  import opened FusePaths

  /** The shared window of chat 7 holds `k` slots, all of useful chat actions. */
  ghost predicate Filled(cfg: Config, s: State, k: nat) {
    && Shape(s) && s.now == 0 && |Window(cfg, s, KTotal(7))| == k
    && (forall id :: id in s.calls ==> id <= k)
    && (forall r :: r in s.log ==> !r.sheddable && r.action)
  }

  lemma ActionArrives(cfg: Config, s: State, id: nat) returns (ev: Event, t: State)
    requires cfg.Valid() && Shape(s) && id !in s.calls
    ensures Leads(cfg, s, ev, t) && id in t.calls && t == s.(calls := s.calls[id := t.calls[id]])
    ensures t.calls[id] == Call(ChatAction(7), Useful, s.now, TotalTier, Runnable, 0, false)
  {
    ev := Arrive(id, ChatAction(7), Useful);
    t := Next(cfg, s, ev);
    StepKeepsShape(cfg, s, ev);
  }

  lemma ActionAdmitted(cfg: Config, s: State, id: nat) returns (ev: Event, t: State, r: Reservation)
    requires cfg.Valid() && Shape(s) && id in s.calls
    requires s.calls[id] == Call(ChatAction(7), Useful, s.now, TotalTier, Runnable, 0, false)
    requires |Window(cfg, s, KTotal(7))| < cfg.perChatTotalMax
    ensures Leads(cfg, s, ev, t) && MovesOn(s, t, id, TokenTier, r)
    ensures r.at == s.now && r.lane == Single(KTotal(7)) && !r.sheddable && r.action
  {
    ev := Attempt(id, 0, 1);
    t := Next(cfg, s, ev);
    assert TierMax(cfg, s.calls[id], 0) == cfg.perChatTotalMax;
    assert Try(cfg, s, s.calls[id], 0, 1) == Admit(Single(KTotal(7)));
    r := Taken(s, id, Single(KTotal(7)), false, 0);
    StepKeepsShape(cfg, s, ev);
  }

  lemma FillStep(cfg: Config, s: State, k: nat) returns (evs: seq<Event>)
    requires cfg.Valid() && cfg.perChatWindowMs >= 1 && Filled(cfg, s, k) && k < cfg.perChatTotalMax
    ensures IsRun(cfg, s, evs) && Filled(cfg, End(cfg, s, evs), k + 1)
  {
    var e, t := ActionArrives(cfg, s, k + 1);
    assert Window(cfg, t, KTotal(7)) == Window(cfg, s, KTotal(7));
    var f, u, r := ActionAdmitted(cfg, t, k + 1);
    WindowGrows(cfg, t, u, r, KTotal(7));
    TwoLead(cfg, s, e, t, f, u);
    evs := [e, f];
  }

  lemma {:induction false} FillTotal(cfg: Config, k: nat) returns (evs: seq<Event>)
    requires cfg.Valid() && cfg.perChatWindowMs >= 1 && k <= cfg.perChatTotalMax
    ensures IsRun(cfg, Init(0), evs) && Filled(cfg, End(cfg, Init(0), evs), k)
  {
    if k == 0 {
      evs := [];
    } else {
      var first := FillTotal(cfg, k - 1);
      var more := FillStep(cfg, End(cfg, Init(0), first), k - 1);
      Onward(cfg, Init(0), first, more);
      evs := first + more;
    }
  }

  lemma {:induction false} NoReplies(log: seq<Reservation>, lo: int, width: nat)
    requires forall r :: r in log ==> !r.sheddable && r.action
    ensures Within(log, Replies(7), lo, width) == 0 && Within(log, Sheddable(7), lo, width) == 0
  {
    if log != [] {
      NoReplies(log[..|log| - 1], lo, width);
    }
  }

  /** In every configuration some run makes a useful call wait at the shared tier, at level 0
    * throughout, although not one slot of the window went to anything but chat actions. */
  lemma TaggedActionsEatReserve(cfg: Config) returns (evs: seq<Event>)
    requires cfg.Valid() && cfg.perChatWindowMs >= 1
    ensures IsRun(cfg, Init(0), evs)
    ensures var s := End(cfg, Init(0), evs);
      && Wait(cfg, s, KTotal(7), TotalMaxFor(cfg, Useful, 0)) > 0
      && Within(s.log, Sheddable(7), s.now - cfg.perChatWindowMs, cfg.perChatWindowMs) == 0
      && Within(s.log, Replies(7), s.now - cfg.perChatWindowMs, cfg.perChatWindowMs) == 0
  {
    evs := FillTotal(cfg, cfg.perChatTotalMax);
    NoReplies(End(cfg, Init(0), evs).log, 0 - cfg.perChatWindowMs, cfg.perChatWindowMs);
  }

  // ---------------------------------------------------------- no tagged chat action

  /** Every chat action arrives as cosmetic. */
  ghost predicate Untagged(evs: seq<Event>) {
    forall i :: 0 <= i < |evs| && evs[i].Arrive? && evs[i].kind.ChatAction? ==> evs[i].cls == Cosmetic
  }

  /** Then every slot a chat action takes of a shared window is one that may be shed. */
  ghost predicate ActionsShed(s: State) {
    && (forall id :: id in s.calls && s.calls[id].kind.ChatAction? ==> s.calls[id].cls == Cosmetic)
    && AllShed(s.log)
  }

  ghost predicate AllShed(log: seq<Reservation>) {
    forall r :: r in log && r.action && r.lane.Single? && r.lane.key.KTotal? ==> r.sheddable
  }

  lemma TakenSheds(s: State, id: nat, lane: Lane, late: bool, level: nat)
    requires id in s.calls && WellStaged(s.calls[id]) && Active(s.calls[id])
    requires s.calls[id].kind.ChatAction? ==> s.calls[id].cls == Cosmetic
    requires lane.Single? && lane.key.KTotal? ==> s.calls[id].stage == TotalTier
    ensures AllShed([Taken(s, id, lane, late, level)])
  {
  }

  lemma TotalLane(cfg: Config, s: State, c: Call, level: nat, cap: nat)
    requires cfg.Valid() && WellStaged(c) && Active(c)
    ensures var o := Try(cfg, s, c, level, cap);
      (o.Admit? || o.Release? || o.ReleasePaid?) && o.lane.Single? && o.lane.key.KTotal? ==> c.stage == TotalTier
  {
  }

  lemma AllShedConcat(a: seq<Reservation>, b: seq<Reservation>)
    requires AllShed(a) && AllShed(b)
    ensures AllShed(a + b)
  {
  }

  lemma AttemptSheds(cfg: Config, s: State, id: nat, level: nat, cap: nat)
    requires cfg.Valid() && ActionsShed(s) && id in s.calls && WellStaged(s.calls[id]) && Active(s.calls[id])
    ensures AllShed(AttemptResult(cfg, s, id, level, cap).log)
  {
    var c := s.calls[id];
    TotalLane(cfg, s, c, level, cap);
    match Try(cfg, s, c, level, cap)
    case Admit(lane) =>
      TakenSheds(s, id, lane, false, level);
      AllShedConcat(s.log, [Taken(s, id, lane, false, level)]);
    case Release(lane) =>
      TakenSheds(s, id, lane, true, level);
      AllShedConcat(s.log, [Taken(s, id, lane, true, level)]);
    case ReleasePaid(lane) =>
      var charge := Taken(s, id, Single(KLate(c.kind.chat)), true, level);
      TakenSheds(s, id, charge.lane, true, level);
      TakenSheds(s, id, lane, true, level);
      AllShedConcat(s.log, [charge]);
      AllShedConcat(s.log + [charge], [Taken(s, id, lane, true, level)]);
    case Deny =>
    case Nap(_) =>
  }

  /** No step but an arrival brings a call, or changes a call's kind or class. */
  lemma CallsKeepClass(cfg: Config, s: State, ev: Event, x: nat)
    requires cfg.Valid() && Shape(s) && Enabled(cfg, s, ev) && x in Next(cfg, s, ev).calls
    ensures var t := Next(cfg, s, ev);
      if ev.Arrive? && ev.id == x then t.calls[x].kind == ev.kind && t.calls[x].cls == ev.cls
      else x in s.calls && t.calls[x].kind == s.calls[x].kind && t.calls[x].cls == s.calls[x].cls
  {
    if ev.Attempt? {
      assert WellStaged(s.calls[ev.id]);
    }
  }

  lemma StepKeepsShed(cfg: Config, s: State, ev: Event)
    requires cfg.Valid() && Shape(s) && ActionsShed(s) && Enabled(cfg, s, ev)
    requires ev.Arrive? && ev.kind.ChatAction? ==> ev.cls == Cosmetic
    ensures ActionsShed(Next(cfg, s, ev))
  {
    var t := Next(cfg, s, ev);
    forall x | x in t.calls && t.calls[x].kind.ChatAction?
      ensures t.calls[x].cls == Cosmetic
    {
      CallsKeepClass(cfg, s, ev, x);
    }
    if ev.Attempt? {
      assert WellStaged(s.calls[ev.id]);
      AttemptSheds(cfg, s, ev.id, ev.level, ev.cap);
    } else if ev.Resume? {
      GiveBackMembers(s.log, ev.id);
    }
  }

  lemma {:induction false} RunKeepsShed(cfg: Config, s: State, evs: seq<Event>)
    requires cfg.Valid() && Shape(s) && ActionsShed(s) && IsRun(cfg, s, evs) && Untagged(evs)
    ensures ActionsShed(End(cfg, s, evs))
    decreases evs
  {
    if evs != [] {
      StepKeepsShape(cfg, s, evs[0]);
      StepKeepsShed(cfg, s, evs[0]);
      assert Untagged(evs[1..]) by {
        assert forall i :: 0 <= i < |evs[1..]| ==> evs[1..][i] == evs[i + 1];
      }
      RunKeepsShed(cfg, Next(cfg, s, evs[0]), evs[1..]);
    }
  }

  lemma {:induction false} NoTaggedSlots(log: seq<Reservation>, chat: int, lo: int, width: nat)
    requires AllShed(log)
    ensures Within(log, TaggedActions(chat), lo, width) == 0
  {
    if log != [] {
      var n := |log| - 1;
      assert log[n] in log;
      NoTaggedSlots(log[..n], chat, lo, width);
    }
  }

  /** No slot lies in a span of no width. */
  lemma {:induction false} NoWidth(log: seq<Reservation>, sel: Sel, lo: int)
    ensures Within(log, sel, lo, 0) == 0
  {
    if log != [] {
      NoWidth(log[..|log| - 1], sel, lo);
    }
  }

  // ------------------------------------------------------------------- the exact condition

  lemma RoundFalls(a: nat, b: nat, f: real)
    requires a <= b && f >= 0.0
    ensures Round(a as real * f) <= Round(b as real * f)
  {
    MulMono(f, a as real, b as real);
  }

  lemma ShareFalls(a: nat, b: nat, f: real)
    requires a <= b
    ensures Share(a, f) <= Share(b, f)
  {
    if f > 0.0 {
      RoundFalls(a, b, f);
    }
  }

  /** Tightening never raises the reserve. */
  lemma ReserveFalls(cfg: Config, level: nat)
    requires cfg.Valid()
    ensures ReservedSlots(cfg, level) <= ReservedSlots(cfg, 0)
  {
    CeilingInRange(cfg, cfg.perChatTotalMax, 0, level);
    ReservedIsShare(cfg, level);
    ReservedIsShare(cfg, 0);
    if cfg.perChatTotalMax > 0 {
      ShareFalls(Ceiling(cfg, cfg.perChatTotalMax, level), Ceiling(cfg, cfg.perChatTotalMax, 0), cfg.ReserveFraction());
    }
  }

  /** After the run, a call of class `cls` has to wait at the shared tier at `level`, the level
    * of every sheddable slot of the trailing window. */
  ghost predicate Waits(cfg: Config, start: int, evs: seq<Event>, chat: int, cls: OutboundClass, level: nat)
    requires cfg.Valid() && IsRun(cfg, Init(start), evs)
  {
    var s := End(cfg, Init(start), evs);
    && cls != Cosmetic && Wait(cfg, s, KTotal(chat), TotalMaxFor(cfg, cls, level)) > 0
    && (forall r :: r in s.log && Hit(Sheddable(chat), r, s.now - cfg.perChatWindowMs, cfg.perChatWindowMs)
          ==> r.level == level)
  }

  /** The reserve less the late-release budget went to calls other than cosmetic edits and
    * chat actions. */
  ghost predicate ReserveUsed(cfg: Config, start: int, evs: seq<Event>, chat: int, level: nat)
    requires cfg.Valid() && IsRun(cfg, Init(start), evs)
  {
    var s := End(cfg, Init(start), evs);
    Within(s.log, Replies(chat), s.now - cfg.perChatWindowMs, cfg.perChatWindowMs) + LateCap(cfg)
      >= ReservedSlots(cfg, level)
  }

  ghost predicate PromiseAt(cfg: Config, start: int, evs: seq<Event>, chat: int, cls: OutboundClass, level: nat)
    requires cfg.Valid() && IsRun(cfg, Init(start), evs)
  {
    Waits(cfg, start, evs, chat, cls, level) ==> ReserveUsed(cfg, start, evs, chat, level)
  }

  /** The promise, in every run: with `tagged` in any, else in those whose chat actions all
    * arrive as cosmetic. */
  ghost predicate Promise(cfg: Config, tagged: bool)
    requires cfg.Valid()
  {
    forall start, evs, chat, cls, level | IsRun(cfg, Init(start), evs) && (tagged || Untagged(evs)) ::
      PromiseAt(cfg, start, evs, chat, cls, level)
  }

  lemma PromiseKept(cfg: Config, start: int, evs: seq<Event>, chat: int, cls: OutboundClass, level: nat)
    requires cfg.Valid() && IsRun(cfg, Init(start), evs) && Waits(cfg, start, evs, chat, cls, level)
    requires Untagged(evs) || cfg.perChatWindowMs == 0 || ReservedSlots(cfg, 0) <= LateCap(cfg)
    ensures ReserveUsed(cfg, start, evs, chat, level)
  {
    var s := End(cfg, Init(start), evs);
    var lo := s.now - cfg.perChatWindowMs;
    ReserveFalls(cfg, level);
    ReplyReserve(cfg, start, evs, chat, cls, level);
    if Untagged(evs) {
      RunKeepsShed(cfg, Init(start), evs);
      NoTaggedSlots(s.log, chat, lo, cfg.perChatWindowMs);
    } else if cfg.perChatWindowMs == 0 {
      NoWidth(s.log, TaggedActions(chat), lo);
    }
  }

  lemma PromiseBroken(cfg: Config)
    requires cfg.Valid() && cfg.perChatWindowMs >= 1 && ReservedSlots(cfg, 0) > LateCap(cfg)
    ensures !Promise(cfg, true)
  {
    var evs := TaggedActionsEatReserve(cfg);
    var s := End(cfg, Init(0), evs);
    var lo := s.now - cfg.perChatWindowMs;
    NoneWithin(s.log, Sheddable(7), lo, cfg.perChatWindowMs);
    assert !PromiseAt(cfg, 0, evs, 7, Useful, 0);
  }

  lemma {:induction false} NoneWithin(log: seq<Reservation>, sel: Sel, lo: int, width: nat)
    requires Within(log, sel, lo, width) == 0
    ensures forall r :: r in log ==> !Hit(sel, r, lo, width)
  {
    if log != [] {
      var n := |log| - 1;
      NoneWithin(log[..n], sel, lo, width);
      assert log == log[..n] + [log[n]];
    }
  }

  /** The promise holds if and only if no chat action is tagged with another class than
    * cosmetic, or the reserve is no larger than the late-release budget to begin with (a
    * window of no width never fills). */
  lemma ReserveExact(cfg: Config, tagged: bool)
    requires cfg.Valid()
    ensures Promise(cfg, tagged) <==>
      !tagged || cfg.perChatWindowMs == 0 || ReservedSlots(cfg, 0) <= LateCap(cfg)
  {
    if !tagged || cfg.perChatWindowMs == 0 || ReservedSlots(cfg, 0) <= LateCap(cfg) {
      forall start, evs, chat, cls, level | IsRun(cfg, Init(start), evs) && (tagged || Untagged(evs))
        ensures PromiseAt(cfg, start, evs, chat, cls, level)
      {
        if Waits(cfg, start, evs, chat, cls, level) {
          PromiseKept(cfg, start, evs, chat, cls, level);
        }
      }
    } else {
      PromiseBroken(cfg);
    }
  }
}
