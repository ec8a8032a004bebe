/** What a call of the edit-flood fuse holds on its way through the tiers: it goes
  * downstream only after a slot at every tier of its kind, and once dropped it holds none. */
module FuseHoldings {
  import opened FuseCeilings
  import opened FuseLog
  import opened FuseProtocol
  import opened FuseRuns

  /** Call `id` holds a slot of `key`. */
  ghost predicate Holds(log: seq<Reservation>, id: nat, key: Key) {
    exists i :: 0 <= i < |log| && log[i].owner == id && Charges(log[i].lane, key)
  }

  /** A slot of the edit tier of a chat: for a cosmetic edit, when they are shared out
    * fairly, one of its message's floor or of the remainder, else one of the chat's edits. */
  ghost predicate HoldsEdit(cfg: Config, log: seq<Reservation>, id: nat, c: Call)
    requires c.kind.Edit?
  {
    if c.cls == Cosmetic && cfg.fairShare
    then Holds(log, id, KFloorOf(c.kind.chat, c.kind.msg)) || Holds(log, id, KRemainder(c.kind.chat))
    else Holds(log, id, KEdits(c.kind.chat))
  }

  /** A call holds a slot of every tier it has left behind. */
  ghost predicate Crossed(cfg: Config, log: seq<Reservation>, id: nat, c: Call) {
    && (c.stage == Passed ==> Holds(log, id, KToken))
    && (!c.kind.Chatless? && c.stage in {TokenTier, Passed} ==> Holds(log, id, KTotal(c.kind.chat)))
    && (c.kind.Send? && c.stage in {TotalTier, TokenTier, Passed} ==> Holds(log, id, KSends(c.kind.chat)))
    && (c.kind.Edit? && c.stage in {TotalTier, TokenTier, Passed} ==> HoldsEdit(cfg, log, id, c))
    && (c.kind.Edit? && c.stage in {ChatTier, TotalTier, TokenTier, Passed} ==>
          Holds(log, id, KMessage(c.kind.chat, c.kind.msg)))
  }

  /** What a call can hold at its stage. */
  ghost predicate MayHold(c: Call, lane: Lane) {
    match c.stage
    case MessageTier => false
    case SendTier => false
    case ChatTier => Returnable(lane) || IsLate(lane)
    case TotalTier => Returnable(lane) || IsLate(lane) || c.kind.Send?
    case Dropped => IsLate(lane)
    case _ => true
  }

  ghost predicate IsLate(lane: Lane) {
    lane.Single? && lane.key.KLate?
  }

  /** Only edits and chat actions are ever denied or dropped. */
  ghost predicate Deniable(c: Call) {
    c.rest.Denied? || c.stage == Dropped ==> c.kind.Edit? || c.kind.ChatAction?
  }

  ghost predicate HoldingsInv(cfg: Config, s: State) {
    && (forall i :: 0 <= i < |s.log| ==>
          s.log[i].owner in s.calls && MayHold(s.calls[s.log[i].owner], s.log[i].lane))
    && (forall id :: id in s.calls ==> Crossed(cfg, s.log, id, s.calls[id]) && Deniable(s.calls[id]))
  }

  // ------------------------------------------------------------------- one step

  /** Changes to how calls rest, and new calls at their first tier, change no holding. */
  lemma RestsKeepHoldings(cfg: Config, s: State, t: State)
    requires HoldingsInv(cfg, s) && t.log == s.log && s.calls.Keys <= t.calls.Keys
    requires forall id :: id in s.calls ==>
      && t.calls[id].kind == s.calls[id].kind && t.calls[id].cls == s.calls[id].cls
      && t.calls[id].stage == s.calls[id].stage
    requires forall id :: id in t.calls ==> Deniable(t.calls[id])
    requires forall id :: id in t.calls && id !in s.calls ==> t.calls[id].stage == FirstStage(t.calls[id].kind)
    ensures HoldingsInv(cfg, t)
  {
    forall id | id in t.calls
      ensures Crossed(cfg, t.log, id, t.calls[id])
    {
      if id in s.calls {
        assert Crossed(cfg, s.log, id, s.calls[id]);
      }
    }
  }

  /** What a longer history adds is held beside what was held before. */
  lemma HoldsMore(log: seq<Reservation>, more: seq<Reservation>, id: nat, key: Key)
    requires log <= more && Holds(log, id, key)
    ensures Holds(more, id, key)
  {
    var i :| 0 <= i < |log| && log[i].owner == id && Charges(log[i].lane, key);
    assert more[i] == log[i];
  }

  lemma CrossedMore(cfg: Config, log: seq<Reservation>, more: seq<Reservation>, id: nat, c: Call)
    requires log <= more && Crossed(cfg, log, id, c)
    ensures Crossed(cfg, more, id, c)
  {
    forall key | Holds(log, id, key)
      ensures Holds(more, id, key)
    {
      HoldsMore(log, more, id, key);
    }
  }

  /** The slot by which call `c` gets past its tier. */
  ghost predicate PassesTier(cfg: Config, c: Call, lane: Lane) {
    match c.stage
    case MessageTier => c.kind.Edit? && lane == Single(KMessage(c.kind.chat, c.kind.msg))
    case ChatTier =>
      && c.kind.Edit?
      && if c.cls == Cosmetic && cfg.fairShare
         then lane == Floor(c.kind.chat, c.kind.msg) || lane == Single(KRemainder(c.kind.chat))
         else lane == Single(KEdits(c.kind.chat))
    case SendTier => c.kind.Send? && lane == Single(KSends(c.kind.chat))
    case TotalTier => !c.kind.Chatless? && lane == Single(KTotal(c.kind.chat))
    case TokenTier => lane == Single(KToken)
    case _ => false
  }

  lemma CrossesOne(cfg: Config, log: seq<Reservation>, id: nat, c: Call, r: Reservation)
    requires WellStaged(c) && Crossed(cfg, log, id, c) && r.owner == id && PassesTier(cfg, c, r.lane)
    ensures Crossed(cfg, log + [r], id, c.(stage := NextStage(c.stage), counted := StillCounted(c)))
  {
    var more := log + [r];
    CrossedMore(cfg, log, more, id, c);
    assert more[|log|] == r;
    assert forall key :: Charges(r.lane, key) ==> Holds(more, id, key);
    if c.stage == ChatTier && r.lane.Floor? {
      assert Charges(r.lane, KFloorOf(c.kind.chat, c.kind.msg));
    } else {
      assert Charges(r.lane, r.lane.key);
    }
  }

  lemma PassHolds(cfg: Config, s: State, id: nat, r: Reservation)
    requires HoldingsInv(cfg, s) && id in s.calls && WellStaged(s.calls[id])
    requires r.owner == id && PassesTier(cfg, s.calls[id], r.lane)
    ensures HoldingsInv(cfg, Advance(s, id, s.log + [r]))
  {
    var t := Advance(s, id, s.log + [r]);
    forall x | x in t.calls
      ensures Crossed(cfg, t.log, x, t.calls[x]) && Deniable(t.calls[x])
    {
      if x == id {
        CrossesOne(cfg, s.log, id, s.calls[id], r);
      } else {
        CrossedMore(cfg, s.log, t.log, x, s.calls[x]);
      }
    }
    forall i | 0 <= i < |t.log|
      ensures t.log[i].owner in t.calls && MayHold(t.calls[t.log[i].owner], t.log[i].lane)
    {
      if i < |s.log| {
        assert t.log[i] == s.log[i];
      }
    }
  }

  /** A late release is charged while its call is still at the tier it leaves. */
  lemma ChargeHolds(cfg: Config, s: State, id: nat, charge: Reservation, r: Reservation)
    requires HoldingsInv(cfg, s) && id in s.calls && WellStaged(s.calls[id])
    requires charge.owner == id && IsLate(charge.lane)
    requires r.owner == id && PassesTier(cfg, s.calls[id], r.lane)
    ensures HoldingsInv(cfg, Advance(s, id, s.log + [charge] + [r]))
  {
    var log1 := s.log + [charge];
    var t := Advance(s, id, log1 + [r]);
    forall x | x in t.calls
      ensures Crossed(cfg, t.log, x, t.calls[x]) && Deniable(t.calls[x])
    {
      CrossedMore(cfg, s.log, log1, x, s.calls[x]);
      if x == id {
        CrossesOne(cfg, log1, id, s.calls[id], r);
      } else {
        CrossedMore(cfg, log1, t.log, x, s.calls[x]);
      }
    }
    forall i | 0 <= i < |t.log|
      ensures t.log[i].owner in t.calls && MayHold(t.calls[t.log[i].owner], t.log[i].lane)
    {
      if i < |s.log| {
        assert t.log[i] == s.log[i];
      }
    }
  }

  /** An attempt that lets a call past its tier takes that tier's slot. */
  lemma PassTakesSlot(cfg: Config, s: State, c: Call, level: nat, cap: nat)
    requires cfg.Valid() && WellStaged(c) && Active(c)
    ensures var o := Try(cfg, s, c, level, cap);
      && (o.Admit? || o.Release? || o.ReleasePaid? ==> PassesTier(cfg, c, o.lane))
      && (o.ReleasePaid? ==> c.kind.Edit?)
      && (o.Deny? ==> c.kind.Edit? || c.kind.ChatAction?)
  {
  }

  lemma AttemptKeepsHoldings(cfg: Config, s: State, id: nat, level: nat, cap: nat)
    requires cfg.Valid() && HoldingsInv(cfg, s) && id in s.calls && WellStaged(s.calls[id]) && Active(s.calls[id])
    ensures HoldingsInv(cfg, AttemptResult(cfg, s, id, level, cap))
  {
    PassTakesSlot(cfg, s, s.calls[id], level, cap);
    CarriedHolds(cfg, s, id, Try(cfg, s, s.calls[id], level, cap), level);
  }

  lemma CarriedHolds(cfg: Config, s: State, id: nat, o: Outcome, level: nat)
    requires HoldingsInv(cfg, s) && id in s.calls && WellStaged(s.calls[id])
    requires o.Admit? || o.Release? || o.ReleasePaid? ==> PassesTier(cfg, s.calls[id], o.lane)
    requires o.ReleasePaid? ==> s.calls[id].kind.Edit?
    requires o.Deny? ==> s.calls[id].kind.Edit? || s.calls[id].kind.ChatAction?
    ensures HoldingsInv(cfg, Carried(s, id, o, level))
  {
    match o
    case Admit(lane) => PassHolds(cfg, s, id, Taken(s, id, lane, false, level));
    case Release(lane) => PassHolds(cfg, s, id, Taken(s, id, lane, true, level));
    case ReleasePaid(lane) =>
      ChargeHolds(cfg, s, id, Taken(s, id, Single(KLate(s.calls[id].kind.chat)), true, level),
                  Taken(s, id, lane, true, level));
    case Deny => RestsKeepHoldings(cfg, s, Carried(s, id, o, level));
    case Nap(ms) => RestsKeepHoldings(cfg, s, Sleep(s, id, ms));
  }

  lemma {:induction false} GiveBackKeepsOthers(log: seq<Reservation>, id: nat, other: nat, key: Key)
    requires other != id && Holds(log, other, key)
    ensures Holds(GiveBack(log, id), other, key)
  {
    GiveBackMembers(log, id);
    var i :| 0 <= i < |log| && log[i].owner == other && Charges(log[i].lane, key);
    assert log[i] in GiveBack(log, id);
  }

  /** A dropped call has handed everything back but what it paid for late releases. */
  lemma GoneHolds(cfg: Config, s: State, id: nat)
    requires HoldingsInv(cfg, s) && id in s.calls && WellStaged(s.calls[id])
    requires Active(s.calls[id]) && (s.calls[id].rest.Killed? || s.calls[id].rest.Denied?)
    ensures HoldingsInv(cfg, Gone(s, id))
  {
    var t := Gone(s, id);
    GiveBackMembers(s.log, id);
    forall i | 0 <= i < |t.log|
      ensures t.log[i].owner in t.calls && MayHold(t.calls[t.log[i].owner], t.log[i].lane)
    {
      assert t.log[i] in s.log;
    }
    forall x | x in t.calls
      ensures Crossed(cfg, t.log, x, t.calls[x]) && Deniable(t.calls[x])
    {
      if x != id && s.calls[id].rest.Denied? {
        OthersCrossed(cfg, s.log, id, x, s.calls[x]);
      }
    }
  }

  lemma OthersCrossed(cfg: Config, log: seq<Reservation>, id: nat, x: nat, c: Call)
    requires x != id && Crossed(cfg, log, x, c)
    ensures Crossed(cfg, GiveBack(log, id), x, c)
  {
    forall key | Holds(log, x, key)
      ensures Holds(GiveBack(log, id), x, key)
    {
      GiveBackKeepsOthers(log, id, x, key);
    }
  }

  lemma StepKeepsHoldings(cfg: Config, s: State, ev: Event)
    requires cfg.Valid() && Shape(s) && HoldingsInv(cfg, s) && Enabled(cfg, s, ev)
    ensures HoldingsInv(cfg, Next(cfg, s, ev))
  {
    match ev
    case Attempt(id, level, cap) =>
      assert WellStaged(s.calls[id]);
      AttemptKeepsHoldings(cfg, s, id, level, cap);
    case Resume(id) => GoneHolds(cfg, s, id);
    case _ => RestsKeepHoldings(cfg, s, Next(cfg, s, ev));
  }

  lemma {:induction false} RunKeepsHoldings(cfg: Config, s: State, evs: seq<Event>)
    requires cfg.Valid() && Shape(s) && HoldingsInv(cfg, s) && IsRun(cfg, s, evs)
    ensures HoldingsInv(cfg, End(cfg, s, evs))
    decreases evs
  {
    if evs != [] {
      StepKeepsShape(cfg, s, evs[0]);
      StepKeepsHoldings(cfg, s, evs[0]);
      RunKeepsHoldings(cfg, Next(cfg, s, evs[0]), evs[1..]);
    }
  }

  // ----------------------------------------------------------------------- runs

  /** No call slips past a tier: whatever went downstream holds a slot of the token window;
    * a call to a chat one of the shared chat window; a send one of the chat's sends; an edit
    * one of its message, and one of the chat's edits or, as a fair cosmetic frame, one of its
    * message's floor or the remainder. */
  lemma EveryTierCharged(cfg: Config, start: int, evs: seq<Event>, id: nat)
    requires cfg.Valid() && IsRun(cfg, Init(start), evs)
    requires id in End(cfg, Init(start), evs).calls && End(cfg, Init(start), evs).calls[id].stage == Passed
    ensures var log, c := End(cfg, Init(start), evs).log, End(cfg, Init(start), evs).calls[id];
      && Holds(log, id, KToken)
      && (!c.kind.Chatless? ==> Holds(log, id, KTotal(c.kind.chat)))
      && (c.kind.Send? ==> Holds(log, id, KSends(c.kind.chat)))
      && (c.kind.Edit? ==> Holds(log, id, KMessage(c.kind.chat, c.kind.msg)))
      && (c.kind.Edit? && !(c.cls == Cosmetic && cfg.fairShare) ==> Holds(log, id, KEdits(c.kind.chat)))
      && (c.kind.Edit? && c.cls == Cosmetic && cfg.fairShare ==>
           Holds(log, id, KFloorOf(c.kind.chat, c.kind.msg)) || Holds(log, id, KRemainder(c.kind.chat)))
  {
    RunKeepsHoldings(cfg, Init(start), evs);
    assert Crossed(cfg, End(cfg, Init(start), evs).log, id, End(cfg, Init(start), evs).calls[id]);
  }

  /** A dropped call is an edit or a chat action, never a send, and fills no window but the
    * late-release budget it drew on before: all its slots are handed back. */
  lemma DroppedHoldsNothing(cfg: Config, start: int, evs: seq<Event>, id: nat)
    requires cfg.Valid() && IsRun(cfg, Init(start), evs)
    requires id in End(cfg, Init(start), evs).calls && End(cfg, Init(start), evs).calls[id].stage == Dropped
    ensures var s := End(cfg, Init(start), evs);
      && (s.calls[id].kind.Edit? || s.calls[id].kind.ChatAction?)
      && forall key :: Holds(s.log, id, key) ==> key.KLate?
  {
    RunKeepsHoldings(cfg, Init(start), evs);
    var s := End(cfg, Init(start), evs);
    assert Deniable(s.calls[id]);
    forall key | Holds(s.log, id, key)
      ensures key.KLate?
    {
      var i :| 0 <= i < |s.log| && s.log[i].owner == id && Charges(s.log[i].lane, key);
      assert MayHold(s.calls[s.log[i].owner], s.log[i].lane);
    }
  }
}
