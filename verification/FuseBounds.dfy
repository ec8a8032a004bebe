/** What every step of the fuse keeps, and the rate guarantees that follow over whole
  * runs. */
module FuseBounds {
  import opened FuseCeilings
  import opened FuseLog
  import opened FuseProtocol

  // ------------------------------------------- the history after one admission

  lemma PushLanes(cfg: Config, log: seq<Reservation>, r: Reservation, chat: int)
    requires LanesInv(cfg, log, chat)
    requires forall i :: 0 <= i < |log| ==> log[i].at <= r.at
    requires !Charges(r.lane, KLate(chat))
    requires Charges(r.lane, KRemainder(chat)) ==>
      Within(log, OnKey(KRemainder(chat)), r.at - cfg.perChatWindowMs, cfg.perChatWindowMs) < cfg.RemainderMax()
    requires Charges(r.lane, KFloorAll(chat)) ==>
      Within(log, OnKey(KFloorAll(chat)), r.at - cfg.perChatWindowMs, cfg.perChatWindowMs) < cfg.FloorAggMax()
    ensures LanesInv(cfg, log + [r], chat)
  {
    var w := cfg.perChatWindowMs;
    var late := OnKey(KLate(chat));
    PushKeepsBound(log, r, late, w, LateCap(cfg), Nothing);
    if cfg.RemainderMax() > 0 {
      PushKeepsBound(log, r, OnKey(KRemainder(chat)), w, cfg.RemainderMax(), late);
      PushKeepsBound(log, r, OnKey(KFloorAll(chat)), w, cfg.FloorAggMax(), Nothing);
    } else {
      PushKeepsBound(log, r, OnKey(KRemainder(chat)), w, 0, Nothing);
      PushKeepsBound(log, r, OnKey(KFloorAll(chat)), w, cfg.FloorAggMax(), late);
    }
  }

  /** A late release that is paid for keeps every lane bound. */
  lemma PaidLanes(cfg: Config, log: seq<Reservation>, charge: Reservation, r: Reservation, payer: int, chat: int)
    requires LanesInv(cfg, log, chat)
    requires forall i :: 0 <= i < |log| ==> log[i].at <= r.at
    requires charge.at == r.at && charge.lane == Single(KLate(payer))
    requires !Charges(r.lane, KLate(chat))
    requires payer == chat ==>
      Within(log, OnKey(KLate(chat)), r.at - cfg.perChatWindowMs, cfg.perChatWindowMs) < LateCap(cfg)
    requires Charges(r.lane, KRemainder(chat)) ==> payer == chat && cfg.RemainderMax() > 0
    requires Charges(r.lane, KFloorAll(chat)) ==> payer == chat && cfg.RemainderMax() == 0
    ensures LanesInv(cfg, log + [charge] + [r], chat)
  {
    var w := cfg.perChatWindowMs;
    var late := OnKey(KLate(chat));
    PushKeepsBound(log, charge, late, w, LateCap(cfg), Nothing);
    PushKeepsBound(log + [charge], r, late, w, LateCap(cfg), Nothing);
    if cfg.RemainderMax() > 0 {
      PaidKeeps(log, charge, r, OnKey(KRemainder(chat)), w, cfg.RemainderMax(), late);
      PaidKeeps(log, charge, r, OnKey(KFloorAll(chat)), w, cfg.FloorAggMax(), Nothing);
    } else {
      PaidKeeps(log, charge, r, OnKey(KRemainder(chat)), w, 0, Nothing);
      PaidKeeps(log, charge, r, OnKey(KFloorAll(chat)), w, cfg.FloorAggMax(), late);
    }
  }

  lemma PaidKeeps(
    log: seq<Reservation>, charge: Reservation, r: Reservation, sel: Sel, width: nat, cap: nat, slack: Sel)
    requires Bounded(log, sel, width, cap, slack)
    requires forall i :: 0 <= i < |log| ==> log[i].at <= r.at
    requires charge.at == r.at && !Matches(sel, charge)
    requires Matches(sel, r) ==> Matches(slack, charge)
    ensures Bounded(log + [charge] + [r], sel, width, cap, slack)
  {
    if Matches(sel, r) {
      LatePushKeepsBound(log, charge, r, sel, width, cap, slack);
    } else {
      PushKeepsBound(log, charge, sel, width, cap, slack);
      PushKeepsBound(log + [charge], r, sel, width, cap, slack);
    }
  }

  lemma PushFloors(cfg: Config, log: seq<Reservation>, r: Reservation, chat: int, msg: int)
    requires FloorsInv(cfg, log, chat, msg)
    requires forall i :: 0 <= i < |log| ==> log[i].at <= r.at
    requires Charges(r.lane, KFloorOf(chat, msg)) && cfg.RemainderMax() > 0 ==>
      Within(log, OnKey(KFloorOf(chat, msg)), r.at - cfg.perChatWindowMs, cfg.perChatWindowMs) < cfg.FloorPerWindow()
    ensures FloorsInv(cfg, log + [r], chat, msg)
  {
    if cfg.RemainderMax() > 0 {
      PushKeepsBound(log, r, OnKey(KFloorOf(chat, msg)), cfg.perChatWindowMs, cfg.FloorPerWindow(), Nothing);
    }
  }

  lemma PushShares(cfg: Config, log: seq<Reservation>, r: Reservation, chat: int)
    requires cfg.Valid() && SharesInv(cfg, log, chat)
    requires forall i :: 0 <= i < |log| ==> log[i].at <= r.at
    requires Matches(Sheddable(chat), r) ==> !r.late
    requires Matches(Sheddable(chat), r) ==>
      Within(log, OnKey(KTotal(chat)), r.at - cfg.perChatWindowMs, cfg.perChatWindowMs) < CosmeticTotalMax(cfg, r.level)
    ensures SharesInv(cfg, log + [r], chat)
  {
    var w := cfg.perChatWindowMs;
    forall lo: int, share: nat | SharesBelow(cfg, log + [r], chat, lo, share)
      ensures Within(log + [r], Sheddable(chat), lo, w) <= share + Within(log + [r], OnKey(KLate(chat)), lo, w)
    {
      WithinAppend(log, r, Sheddable(chat), lo, w);
      WithinAppend(log, r, OnKey(KLate(chat)), lo, w);
      if Hit(Sheddable(chat), r, lo, w) {
        assert r in log + [r];
        WithinSlides(log, Sheddable(chat), r.at, lo, w);
        TotalSplits(log, chat, r.at - w, w);
      } else {
        SharesBelowPrefix(cfg, log, r, chat, lo, share);
      }
    }
  }

  lemma SharesBelowPrefix(cfg: Config, log: seq<Reservation>, r: Reservation, chat: int, lo: int, share: nat)
    requires cfg.Valid() && SharesBelow(cfg, log + [r], chat, lo, share)
    ensures SharesBelow(cfg, log, chat, lo, share)
  {
    assert forall x :: x in log ==> x in log + [r];
  }

  lemma PaidShares(cfg: Config, log: seq<Reservation>, charge: Reservation, r: Reservation, payer: int, chat: int)
    requires cfg.Valid() && SharesInv(cfg, log, chat)
    requires charge.at == r.at && charge.lane == Single(KLate(payer))
    requires Matches(Sheddable(chat), r) ==> payer == chat
    ensures SharesInv(cfg, log + [charge] + [r], chat)
  {
    var w := cfg.perChatWindowMs;
    var log1 := log + [charge];
    var log2 := log1 + [r];
    forall lo: int, share: nat | SharesBelow(cfg, log2, chat, lo, share)
      ensures Within(log2, Sheddable(chat), lo, w) <= share + Within(log2, OnKey(KLate(chat)), lo, w)
    {
      SharesBelowPrefix(cfg, log1, r, chat, lo, share);
      SharesBelowPrefix(cfg, log, charge, chat, lo, share);
      WithinAppend(log, charge, Sheddable(chat), lo, w);
      WithinAppend(log, charge, OnKey(KLate(chat)), lo, w);
      WithinAppend(log1, r, Sheddable(chat), lo, w);
      WithinAppend(log1, r, OnKey(KLate(chat)), lo, w);
    }
  }

  lemma GiveBackKeepsLog(cfg: Config, log: seq<Reservation>, id: nat)
    requires cfg.Valid() && LogInv(cfg, log)
    ensures LogInv(cfg, GiveBack(log, id))
  {
    var w := cfg.perChatWindowMs;
    var kept := GiveBack(log, id);
    forall chat
      ensures LanesInv(cfg, kept, chat)
    {
      assert LanesInv(cfg, log, chat);
      var late := OnKey(KLate(chat));
      GiveBackKeepsBound(log, id, late, w, LateCap(cfg), Nothing);
      if cfg.RemainderMax() > 0 {
        GiveBackKeepsBound(log, id, OnKey(KRemainder(chat)), w, cfg.RemainderMax(), late);
        GiveBackKeepsBound(log, id, OnKey(KFloorAll(chat)), w, cfg.FloorAggMax(), Nothing);
      } else {
        GiveBackKeepsBound(log, id, OnKey(KRemainder(chat)), w, 0, Nothing);
        GiveBackKeepsBound(log, id, OnKey(KFloorAll(chat)), w, cfg.FloorAggMax(), late);
      }
    }
    forall chat, msg
      ensures FloorsInv(cfg, kept, chat, msg)
    {
      assert FloorsInv(cfg, log, chat, msg);
      if cfg.RemainderMax() > 0 {
        GiveBackKeepsBound(log, id, OnKey(KFloorOf(chat, msg)), w, cfg.FloorPerWindow(), Nothing);
      }
    }
    forall chat
      ensures SharesInv(cfg, kept, chat)
    {
      assert SharesInv(cfg, log, chat);
      forall lo: int, share: nat | SharesBelow(cfg, kept, chat, lo, share)
        ensures Within(kept, Sheddable(chat), lo, w) <= share + Within(kept, OnKey(KLate(chat)), lo, w)
      {
        GiveBackMembers(log, id);
        assert SharesBelow(cfg, log, chat, lo, share);
        GiveBackWithin(log, id, Sheddable(chat), lo, w);
        GiveBackWithin(log, id, OnKey(KLate(chat)), lo, w);
      }
    }
  }

  // ------------------------------------------------------ what an attempt does

  lemma WaitZeroHasRoom(cfg: Config, s: State, key: Key, max: nat)
    requires Chronological(s.log, s.now)
    ensures Wait(cfg, s, key, max) == 0 <==>
      Within(s.log, OnKey(key), s.now - Width(cfg, key), Width(cfg, key)) < max
  {
    AllBefore(s.log, s.now);
    LiveCount(s.log, key, s.now, Width(cfg, key));
  }

  /** What a reservation finds when it is not a paid late release: room in every
    * cosmetic window it is charged to. */
  ghost predicate RoomFor(cfg: Config, log: seq<Reservation>, r: Reservation)
    requires cfg.Valid()
  {
    var w := cfg.perChatWindowMs;
    match r.lane
    case Floor(chat, msg) =>
      && Within(log, OnKey(KFloorAll(chat)), r.at - w, w) < cfg.FloorAggMax()
      && Within(log, OnKey(KFloorOf(chat, msg)), r.at - w, w) < cfg.FloorPerWindow()
    case Single(KRemainder(chat)) => Within(log, OnKey(KRemainder(chat)), r.at - w, w) < cfg.RemainderMax()
    case Single(KTotal(chat)) =>
      r.sheddable ==> !r.late && Within(log, OnKey(KTotal(chat)), r.at - w, w) < CosmeticTotalMax(cfg, r.level)
    case Single(key) => !key.KLate?
  }

  lemma PushKeepsLog(cfg: Config, log: seq<Reservation>, r: Reservation)
    requires cfg.Valid() && LogInv(cfg, log) && RoomFor(cfg, log, r)
    requires forall i :: 0 <= i < |log| ==> log[i].at <= r.at
    ensures LogInv(cfg, log + [r])
  {
    forall chat
      ensures LanesInv(cfg, log + [r], chat) && SharesInv(cfg, log + [r], chat)
    {
      assert LanesInv(cfg, log, chat) && SharesInv(cfg, log, chat);
      PushLanes(cfg, log, r, chat);
      PushShares(cfg, log, r, chat);
    }
    forall chat, msg
      ensures FloorsInv(cfg, log + [r], chat, msg)
    {
      assert FloorsInv(cfg, log, chat, msg);
      PushFloors(cfg, log, r, chat, msg);
    }
  }

  lemma AdmissionHasRoom(cfg: Config, s: State, id: nat, level: nat, cap: nat, lane: Lane)
    requires cfg.Valid() && Chronological(s.log, s.now) && id in s.calls
    requires WellStaged(s.calls[id]) && Active(s.calls[id])
    requires Try(cfg, s, s.calls[id], level, cap) == Admit(lane)
    ensures RoomFor(cfg, s.log, Taken(s, id, lane, false, level))
  {
    match lane
    case Floor(chat, msg) =>
      WaitZeroHasRoom(cfg, s, KFloorAll(chat), cfg.FloorAggMax());
      WaitZeroHasRoom(cfg, s, KFloorOf(chat, msg), cfg.FloorPerWindow());
    case Single(key) =>
      if key.KRemainder? {
        WaitZeroHasRoom(cfg, s, key, RemainderCap(cfg, level));
        CeilingInRange(cfg, cfg.RemainderMax(), 0, level);
      } else if key.KTotal? {
        WaitZeroHasRoom(cfg, s, key, TierMax(cfg, s.calls[id], level));
      }
  }

  lemma ReleaseHasRoom(cfg: Config, s: State, id: nat, level: nat, cap: nat, lane: Lane)
    requires cfg.Valid() && id in s.calls && WellStaged(s.calls[id]) && Active(s.calls[id])
    requires Try(cfg, s, s.calls[id], level, cap) == Release(lane)
    ensures RoomFor(cfg, s.log, Taken(s, id, lane, true, level))
  {
  }

  /** A late release out of the budget of chat `payer`. */
  ghost predicate PaidBy(cfg: Config, log: seq<Reservation>, payer: int, r: Reservation) {
    && Within(log, OnKey(KLate(payer)), r.at - cfg.perChatWindowMs, cfg.perChatWindowMs) < LateCap(cfg)
    && match r.lane
       case Floor(chat, _) => chat == payer && cfg.RemainderMax() == 0
       case Single(KRemainder(chat)) => chat == payer && cfg.RemainderMax() > 0
       case Single(KTotal(chat)) => chat == payer
       case Single(key) => !key.KLate?
  }

  lemma PaidKeepsLog(cfg: Config, log: seq<Reservation>, charge: Reservation, r: Reservation, payer: int)
    requires cfg.Valid() && LogInv(cfg, log) && PaidBy(cfg, log, payer, r)
    requires forall i :: 0 <= i < |log| ==> log[i].at <= r.at
    requires charge.at == r.at && charge.lane == Single(KLate(payer))
    ensures LogInv(cfg, log + [charge] + [r])
  {
    forall chat
      ensures LanesInv(cfg, log + [charge] + [r], chat) && SharesInv(cfg, log + [charge] + [r], chat)
    {
      assert LanesInv(cfg, log, chat) && SharesInv(cfg, log, chat);
      PaidLanes(cfg, log, charge, r, payer, chat);
      PaidShares(cfg, log, charge, r, payer, chat);
    }
    forall chat, msg
      ensures FloorsInv(cfg, log + [charge] + [r], chat, msg)
    {
      assert FloorsInv(cfg, log, chat, msg);
      PushFloors(cfg, log, charge, chat, msg);
      PushFloors(cfg, log + [charge], r, chat, msg);
    }
  }

  lemma LateReleaseIsPaid(cfg: Config, s: State, id: nat, level: nat, cap: nat, lane: Lane)
    requires cfg.Valid() && Chronological(s.log, s.now) && level <= cfg.maxTightenLevel && id in s.calls
    requires WellStaged(s.calls[id]) && Active(s.calls[id])
    requires Try(cfg, s, s.calls[id], level, cap) == ReleasePaid(lane)
    ensures s.calls[id].kind.Edit?
    ensures PaidBy(cfg, s.log, s.calls[id].kind.chat, Taken(s, id, lane, true, level))
  {
    LateCeilingBounded(cfg, level);
    AllBefore(s.log, s.now);
    LiveCount(s.log, KLate(s.calls[id].kind.chat), s.now, cfg.perChatWindowMs);
  }
}
