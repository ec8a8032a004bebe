/** Reservations of the edit-flood fuse as one history, the window each key shows of
  * it, and the counting arguments every rate bound rests on. */
module FuseLog {
  import opened Common

  /** The key of one sliding window. */
  datatype Key =
    | KMessage(chat: int, msg: int)
    | KFloorOf(chat: int, msg: int)
    | KFloorAll(chat: int)
    | KRemainder(chat: int)
    | KEdits(chat: int)
    | KSends(chat: int)
    | KTotal(chat: int)
    | KLate(chat: int)
    | KToken

  /** What one admission takes: a slot of one key, or a floor slot, which is charged to
    * the message's own floor window and to the chat's aggregate one. */
  datatype Lane = Single(key: Key) | Floor(chat: int, msg: int)

  predicate Charges(lane: Lane, key: Key) {
    match lane
    case Single(k) => k == key && !k.KFloorOf? && !k.KFloorAll?
    case Floor(chat, msg) => key == KFloorOf(chat, msg) || key == KFloorAll(chat)
  }

  /** Lanes a call hands back when a later tier denies it. */
  predicate Returnable(lane: Lane) {
    match lane
    case Single(k) => k.KMessage? || k.KRemainder? || k.KEdits?
    case Floor(_, _) => true
  }

  /** One slot taken: when, by which call, at which tighten level, whether it was a
    * release past the deadline, whether the call was one the fuse may shed, and whether it
    * was a chat action. */
  datatype Reservation = Reservation(
    lane: Lane, at: int, owner: nat, late: bool, level: nat, sheddable: bool, action: bool)

  /** First-order selectors over reservations. */
  datatype Sel =
    | Nothing
    | OnKey(key: Key)
    | Timely(key: Key)
    | CosmeticPool(chat: int)
    | Sheddable(chat: int)
    | Protected(chat: int)
    | Replies(chat: int)
    | TaggedActions(chat: int)
    | FloorAmong(chat: int, ids: set<int>)

  predicate Matches(sel: Sel, r: Reservation) {
    match sel
    case Nothing => false
    case OnKey(key) => Charges(r.lane, key)
    case Timely(key) => Charges(r.lane, key) && !r.late
    case CosmeticPool(chat) => r.lane == Single(KRemainder(chat)) || (r.lane.Floor? && r.lane.chat == chat)
    case Sheddable(chat) => r.lane == Single(KTotal(chat)) && r.sheddable
    case Protected(chat) => r.lane == Single(KTotal(chat)) && !r.sheddable
    case Replies(chat) => r.lane == Single(KTotal(chat)) && !r.sheddable && !r.action
    case TaggedActions(chat) => r.lane == Single(KTotal(chat)) && !r.sheddable && r.action
    case FloorAmong(chat, ids) => r.lane.Floor? && r.lane.chat == chat && r.lane.msg in ids
  }

  predicate Hit(sel: Sel, r: Reservation, lo: int, width: nat) {
    Matches(sel, r) && lo < r.at <= lo + width
  }

  /** How many selected reservations lie in the span (lo, lo + width]. */
  function Within(log: seq<Reservation>, sel: Sel, lo: int, width: nat): nat {
    if log == [] then 0
    else
      var n := |log| - 1;
      Within(log[..n], sel, lo, width) + if Hit(sel, log[n], lo, width) then 1 else 0
  }

  /** The live timestamps of `key`'s window: those after `cut`, oldest first. */
  function Live(log: seq<Reservation>, key: Key, cut: int): seq<int> {
    if log == [] then []
    else
      var n := |log| - 1;
      var older := Live(log[..n], key, cut);
      if Charges(log[n].lane, key) && log[n].at > cut then older + [log[n].at] else older
  }

  /** The history after call `id` has handed its returnable slots back. */
  function GiveBack(log: seq<Reservation>, id: nat): seq<Reservation> {
    if log == [] then []
    else
      var n := |log| - 1;
      var kept := GiveBack(log[..n], id);
      if log[n].owner == id && Returnable(log[n].lane) then kept else kept + [log[n]]
  }

  /** No reservation is later than `now`, and the history is in time order. */
  ghost predicate Chronological(log: seq<Reservation>, now: int) {
    log == [] || (log[|log| - 1].at <= now && Chronological(log[..|log| - 1], log[|log| - 1].at))
  }

  lemma {:induction false} AllBefore(log: seq<Reservation>, now: int)
    requires Chronological(log, now)
    ensures forall i :: 0 <= i < |log| ==> log[i].at <= now
  {
    if log != [] {
      AllBefore(log[..|log| - 1], log[|log| - 1].at);
    }
  }

  lemma ChronologicalLater(log: seq<Reservation>, now: int, later: int)
    requires Chronological(log, now) && now <= later
    ensures Chronological(log, later)
  {
  }

  lemma ChronologicalPush(log: seq<Reservation>, r: Reservation)
    requires Chronological(log, r.at)
    ensures Chronological(log + [r], r.at)
  {
    assert (log + [r])[..|log|] == log;
  }

  // ------------------------------------------------------------- counting

  lemma WithinAppend(log: seq<Reservation>, r: Reservation, sel: Sel, lo: int, width: nat)
    ensures Within(log + [r], sel, lo, width)
         == Within(log, sel, lo, width) + if Hit(sel, r, lo, width) then 1 else 0
  {
    assert (log + [r])[..|log|] == log;
  }

  lemma LiveAppend(log: seq<Reservation>, r: Reservation, key: Key, cut: int)
    ensures Live(log + [r], key, cut)
         == if Charges(r.lane, key) && r.at > cut then Live(log, key, cut) + [r.at] else Live(log, key, cut)
  {
    assert (log + [r])[..|log|] == log;
  }

  ghost predicate NotReturned(sel: Sel) {
    forall r: Reservation :: Matches(sel, r) ==> !Returnable(r.lane)
  }

  lemma {:induction false} GiveBackWithin(log: seq<Reservation>, id: nat, sel: Sel, lo: int, width: nat)
    ensures Within(GiveBack(log, id), sel, lo, width) <= Within(log, sel, lo, width)
    ensures NotReturned(sel) ==> Within(GiveBack(log, id), sel, lo, width) == Within(log, sel, lo, width)
  {
    if log != [] {
      var n := |log| - 1;
      GiveBackWithin(log[..n], id, sel, lo, width);
      if !(log[n].owner == id && Returnable(log[n].lane)) {
        WithinAppend(GiveBack(log[..n], id), log[n], sel, lo, width);
      }
    }
  }

  lemma {:induction false} GiveBackMembers(log: seq<Reservation>, id: nat)
    ensures forall r :: r in GiveBack(log, id) <==> r in log && !(r.owner == id && Returnable(r.lane))
  {
    if log != [] {
      var n := |log| - 1;
      GiveBackMembers(log[..n], id);
      assert log == log[..n] + [log[n]];
    }
  }

  lemma {:induction false} GiveBackChronological(log: seq<Reservation>, id: nat, now: int)
    requires Chronological(log, now)
    ensures Chronological(GiveBack(log, id), now)
  {
    if log != [] {
      var n := |log| - 1;
      GiveBackChronological(log[..n], id, log[n].at);
      ChronologicalPush(GiveBack(log[..n], id), log[n]);
      ChronologicalLater(GiveBack(log[..n], id), log[n].at, now);
    }
  }

  /** Sliding the start of a span forward loses reservations and gains none, as long as
    * the span still ends at or after the newest one. */
  lemma {:induction false} WithinSlides(log: seq<Reservation>, sel: Sel, now: int, lo: int, width: nat)
    requires forall i :: 0 <= i < |log| ==> log[i].at <= now
    requires now - width <= lo
    ensures Within(log, sel, lo, width) <= Within(log, sel, now - width, width)
  {
    if log != [] {
      WithinSlides(log[..|log| - 1], sel, now, lo, width);
    }
  }

  /** A window's length is the count of its key over the trailing span. */
  lemma {:induction false} LiveCount(log: seq<Reservation>, key: Key, now: int, width: nat)
    requires forall i :: 0 <= i < |log| ==> log[i].at <= now
    ensures |Live(log, key, now - width)| == Within(log, OnKey(key), now - width, width)
  {
    if log != [] {
      LiveCount(log[..|log| - 1], key, now, width);
    }
  }

  // --------------------------------------------------------- rate bounds

  /** In every span of `width` ms, at most `cap` selected reservations plus one for each
    * `slack` reservation in that span. */
  ghost predicate Bounded(log: seq<Reservation>, sel: Sel, width: nat, cap: nat, slack: Sel) {
    forall lo: int :: Within(log, sel, lo, width) <= cap + Within(log, slack, lo, width)
  }

  /** An unselected reservation, or one taken while the trailing window had room, keeps
    * the bound. */
  lemma PushKeepsBound(log: seq<Reservation>, r: Reservation, sel: Sel, width: nat, cap: nat, slack: Sel)
    requires Bounded(log, sel, width, cap, slack)
    requires forall i :: 0 <= i < |log| ==> log[i].at <= r.at
    requires Matches(sel, r) ==> Within(log, sel, r.at - width, width) < cap
    ensures Bounded(log + [r], sel, width, cap, slack)
  {
    forall lo: int
      ensures Within(log + [r], sel, lo, width) <= cap + Within(log + [r], slack, lo, width)
    {
      WithinAppend(log, r, sel, lo, width);
      WithinAppend(log, r, slack, lo, width);
      if Hit(sel, r, lo, width) {
        WithinSlides(log, sel, r.at, lo, width);
      }
    }
  }

  /** A late release charges the slack at the same instant, so it keeps the bound. */
  lemma LatePushKeepsBound(
    log: seq<Reservation>, charge: Reservation, r: Reservation, sel: Sel, width: nat, cap: nat, slack: Sel)
    requires Bounded(log, sel, width, cap, slack)
    requires charge.at == r.at && Matches(slack, charge) && !Matches(sel, charge)
    ensures Bounded(log + [charge] + [r], sel, width, cap, slack)
  {
    forall lo: int
      ensures Within(log + [charge] + [r], sel, lo, width) <= cap + Within(log + [charge] + [r], slack, lo, width)
    {
      WithinAppend(log, charge, sel, lo, width);
      WithinAppend(log, charge, slack, lo, width);
      WithinAppend(log + [charge], r, sel, lo, width);
      WithinAppend(log + [charge], r, slack, lo, width);
    }
  }

  lemma GiveBackKeepsBound(log: seq<Reservation>, id: nat, sel: Sel, width: nat, cap: nat, slack: Sel)
    requires Bounded(log, sel, width, cap, slack) && NotReturned(slack)
    ensures Bounded(GiveBack(log, id), sel, width, cap, slack)
  {
    forall lo: int
      ensures Within(GiveBack(log, id), sel, lo, width) <= cap + Within(GiveBack(log, id), slack, lo, width)
    {
      GiveBackWithin(log, id, sel, lo, width);
      GiveBackWithin(log, id, slack, lo, width);
    }
  }

  // ---------------------------------------------- splitting a count by kind

  lemma {:induction false} NothingWithin(log: seq<Reservation>, lo: int, width: nat)
    ensures Within(log, Nothing, lo, width) == 0
  {
    if log != [] {
      NothingWithin(log[..|log| - 1], lo, width);
    }
  }

  /** The cosmetic pool is the floor lane plus the remainder lane. */
  lemma {:induction false} PoolSplits(log: seq<Reservation>, chat: int, lo: int, width: nat)
    ensures Within(log, CosmeticPool(chat), lo, width)
         == Within(log, OnKey(KFloorAll(chat)), lo, width) + Within(log, OnKey(KRemainder(chat)), lo, width)
  {
    if log != [] {
      PoolSplits(log[..|log| - 1], chat, lo, width);
    }
  }

  /** The shared window is the sheddable traffic plus the protected traffic. */
  lemma {:induction false} TotalSplits(log: seq<Reservation>, chat: int, lo: int, width: nat)
    ensures Within(log, OnKey(KTotal(chat)), lo, width)
         == Within(log, Sheddable(chat), lo, width) + Within(log, Protected(chat), lo, width)
  {
    if log != [] {
      TotalSplits(log[..|log| - 1], chat, lo, width);
    }
  }

  /** The protected traffic is everything but cosmetic edits and chat actions, plus the chat
    * actions tagged with another class than cosmetic. */
  lemma {:induction false} ProtectedSplits(log: seq<Reservation>, chat: int, lo: int, width: nat)
    ensures Within(log, Protected(chat), lo, width)
         == Within(log, Replies(chat), lo, width) + Within(log, TaggedActions(chat), lo, width)
  {
    if log != [] {
      ProtectedSplits(log[..|log| - 1], chat, lo, width);
    }
  }

  lemma {:induction false} FloorAmongSplits(
    log: seq<Reservation>, chat: int, ids: set<int>, m: int, lo: int, width: nat)
    requires m in ids
    ensures Within(log, FloorAmong(chat, ids), lo, width)
         == Within(log, FloorAmong(chat, ids - {m}), lo, width) + Within(log, OnKey(KFloorOf(chat, m)), lo, width)
  {
    if log != [] {
      FloorAmongSplits(log[..|log| - 1], chat, ids, m, lo, width);
    }
  }

  /** The message ids that hold a floor slot of `chat` in the span. */
  function FloorHolders(log: seq<Reservation>, chat: int, lo: int, width: nat): set<int> {
    set r | r in log && r.lane.Floor? && r.lane.chat == chat && lo < r.at <= lo + width :: r.lane.msg
  }

  /** The aggregate floor window counts exactly the floor slots of the ids that hold
    * one: it is the merge of their own floor windows. */
  lemma {:induction false} AggregateIsMerge(
    log: seq<Reservation>, chat: int, ids: set<int>, lo: int, width: nat)
    requires FloorHolders(log, chat, lo, width) <= ids
    ensures Within(log, OnKey(KFloorAll(chat)), lo, width) == Within(log, FloorAmong(chat, ids), lo, width)
  {
    if log != [] {
      var n := |log| - 1;
      assert log == log[..n] + [log[n]];
      assert FloorHolders(log[..n], chat, lo, width) <= FloorHolders(log, chat, lo, width);
      if Hit(OnKey(KFloorAll(chat)), log[n], lo, width) && log[n].lane.Floor? {
        assert log[n].lane.msg in FloorHolders(log, chat, lo, width);
      }
      AggregateIsMerge(log[..n], chat, ids, lo, width);
    }
  }

  /** If no id has more than `floor` slots in the span, a set of ids has at most
    * `floor` times its size. */
  lemma {:induction false} FloorAmongBound(
    log: seq<Reservation>, chat: int, ids: set<int>, floor: nat, lo: int, width: nat)
    requires forall m :: Within(log, OnKey(KFloorOf(chat, m)), lo, width) <= floor
    ensures Within(log, FloorAmong(chat, ids), lo, width) <= floor * |ids|
    decreases |ids|
  {
    if ids == {} {
      EmptyAmong(log, chat, lo, width);
    } else {
      var m := Member(ids);
      FloorAmongBound(log, chat, ids - {m}, floor, lo, width);
      FloorAmongSplits(log, chat, ids, m, lo, width);
      assert |ids| == |ids - {m}| + 1;
      assert floor * |ids| == floor * |ids - {m}| + floor;
    }
  }

  lemma {:induction false} EmptyAmong(log: seq<Reservation>, chat: int, lo: int, width: nat)
    ensures Within(log, FloorAmong(chat, {}), lo, width) == 0
  {
    if log != [] {
      EmptyAmong(log[..|log| - 1], chat, lo, width);
    }
  }
}
