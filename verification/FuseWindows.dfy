/** The timestamp lists the fuse keeps per key: pruning from the front, pushing at the
  * back, and splicing a slot out when it is handed back. Each list shows exactly the live
  * part of the reservation history of its key. */
module FuseWindows {
  import opened FuseCeilings
  import opened FuseLog
  import opened FuseProtocol

  type Table = map<Key, seq<int>>

  function Slots(windows: Table, key: Key): seq<int> {
    if key in windows then windows[key] else []
  }

  /** Nondecreasing, and nothing later than `top`. */
  ghost predicate Rising(ts: seq<int>, top: int) {
    ts == [] || (ts[|ts| - 1] <= top && Rising(ts[..|ts| - 1], ts[|ts| - 1]))
  }

  /** `ts` without its entries at or before `cut`, shifted off the front. */
  function Pruned(ts: seq<int>, cut: int): seq<int> {
    if ts != [] && ts[0] <= cut then Pruned(ts[1..], cut) else ts
  }

  /** `ts` without the last occurrence of `at`. */
  function Without(ts: seq<int>, at: int): seq<int> {
    if ts == [] then []
    else
      var n := |ts| - 1;
      if ts[n] == at then ts[..n] else Without(ts[..n], at) + [ts[n]]
  }

  /** The list shows what is live of `key` in the history. */
  ghost predicate Shows(ts: seq<int>, log: seq<Reservation>, key: Key, now: int, width: nat) {
    && Rising(ts, now)
    && Pruned(ts, now - width) == Live(log, key, now - width)
  }

  ghost predicate TableShows(cfg: Config, windows: Table, log: seq<Reservation>, now: int) {
    forall key :: Shows(Slots(windows, key), log, key, now, Width(cfg, key))
  }

  // ------------------------------------------------------------ list lemmas

  lemma {:induction false} RisingPairs(ts: seq<int>, top: int)
    requires Rising(ts, top)
    ensures forall i :: 0 <= i < |ts| ==> ts[i] <= top
    ensures forall i, j :: 0 <= i <= j < |ts| ==> ts[i] <= ts[j]
  {
    if ts != [] {
      RisingPairs(ts[..|ts| - 1], ts[|ts| - 1]);
    }
  }

  lemma {:induction false} PairsRising(ts: seq<int>, top: int)
    requires forall i :: 0 <= i < |ts| ==> ts[i] <= top
    requires forall i, j :: 0 <= i <= j < |ts| ==> ts[i] <= ts[j]
    ensures Rising(ts, top)
  {
    if ts != [] {
      PairsRising(ts[..|ts| - 1], ts[|ts| - 1]);
    }
  }

  lemma RisingPush(ts: seq<int>, x: int)
    requires Rising(ts, x)
    ensures Rising(ts + [x], x)
  {
    assert (ts + [x])[..|ts|] == ts;
  }

  lemma {:induction false} PrunedIsSuffix(ts: seq<int>, cut: int)
    ensures |Pruned(ts, cut)| <= |ts| && Pruned(ts, cut) == ts[|ts| - |Pruned(ts, cut)|..]
    ensures Pruned(ts, cut) != [] ==> Pruned(ts, cut)[0] > cut
  {
    if ts != [] && ts[0] <= cut {
      PrunedIsSuffix(ts[1..], cut);
    }
  }

  lemma PrunedRising(ts: seq<int>, cut: int, top: int)
    requires Rising(ts, top)
    ensures Rising(Pruned(ts, cut), top)
  {
    RisingPairs(ts, top);
    PrunedIsSuffix(ts, cut);
    PairsRising(Pruned(ts, cut), top);
  }

  lemma {:induction false} PrunedTwice(ts: seq<int>, early: int, late: int)
    requires early <= late
    ensures Pruned(Pruned(ts, early), late) == Pruned(ts, late)
  {
    if ts != [] && ts[0] <= early {
      PrunedTwice(ts[1..], early, late);
    }
  }

  lemma {:induction false} PrunedPush(ts: seq<int>, x: int, cut: int)
    requires forall i :: 0 <= i < |ts| ==> ts[i] <= x
    ensures Pruned(ts + [x], cut) == if x > cut then Pruned(ts, cut) + [x] else Pruned(ts, cut)
  {
    if ts == [] {
      assert ts + [x] == [x];
    } else if ts[0] <= cut {
      assert (ts + [x])[1..] == ts[1..] + [x];
      PrunedPush(ts[1..], x, cut);
    }
  }

  lemma PrunedAppend(ts: seq<int>, x: int, cut: int)
    requires Rising(ts, x)
    ensures Pruned(ts + [x], cut) == if x > cut then Pruned(ts, cut) + [x] else Pruned(ts, cut)
  {
    RisingPairs(ts, x);
    PrunedPush(ts, x, cut);
  }

  lemma {:induction false} LiveRising(log: seq<Reservation>, key: Key, cut: int, now: int)
    requires Chronological(log, now)
    ensures Rising(Live(log, key, cut), now)
  {
    if log != [] {
      var n := |log| - 1;
      LiveRising(log[..n], key, cut, log[n].at);
      RisingPush(Live(log[..n], key, cut), log[n].at);
      RisingUp(Live(log[..n], key, cut), log[n].at, now);
      RisingUp(Live(log[..n], key, cut) + [log[n].at], log[n].at, now);
    }
  }

  lemma RisingUp(ts: seq<int>, low: int, high: int)
    requires Rising(ts, low) && low <= high
    ensures Rising(ts, high)
  {
  }

  lemma {:induction false} LivePruned(log: seq<Reservation>, key: Key, early: int, late: int, now: int)
    requires Chronological(log, now) && early <= late
    ensures Pruned(Live(log, key, early), late) == Live(log, key, late)
  {
    if log != [] {
      var n := |log| - 1;
      LivePruned(log[..n], key, early, late, log[n].at);
      LiveRising(log[..n], key, early, log[n].at);
      LivePrunedStep(log[..n], log[n], key, early, late);
      assert log == log[..n] + [log[n]];
    }
  }

  lemma LivePrunedStep(log: seq<Reservation>, r: Reservation, key: Key, early: int, late: int)
    requires early <= late && Pruned(Live(log, key, early), late) == Live(log, key, late)
    requires Rising(Live(log, key, early), r.at)
    ensures Pruned(Live(log + [r], key, early), late) == Live(log + [r], key, late)
  {
    LiveAppend(log, r, key, early);
    LiveAppend(log, r, key, late);
    if Charges(r.lane, key) && r.at > early {
      PrunedAppend(Live(log, key, early), r.at, late);
    }
  }

  /** Splicing out any one of several equal entries of a sorted list gives the same list. */
  lemma {:induction false} WithoutAt(ts: seq<int>, i: nat)
    requires i < |ts| && forall i, j :: 0 <= i <= j < |ts| ==> ts[i] <= ts[j]
    ensures Without(ts, ts[i]) == ts[..i] + ts[i + 1..]
  {
    var n := |ts| - 1;
    if ts[n] == ts[i] {
      assert ts[..i] + ts[i + 1..] == ts[..n];
    } else {
      WithoutAt(ts[..n], i);
      assert ts[..n][..i] == ts[..i];
      assert ts[..n][i + 1..] + [ts[n]] == ts[i + 1..];
      assert (ts[..i] + ts[..n][i + 1..]) + [ts[n]] == ts[..i] + ts[i + 1..];
    }
  }

  lemma {:induction false} WithoutAbsent(ts: seq<int>, at: int)
    requires at !in ts
    ensures Without(ts, at) == ts
  {
    if ts != [] {
      WithoutAbsent(ts[..|ts| - 1], at);
      assert ts == ts[..|ts| - 1] + [ts[|ts| - 1]];
    }
  }

  lemma WithoutRising(ts: seq<int>, at: int, top: int)
    requires Rising(ts, top)
    ensures Rising(Without(ts, at), top)
  {
    RisingPairs(ts, top);
    if i: int :| 0 <= i < |ts| && ts[i] == at {
      WithoutAt(ts, i);
      PairsRising(Without(ts, at), top);
    } else {
      WithoutAbsent(ts, at);
    }
  }

  lemma PrunedWithout(ts: seq<int>, at: int, cut: int, top: int)
    requires Rising(ts, top)
    ensures Pruned(Without(ts, at), cut) == if at > cut then Without(Pruned(ts, cut), at) else Pruned(ts, cut)
  {
    RisingPairs(ts, top);
    if i: int :| 0 <= i < |ts| && ts[i] == at {
      WithoutAt(ts, i);
      PrunedCut(ts, i, cut);
    } else {
      WithoutAbsent(ts, at);
      PrunedIsSuffix(ts, cut);
      WithoutAbsent(Pruned(ts, cut), at);
    }
  }

  lemma {:induction false} PrunedCut(ts: seq<int>, i: nat, cut: int)
    requires i < |ts| && forall i, j :: 0 <= i <= j < |ts| ==> ts[i] <= ts[j]
    ensures Pruned(ts[..i] + ts[i + 1..], cut)
         == if ts[i] > cut then Without(Pruned(ts, cut), ts[i]) else Pruned(ts, cut)
  {
    var cutOut := ts[..i] + ts[i + 1..];
    if ts[0] > cut {
      WithoutAt(ts, i);
      assert cutOut != [] ==> cutOut[0] >= ts[0];
    } else if i == 0 {
      assert cutOut == ts[1..];
    } else {
      assert cutOut[1..] == ts[1..][..i - 1] + ts[1..][i..];
      PrunedCut(ts[1..], i - 1, cut);
    }
  }

  lemma WithoutPush(ts: seq<int>, at: int, x: int)
    requires Rising(ts, x) && at in ts
    ensures Without(ts + [x], at) == Without(ts, at) + [x]
  {
    RisingPairs(ts, x);
    assert (ts + [x])[..|ts|] == ts;
    if x == at {
      assert ts[|ts| - 1] == at;
      assert ts == ts[..|ts| - 1] + [at];
    }
  }

  // ------------------------------------------------ what one call has reserved

  /** When call `id` took its returnable slots of `key`, oldest first. */
  function Own(log: seq<Reservation>, id: nat, key: Key): seq<int> {
    if log == [] then []
    else
      var n := |log| - 1;
      var older := Own(log[..n], id, key);
      if log[n].owner == id && Returnable(log[n].lane) && Charges(log[n].lane, key) then older + [log[n].at] else older
  }

  lemma OwnAppend(log: seq<Reservation>, r: Reservation, id: nat, key: Key)
    ensures Own(log + [r], id, key)
         == if r.owner == id && Returnable(r.lane) && Charges(r.lane, key) then Own(log, id, key) + [r.at]
            else Own(log, id, key)
  {
    assert (log + [r])[..|log|] == log;
  }

  lemma {:induction false} OwnAfterGiveBack(log: seq<Reservation>, id: nat, other: nat, key: Key)
    requires other != id
    ensures Own(GiveBack(log, id), other, key) == Own(log, other, key)
  {
    if log != [] {
      var n := |log| - 1;
      OwnAfterGiveBack(log[..n], id, other, key);
      if log[n].owner == id && Returnable(log[n].lane) {
        assert GiveBack(log, id) == GiveBack(log[..n], id);
      } else {
        OwnAppend(GiveBack(log[..n], id), log[n], other, key);
      }
    }
  }

  /** Giving back leaves a window that had nothing of the call as it was. */
  lemma {:induction false} LiveAfterGiveBackNone(log: seq<Reservation>, id: nat, key: Key, cut: int)
    requires Own(log, id, key) == []
    ensures Live(GiveBack(log, id), key, cut) == Live(log, key, cut)
  {
    if log != [] {
      var n := |log| - 1;
      LiveAfterGiveBackNone(log[..n], id, key, cut);
      if log[n].owner == id && Returnable(log[n].lane) {
        assert GiveBack(log, id) == GiveBack(log[..n], id);
      } else {
        LiveAppend(GiveBack(log[..n], id), log[n], key, cut);
      }
    }
  }

  /** The newest reservation is the call's own slot of `key`. */
  lemma GiveBackOwnLast(log: seq<Reservation>, r: Reservation, id: nat, key: Key, at: int, cut: int)
    requires Own(log + [r], id, key) == [at]
    requires r.owner == id && Returnable(r.lane) && Charges(r.lane, key)
    ensures Live(GiveBack(log + [r], id), key, cut)
         == if at > cut then Without(Live(log + [r], key, cut), at) else Live(log + [r], key, cut)
  {
    OwnAppend(log, r, id, key);
    assert |Own(log, id, key)| == 0 && Own(log + [r], id, key)[0] == r.at;
    LiveAfterGiveBackNone(log, id, key, cut);
    OwnSlotLast(log, r, id, key, cut);
  }

  /** The newest reservation is not the call's slot of `key`. */
  lemma GiveBackOtherLast(log: seq<Reservation>, r: Reservation, id: nat, key: Key, at: int, cut: int)
    requires Own(log, id, key) == [at] && Chronological(log, r.at)
    requires !(r.owner == id && Returnable(r.lane) && Charges(r.lane, key))
    requires Live(GiveBack(log, id), key, cut)
         == if at > cut then Without(Live(log, key, cut), at) else Live(log, key, cut)
    ensures Live(GiveBack(log + [r], id), key, cut)
         == if at > cut then Without(Live(log + [r], key, cut), at) else Live(log + [r], key, cut)
  {
    if at > cut {
      OwnIsLive(log, id, key, at, cut);
    }
    LiveRising(log, key, cut, r.at);
    OtherSlotLast(log, r, id, key, at, cut);
  }

  /** Giving back takes exactly the call's own slot out of a window. */
  lemma {:induction false} LiveAfterGiveBackOne(
    log: seq<Reservation>, id: nat, key: Key, at: int, cut: int, now: int)
    requires Own(log, id, key) == [at] && Chronological(log, now)
    ensures Live(GiveBack(log, id), key, cut)
         == if at > cut then Without(Live(log, key, cut), at) else Live(log, key, cut)
  {
    var front, last := log[..|log| - 1], log[|log| - 1];
    assert log == front + [last];
    if last.owner == id && Returnable(last.lane) && Charges(last.lane, key) {
      GiveBackOwnLast(front, last, id, key, at, cut);
    } else {
      OwnAppend(front, last, id, key);
      LiveAfterGiveBackOne(front, id, key, at, cut, last.at);
      GiveBackOtherLast(front, last, id, key, at, cut);
    }
  }

  lemma GiveBackAppend(log: seq<Reservation>, r: Reservation, id: nat)
    ensures GiveBack(log + [r], id)
         == if r.owner == id && Returnable(r.lane) then GiveBack(log, id) else GiveBack(log, id) + [r]
  {
    assert (log + [r])[..|log|] == log;
  }

  lemma OwnSlotLast(log: seq<Reservation>, r: Reservation, id: nat, key: Key, cut: int)
    requires r.owner == id && Returnable(r.lane) && Charges(r.lane, key)
    requires Live(GiveBack(log, id), key, cut) == Live(log, key, cut)
    ensures Live(GiveBack(log + [r], id), key, cut)
         == if r.at > cut then Without(Live(log + [r], key, cut), r.at) else Live(log + [r], key, cut)
  {
    GiveBackAppend(log, r, id);
    LiveAppend(log, r, key, cut);
    var live := Live(log, key, cut);
    assert (live + [r.at])[..|live|] == live;
  }

  lemma OtherSlotLast(log: seq<Reservation>, r: Reservation, id: nat, key: Key, at: int, cut: int)
    requires !(r.owner == id && Returnable(r.lane) && Charges(r.lane, key))
    requires Live(GiveBack(log, id), key, cut)
          == if at > cut then Without(Live(log, key, cut), at) else Live(log, key, cut)
    requires at > cut ==> at in Live(log, key, cut)
    requires Rising(Live(log, key, cut), r.at)
    ensures Live(GiveBack(log + [r], id), key, cut)
         == if at > cut then Without(Live(log + [r], key, cut), at) else Live(log + [r], key, cut)
  {
    GiveBackAppend(log, r, id);
    LiveAppend(log, r, key, cut);
    LiveAppend(GiveBack(log, id), r, key, cut);
    if at > cut {
      WithoutPush(Live(log, key, cut), at, r.at);
    }
  }

  lemma {:induction false} OwnIsLive(log: seq<Reservation>, id: nat, key: Key, at: int, cut: int)
    requires at in Own(log, id, key) && at > cut
    ensures at in Live(log, key, cut)
  {
    var n := |log| - 1;
    if at in Own(log[..n], id, key) {
      OwnIsLive(log[..n], id, key, at, cut);
    }
  }

  // ----------------------------------------------------------- table updates

  function Pushed(windows: Table, key: Key, at: int): Table {
    windows[key := Slots(windows, key) + [at]]
  }

  /** The table after an admission to `lane`. */
  function Charged(windows: Table, lane: Lane, at: int): Table {
    match lane
    case Single(key) => Pushed(windows, key, at)
    case Floor(chat, msg) => Pushed(Pushed(windows, KFloorOf(chat, msg), at), KFloorAll(chat), at)
  }

  predicate Chargeable(lane: Lane) {
    lane.Single? ==> !lane.key.KFloorOf? && !lane.key.KFloorAll?
  }

  lemma ShowsPush(ts: seq<int>, log: seq<Reservation>, key: Key, width: nat, r: Reservation)
    requires Shows(ts, log, key, r.at, width)
    ensures Charges(r.lane, key) ==> Shows(ts + [r.at], log + [r], key, r.at, width)
    ensures !Charges(r.lane, key) ==> Shows(ts, log + [r], key, r.at, width)
  {
    LiveAppend(log, r, key, r.at - width);
    PrunedAppend(ts, r.at, r.at - width);
    RisingPush(ts, r.at);
  }

  lemma TablePush(cfg: Config, windows: Table, log: seq<Reservation>, r: Reservation)
    requires TableShows(cfg, windows, log, r.at) && Chargeable(r.lane)
    ensures TableShows(cfg, Charged(windows, r.lane, r.at), log + [r], r.at)
  {
    var table := Charged(windows, r.lane, r.at);
    forall key
      ensures Shows(Slots(table, key), log + [r], key, r.at, Width(cfg, key))
    {
      ShowsPush(Slots(windows, key), log, key, Width(cfg, key), r);
      assert Slots(table, key) == if Charges(r.lane, key) then Slots(windows, key) + [r.at] else Slots(windows, key);
    }
  }

  lemma ShowsPruned(ts: seq<int>, log: seq<Reservation>, key: Key, now: int, width: nat)
    requires Shows(ts, log, key, now, width)
    ensures Shows(Pruned(ts, now - width), log, key, now, width)
  {
    PrunedRising(ts, now - width, now);
    PrunedTwice(ts, now - width, now - width);
  }

  lemma TablePrune(cfg: Config, windows: Table, log: seq<Reservation>, now: int, key: Key)
    requires TableShows(cfg, windows, log, now)
    ensures TableShows(cfg, windows[key := Pruned(Slots(windows, key), now - Width(cfg, key))], log, now)
  {
    var table := windows[key := Pruned(Slots(windows, key), now - Width(cfg, key))];
    ShowsPruned(Slots(windows, key), log, key, now, Width(cfg, key));
    assert forall k ::
      Slots(table, k) == if k == key then Pruned(Slots(windows, key), now - Width(cfg, key)) else Slots(windows, k);
  }

  lemma TableTick(cfg: Config, windows: Table, log: seq<Reservation>, now: int, later: int)
    requires TableShows(cfg, windows, log, now) && Chronological(log, now) && now <= later
    ensures TableShows(cfg, windows, log, later)
  {
    forall key
      ensures Shows(Slots(windows, key), log, key, later, Width(cfg, key))
    {
      var ts, w := Slots(windows, key), Width(cfg, key);
      assert Shows(ts, log, key, now, w);
      RisingUp(ts, now, later);
      PrunedTwice(ts, now - w, later - w);
      LivePruned(log, key, now - w, later - w, now);
    }
  }

  /** Deleting a key is unobservable if and only if nothing in its window is live, which is
    * so when its newest slot is older than its width. */
  lemma TableEvict(cfg: Config, windows: Table, log: seq<Reservation>, now: int, key: Key)
    requires TableShows(cfg, windows, log, now)
    ensures TableShows(cfg, windows - {key}, log, now) <==> Live(log, key, now - Width(cfg, key)) == []
    ensures Slots(windows, key) == [] || Slots(windows, key)[|Slots(windows, key)| - 1] <= now - Width(cfg, key) ==>
      Live(log, key, now - Width(cfg, key)) == []
  {
    var rest := windows - {key};
    assert forall k :: Slots(rest, k) == if k == key then [] else Slots(windows, k);
    if Slots(windows, key) == [] || Slots(windows, key)[|Slots(windows, key)| - 1] <= now - Width(cfg, key) {
      ShowsNothing(Slots(windows, key), log, key, now, Width(cfg, key));
    }
    assert Shows([], log, key, now, Width(cfg, key)) <==> Live(log, key, now - Width(cfg, key)) == [];
    if Live(log, key, now - Width(cfg, key)) == [] {
      forall k
        ensures Shows(Slots(rest, k), log, k, now, Width(cfg, k))
      {
        assert k != key ==> Shows(Slots(windows, k), log, k, now, Width(cfg, k));
      }
    } else {
      assert !Shows(Slots(rest, key), log, key, now, Width(cfg, key));
    }
  }

  /** With a token window wider than the others, the eviction test passes on a key that still
    * has a live slot. */
  lemma TokenEvictionForgets(cfg: Config, r: Reservation)
    requires r.lane == Single(KToken) && cfg.PerTokenWindowMs() > Max(cfg.perMessageWindowMs, cfg.perChatWindowMs)
    ensures var widest := Max(cfg.perMessageWindowMs, cfg.perChatWindowMs);
      && TableShows(cfg, map[KToken := [r.at]], [r], r.at + widest)
      && !TableShows(cfg, map[KToken := [r.at]] - {KToken}, [r], r.at + widest)
  {
    var now := r.at + Max(cfg.perMessageWindowMs, cfg.perChatWindowMs);
    var windows: Table := map[KToken := [r.at]];
    assert [r] == [] + [r];
    forall k
      ensures Shows(Slots(windows, k), [r], k, now, Width(cfg, k))
    {
      LiveAppend([], r, k, now - Width(cfg, k));
      assert [r.at][1..] == [] && [r.at][..0] == [];
    }
    LiveAppend([], r, KToken, now - Width(cfg, KToken));
    TableEvict(cfg, windows, [r], now, KToken);
  }

  lemma ShowsNothing(ts: seq<int>, log: seq<Reservation>, key: Key, now: int, width: nat)
    requires Shows(ts, log, key, now, width) && (ts == [] || ts[|ts| - 1] <= now - width)
    ensures Shows([], log, key, now, width)
  {
    RisingPairs(ts, now);
    PrunedIsSuffix(ts, now - width);
  }

  /** The give-back list a call carries. */
  type Receipts = seq<(Key, int)>

  ghost predicate DistinctKeys(list: Receipts) {
    forall i, j :: 0 <= i < j < |list| ==> list[i].0 != list[j].0
  }

  function Spliced(windows: Table, list: Receipts): Table {
    if list == [] then windows
    else
      var n := |list| - 1;
      var table := Spliced(windows, list[..n]);
      if list[n].0 in table then table[list[n].0 := Without(table[list[n].0], list[n].1)] else table
  }

  /** What the list says the call took of `key`. */
  function Receipt(list: Receipts, key: Key): seq<int> {
    if list == [] then []
    else
      var n := |list| - 1;
      if list[n].0 == key then Receipt(list[..n], key) + [list[n].1] else Receipt(list[..n], key)
  }

  lemma {:induction false} SplicedSlots(windows: Table, list: Receipts, key: Key)
    requires DistinctKeys(list)
    ensures |Receipt(list, key)| <= 1
    ensures Receipt(list, key) == [] ==> Slots(Spliced(windows, list), key) == Slots(windows, key)
    ensures Receipt(list, key) != [] ==>
      Slots(Spliced(windows, list), key) == Without(Slots(windows, key), Receipt(list, key)[0])
  {
    if list != [] {
      var n := |list| - 1;
      SplicedSlots(windows, list[..n], key);
      if list[n].0 == key {
        NoReceipt(list[..n], key);
      }
    }
  }

  lemma {:induction false} NoReceipt(list: Receipts, key: Key)
    requires forall i :: 0 <= i < |list| ==> list[i].0 != key
    ensures Receipt(list, key) == []
  {
    if list != [] {
      NoReceipt(list[..|list| - 1], key);
    }
  }

  /** Handing a call's slots back keeps every window, the aggregate floor window included,
    * an exact picture of what is still reserved. */
  lemma TableGiveBack(cfg: Config, windows: Table, log: seq<Reservation>, now: int, id: nat, list: Receipts)
    requires TableShows(cfg, windows, log, now) && Chronological(log, now) && DistinctKeys(list)
    requires forall key :: Own(log, id, key) == Receipt(list, key)
    ensures TableShows(cfg, Spliced(windows, list), GiveBack(log, id), now)
  {
    forall key
      ensures Shows(Slots(Spliced(windows, list), key), GiveBack(log, id), key, now, Width(cfg, key))
    {
      SplicedSlots(windows, list, key);
      ShowsGiveBack(Slots(windows, key), log, key, now, Width(cfg, key), id, Receipt(list, key));
    }
  }

  lemma ShowsGiveBack(ts: seq<int>, log: seq<Reservation>, key: Key, now: int, width: nat, id: nat, own: seq<int>)
    requires Shows(ts, log, key, now, width) && Chronological(log, now)
    requires Own(log, id, key) == own && |own| <= 1
    ensures Shows(if own == [] then ts else Without(ts, own[0]), GiveBack(log, id), key, now, width)
  {
    if own == [] {
      LiveAfterGiveBackNone(log, id, key, now - width);
    } else {
      assert own == [own[0]];
      LiveAfterGiveBackOne(log, id, key, own[0], now - width, now);
      ShowsWithout(ts, log, GiveBack(log, id), key, now, width, own[0]);
    }
  }

  lemma ShowsWithout(
    ts: seq<int>, log: seq<Reservation>, kept: seq<Reservation>, key: Key, now: int, width: nat, at: int)
    requires Shows(ts, log, key, now, width)
    requires Live(kept, key, now - width)
          == if at > now - width then Without(Live(log, key, now - width), at) else Live(log, key, now - width)
    ensures Shows(Without(ts, at), kept, key, now, width)
  {
    PrunedWithout(ts, at, now - width, now);
    WithoutRising(ts, at, now);
  }
}
