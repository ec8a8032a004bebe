/** Where calls may not wait, a burst can be swallowed: the guard on it is exact. */
module FuseBurstLimit {
  import opened FuseCeilings
  import opened FuseLog
  import opened FuseProtocol
  import opened FuseRuns
  import opened FusePaths
  import opened FuseBursts

  /** A useful edit at a tier of its own, its deadline passed on arrival. */
  ghost predicate Due(cfg: Config, s: State, id: nat, msg: int, stage: Stage) {
    && id in s.calls && s.calls[id] == Call(Edit(7, msg), Useful, s.now, stage, Runnable, 0, true)
    && (stage == MessageTier || stage == ChatTier)
  }

  /** Alone in flight, such an edit passes its tier, with room or late. */
  lemma LonePasses(cfg: Config, s: State, id: nat, msg: int, stage: Stage)
    returns (ev: Event, t: State, r: Reservation)
    requires cfg.Valid() && cfg.maxDeferMs == 0 && Shape(s) && Due(cfg, s, id, msg, stage)
    requires InFlight(s, 7, msg) == {id}
    ensures Leads(cfg, s, ev, t) && ev.Attempt? && MovesOn(s, t, id, NextStage(stage), r)
    ensures r.at == s.now && r.lane == Single(if stage == MessageTier then KMessage(7, msg) else KEdits(7))
    ensures InFlight(t, 7, msg) == {id}
  {
    ev := Attempt(id, 0, 1);
    t := Next(cfg, s, ev);
    var o := Try(cfg, s, s.calls[id], 0, 1);
    assert o == Admit(Single(TierKey(s.calls[id]))) || o == Release(Single(TierKey(s.calls[id])));
    r := Taken(s, id, o.lane, o.Release?, 0);
    StepKeepsShape(cfg, s, ev);
    InFlightChange(s, t, id, 7, msg);
  }

  /** With two in flight and no room, it is denied. */
  lemma PairDenied(cfg: Config, s: State, id: nat, msg: int) returns (ev: Event, t: State)
    requires cfg.Valid() && cfg.maxDeferMs == 0 && Shape(s) && Due(cfg, s, id, msg, ChatTier)
    requires |InFlight(s, 7, msg)| > 1 && |Window(cfg, s, KEdits(7))| >= cfg.perChatEditMax
    ensures Leads(cfg, s, ev, t) && ev.Attempt? && t == s.(calls := s.calls[id := s.calls[id].(rest := Denied)])
    ensures InFlight(t, 7, msg) == InFlight(s, 7, msg)
  {
    ev := Attempt(id, 0, 1);
    t := Next(cfg, s, ev);
    assert TierMax(cfg, s.calls[id], 0) == cfg.perChatEditMax;
    assert Try(cfg, s, s.calls[id], 0, 1) == Deny;
    StepKeepsShape(cfg, s, ev);
    InFlightChange(s, t, id, 7, msg);
  }

  /** At the message tier it is denied too, or passes if there is room for two. */
  lemma SecondAtMessage(cfg: Config, s: State, id: nat, msg: int) returns (ev: Event, t: State, r: Reservation)
    requires cfg.Valid() && cfg.maxDeferMs == 0 && Shape(s) && Due(cfg, s, id, msg, MessageTier)
    requires |InFlight(s, 7, msg)| > 1
    ensures Leads(cfg, s, ev, t) && ev.Attempt?
    ensures || t == s.(calls := s.calls[id := s.calls[id].(rest := Denied)])
            || (MovesOn(s, t, id, ChatTier, r) && r.at == s.now && r.lane == Single(KMessage(7, msg)))
    ensures InFlight(t, 7, msg) == InFlight(s, 7, msg)
  {
    ev := Attempt(id, 0, 1);
    t := Next(cfg, s, ev);
    var o := Try(cfg, s, s.calls[id], 0, 1);
    r := Taken(s, id, Single(KMessage(7, msg)), false, 0);
    assert o == Deny || o == Admit(Single(KMessage(7, msg)));
    StepKeepsShape(cfg, s, ev);
    InFlightChange(s, t, id, 7, msg);
  }

  /** A denied frame leaves. */
  lemma DeniedLeaves(cfg: Config, s: State, id: nat, msg: int) returns (ev: Event, t: State)
    requires cfg.Valid() && Shape(s) && id in s.calls && s.calls[id].kind == Edit(7, msg)
    requires Active(s.calls[id]) && s.calls[id].rest.Denied?
    ensures Leads(cfg, s, ev, t) && ev.Resume?
    ensures t.calls == s.calls[id := s.calls[id].(stage := Dropped, counted := false)]
    ensures InFlight(t, 7, msg) == InFlight(s, 7, msg) - {id}
  {
    ev := Resume(id);
    t := Next(cfg, s, ev);
    StepKeepsShape(cfg, s, ev);
    InFlightChange(s, t, id, 7, msg);
  }

  /** The chat's edit window holds `k` slots, taken by calls 1 to `k` for messages 1 to `k`;
    * nothing has been heard of message 0. */
  ghost predicate Filled(cfg: Config, s: State, k: nat) {
    && Shape(s) && s.now == 0 && |Window(cfg, s, KEdits(7))| >= k
    && (forall id :: id in s.calls ==> 1 <= id <= k && s.calls[id].kind == Edit(7, id))
  }

  lemma ArriveDue(cfg: Config, s: State, id: nat, msg: int) returns (ev: Event, t: State)
    requires cfg.Valid() && Shape(s) && id !in s.calls
    ensures ev == Arrive(id, Edit(7, msg), Useful) && Leads(cfg, s, ev, t)
    ensures Due(cfg, t, id, msg, MessageTier) && InFlight(t, 7, msg) == InFlight(s, 7, msg) + {id}
    ensures t == s.(calls := s.calls[id := t.calls[id]])
  {
    ev := Arrive(id, Edit(7, msg), Useful);
    t := Next(cfg, s, ev);
    StepKeepsShape(cfg, s, ev);
  }

  lemma FillAfter(cfg: Config, s: State, t: State, u: State, v: State, k: nat, r: Reservation, q: Reservation)
    requires cfg.perChatWindowMs >= 1 && Filled(cfg, s, k)
    requires k + 1 in t.calls && t == s.(calls := s.calls[k + 1 := t.calls[k + 1]])
    requires t.calls[k + 1].kind == Edit(7, k + 1)
    requires MovesOn(t, u, k + 1, ChatTier, r) && r.at == 0 && r.lane == Single(KMessage(7, k + 1))
    requires MovesOn(u, v, k + 1, TotalTier, q) && q.at == 0 && q.lane == Single(KEdits(7))
    requires Shape(v)
    ensures Filled(cfg, v, k + 1)
  {
    WindowGrows(cfg, t, u, r, KEdits(7));
    WindowGrows(cfg, u, v, q, KEdits(7));
  }

  /** One lone edit goes through the message tier, and then through the chat tier. */
  lemma FillBegin(cfg: Config, s: State, k: nat) returns (evs: seq<Event>, t: State, u: State, r: Reservation)
    requires cfg.Valid() && cfg.maxDeferMs == 0 && Filled(cfg, s, k)
    ensures IsRun(cfg, s, evs) && Timeless(evs) && End(cfg, s, evs) == u && Shape(u)
    ensures k + 1 in t.calls && t == s.(calls := s.calls[k + 1 := t.calls[k + 1]])
    ensures t.calls[k + 1].kind == Edit(7, k + 1)
    ensures MovesOn(t, u, k + 1, ChatTier, r) && r.at == 0 && r.lane == Single(KMessage(7, k + 1))
    ensures Due(cfg, u, k + 1, k + 1, ChatTier) && InFlight(u, 7, k + 1) == {k + 1}
  {
    assert InFlight(s, 7, k + 1) == {};
    var e, f;
    e, t := ArriveDue(cfg, s, k + 1, k + 1);
    f, u, r := LonePasses(cfg, t, k + 1, k + 1, MessageTier);
    TwoLead(cfg, s, e, t, f, u);
    evs := [e, f];
  }

  lemma FillStep(cfg: Config, s: State, k: nat) returns (evs: seq<Event>)
    requires cfg.Valid() && cfg.maxDeferMs == 0 && cfg.perChatWindowMs >= 1 && Filled(cfg, s, k)
    ensures IsRun(cfg, s, evs) && Timeless(evs) && Filled(cfg, End(cfg, s, evs), k + 1)
  {
    var first, t, u, r := FillBegin(cfg, s, k);
    var g, v, q := LonePasses(cfg, u, k + 1, k + 1, ChatTier);
    FillAfter(cfg, s, t, u, v, k, r, q);
    OneLeads(cfg, u, g, v);
    Onward(cfg, s, first, [g]);
    evs := first + [g];
  }

  lemma {:induction false} FillEdits(cfg: Config, k: nat) returns (evs: seq<Event>)
    requires cfg.Valid() && cfg.maxDeferMs == 0 && cfg.perChatWindowMs >= 1
    ensures IsRun(cfg, Init(0), evs) && Timeless(evs) && Filled(cfg, End(cfg, Init(0), evs), k)
  {
    if k == 0 {
      evs := [];
    } else {
      var first := FillEdits(cfg, k - 1);
      var more := FillStep(cfg, End(cfg, Init(0), first), k - 1);
      Onward(cfg, Init(0), first, more);
      evs := first + more;
    }
  }

  /** The first frame for message 0, past the message tier; it is call `k + 1`. */
  ghost predicate OneFrame(cfg: Config, s: State, k: nat) {
    && Shape(s) && Due(cfg, s, k + 1, 0, ChatTier) && InFlight(s, 7, 0) == {k + 1} && k + 2 !in s.calls
    && |Window(cfg, s, KEdits(7))| >= k && OnlyFrames(s, k)
  }

  /** No other calls but `k + 1` and `k + 2` are for message 0. */
  ghost predicate OnlyFrames(s: State, k: nat) {
    forall id :: id in s.calls && s.calls[id].kind == Edit(7, 0) ==> id == k + 1 || id == k + 2
  }

  lemma OneAfter(cfg: Config, s: State, t: State, u: State, k: nat, r: Reservation)
    requires cfg.perChatWindowMs >= 1 && Filled(cfg, s, k)
    requires k + 1 in t.calls && t == s.(calls := s.calls[k + 1 := t.calls[k + 1]])
    requires Due(cfg, t, k + 1, 0, MessageTier)
    requires MovesOn(t, u, k + 1, ChatTier, r) && r.at == 0 && r.lane == Single(KMessage(7, 0))
    requires Shape(u) && InFlight(u, 7, 0) == {k + 1}
    ensures OneFrame(cfg, u, k)
  {
    WindowGrows(cfg, t, u, r, KEdits(7));
  }

  /** The first frame for message 0 arrives alone and passes the message tier. */
  lemma FirstFrame(cfg: Config, s: State, k: nat) returns (evs: seq<Event>)
    requires cfg.Valid() && cfg.maxDeferMs == 0 && cfg.perChatWindowMs >= 1 && Filled(cfg, s, k)
    ensures |evs| == 2 && evs[0] == Arrive(k + 1, Edit(7, 0), Useful) && !evs[1].Arrive?
    ensures IsRun(cfg, s, evs) && Timeless(evs) && OneFrame(cfg, End(cfg, s, evs), k)
  {
    assert InFlight(s, 7, 0) == {};
    var e, t := ArriveDue(cfg, s, k + 1, 0);
    var f, u, r := LonePasses(cfg, t, k + 1, 0, MessageTier);
    OneAfter(cfg, s, t, u, k, r);
    TwoLead(cfg, s, e, t, f, u);
    evs := [e, f];
  }

  /** Two frames in flight: the first past the message tier, the second past it too or
    * denied there. */
  ghost predicate TwoFrames(cfg: Config, s: State, k: nat) {
    && Shape(s) && Due(cfg, s, k + 1, 0, ChatTier) && InFlight(s, 7, 0) == {k + 1, k + 2}
    && |Window(cfg, s, KEdits(7))| >= k && OnlyFrames(s, k)
    && (Due(cfg, s, k + 2, 0, ChatTier) || RefusedFrame(s, k + 2))
  }

  ghost predicate RefusedFrame(s: State, id: nat) {
    && id in s.calls && s.calls[id].kind == Edit(7, 0) && s.calls[id].rest.Denied?
    && (s.calls[id].stage == MessageTier || s.calls[id].stage == ChatTier)
  }

  lemma TwoAfter(cfg: Config, s: State, t: State, u: State, k: nat, r: Reservation)
    requires cfg.perChatWindowMs >= 1 && OneFrame(cfg, s, k)
    requires k + 2 in t.calls && t == s.(calls := s.calls[k + 2 := t.calls[k + 2]])
    requires Due(cfg, t, k + 2, 0, MessageTier)
    requires || u == t.(calls := t.calls[k + 2 := t.calls[k + 2].(rest := Denied)])
             || (MovesOn(t, u, k + 2, ChatTier, r) && r.at == t.now && r.lane == Single(KMessage(7, 0)))
    requires Shape(u) && InFlight(u, 7, 0) == {k + 1, k + 2}
    ensures TwoFrames(cfg, u, k)
  {
    if u.log != t.log {
      WindowGrows(cfg, t, u, r, KEdits(7));
    }
  }

  lemma SecondFrame(cfg: Config, s: State, k: nat) returns (evs: seq<Event>)
    requires cfg.Valid() && cfg.maxDeferMs == 0 && cfg.perChatWindowMs >= 1 && OneFrame(cfg, s, k)
    ensures |evs| == 2 && evs[0] == Arrive(k + 2, Edit(7, 0), Useful) && !evs[1].Arrive?
    ensures IsRun(cfg, s, evs) && Timeless(evs) && TwoFrames(cfg, End(cfg, s, evs), k)
  {
    var e, t := ArriveDue(cfg, s, k + 2, 0);
    assert InFlight(t, 7, 0) == {k + 1, k + 2};
    var f, u, r := SecondAtMessage(cfg, t, k + 2, 0);
    TwoAfter(cfg, s, t, u, k, r);
    TwoLead(cfg, s, e, t, f, u);
    evs := [e, f];
  }

  /** Both frames denied, both still counted. */
  ghost predicate TwoDenied(s: State, k: nat) {
    && Shape(s) && InFlight(s, 7, 0) == {k + 1, k + 2} && OnlyFrames(s, k)
    && RefusedFrame(s, k + 1) && RefusedFrame(s, k + 2)
  }

  ghost predicate QuietRun(evs: seq<Event>) {
    Timeless(evs) && forall i :: 0 <= i < |evs| ==> !evs[i].Arrive?
  }

  /** The first frame denied, the second denied or about to be. */
  ghost predicate FirstGone(cfg: Config, s: State, k: nat) {
    && Shape(s) && InFlight(s, 7, 0) == {k + 1, k + 2} && OnlyFrames(s, k) && RefusedFrame(s, k + 1)
    && |Window(cfg, s, KEdits(7))| >= k && (Due(cfg, s, k + 2, 0, ChatTier) || RefusedFrame(s, k + 2))
  }

  lemma FirstAfter(cfg: Config, s: State, t: State, k: nat)
    requires TwoFrames(cfg, s, k) && t == s.(calls := s.calls[k + 1 := s.calls[k + 1].(rest := Denied)])
    requires Shape(t) && InFlight(t, 7, 0) == {k + 1, k + 2}
    ensures FirstGone(cfg, t, k)
  {
    assert Window(cfg, t, KEdits(7)) == Window(cfg, s, KEdits(7));
  }

  /** The first frame is denied because the second counts. */
  lemma FirstDenied(cfg: Config, s: State, k: nat) returns (evs: seq<Event>)
    requires cfg.Valid() && cfg.maxDeferMs == 0 && TwoFrames(cfg, s, k) && k == cfg.perChatEditMax
    ensures IsRun(cfg, s, evs) && QuietRun(evs) && FirstGone(cfg, End(cfg, s, evs), k)
  {
    assert |{k + 1, k + 2}| == 2;
    var e, t := PairDenied(cfg, s, k + 1, 0);
    FirstAfter(cfg, s, t, k);
    OneLeads(cfg, s, e, t);
    evs := [e];
  }

  /** The second, if not denied before, is denied because the first still counts. */
  lemma SecondDenied(cfg: Config, s: State, k: nat) returns (evs: seq<Event>)
    requires cfg.Valid() && cfg.maxDeferMs == 0 && k == cfg.perChatEditMax && FirstGone(cfg, s, k)
    ensures IsRun(cfg, s, evs) && QuietRun(evs) && TwoDenied(End(cfg, s, evs), k)
  {
    if RefusedFrame(s, k + 2) {
      evs := [];
    } else {
      assert |{k + 1, k + 2}| == 2;
      var e, t := PairDenied(cfg, s, k + 2, 0);
      OneLeads(cfg, s, e, t);
      evs := [e];
    }
  }

  lemma BothLeave(cfg: Config, s: State, k: nat) returns (evs: seq<Event>)
    requires cfg.Valid() && TwoDenied(s, k)
    ensures IsRun(cfg, s, evs) && QuietRun(evs) && InFlight(End(cfg, s, evs), 7, 0) == {}
    ensures forall id :: !FrameThrough(End(cfg, s, evs), id, 7, 0)
  {
    var e, t := DeniedLeaves(cfg, s, k + 1, 0);
    var f, u := DeniedLeaves(cfg, t, k + 2, 0);
    TwoLead(cfg, s, e, t, f, u);
    evs := [e, f];
    NoneThrough(s, t, u, k);
  }

  lemma NoneThrough(s: State, t: State, u: State, k: nat)
    requires OnlyFrames(s, k) && k + 1 in s.calls && k + 2 in s.calls
    requires t.calls == s.calls[k + 1 := s.calls[k + 1].(stage := Dropped, counted := false)]
    requires u.calls == t.calls[k + 2 := t.calls[k + 2].(stage := Dropped, counted := false)]
    ensures forall id :: !FrameThrough(u, id, 7, 0)
  {
  }

  /** Where calls may not wait, a burst of two is swallowed: both arrive at once with the
    * chat's edit window full, and each is denied while the other, though denied as well,
    * still counts as in flight. */
  lemma BurstSwallowed(cfg: Config) returns (before: seq<Event>, burst: seq<Event>)
    requires cfg.Valid() && cfg.maxDeferMs == 0 && cfg.perChatWindowMs >= 1
    ensures Swallowed(cfg, 0, before, burst, 7, 0)
  {
    var k := cfg.perChatEditMax;
    before := FillEdits(cfg, k);
    TimelessIsPrompt(cfg, Init(0), before);
    var s := End(cfg, Init(0), before);
    burst := TwoGo(cfg, s, k);
    TimelessIsPrompt(cfg, s, burst);
    assert InFlight(s, 7, 0) == {};
  }

  lemma TwoGo(cfg: Config, s: State, k: nat) returns (burst: seq<Event>)
    requires cfg.Valid() && cfg.maxDeferMs == 0 && cfg.perChatWindowMs >= 1
    requires Filled(cfg, s, k) && k == cfg.perChatEditMax
    ensures IsRun(cfg, s, burst) && Timeless(burst) && BurstIsPlain(burst, 7, 0)
    ensures burst != [] && burst[0] == Arrive(k + 1, Edit(7, 0), Useful)
    ensures InFlight(End(cfg, s, burst), 7, 0) == {} && forall id :: !FrameThrough(End(cfg, s, burst), id, 7, 0)
  {
    var one := FirstFrame(cfg, s, k);
    var t := End(cfg, s, one);
    var two := SecondFrame(cfg, t, k);
    var rest := NeitherPasses(cfg, End(cfg, t, two), k);
    Onward(cfg, t, two, rest);
    Onward(cfg, s, one, two + rest);
    burst := one + (two + rest);
    Pieces(one, two, rest);
  }

  lemma NeitherPasses(cfg: Config, s: State, k: nat) returns (evs: seq<Event>)
    requires cfg.Valid() && cfg.maxDeferMs == 0 && TwoFrames(cfg, s, k) && k == cfg.perChatEditMax
    ensures IsRun(cfg, s, evs) && QuietRun(evs) && InFlight(End(cfg, s, evs), 7, 0) == {}
    ensures forall id :: !FrameThrough(End(cfg, s, evs), id, 7, 0)
  {
    var one := FirstDenied(cfg, s, k);
    var t := End(cfg, s, one);
    var rest := BothGo(cfg, t, k);
    Onward(cfg, s, one, rest);
    evs := one + rest;
  }

  lemma BothGo(cfg: Config, s: State, k: nat) returns (evs: seq<Event>)
    requires cfg.Valid() && cfg.maxDeferMs == 0 && k == cfg.perChatEditMax && FirstGone(cfg, s, k)
    ensures IsRun(cfg, s, evs) && QuietRun(evs) && InFlight(End(cfg, s, evs), 7, 0) == {}
    ensures forall id :: !FrameThrough(End(cfg, s, evs), id, 7, 0)
  {
    var two := SecondDenied(cfg, s, k);
    var three := BothLeave(cfg, End(cfg, s, two), k);
    Onward(cfg, s, two, three);
    evs := two + three;
  }

  lemma Pieces(one: seq<Event>, two: seq<Event>, rest: seq<Event>)
    requires |one| == |two| == 2 && Timeless(one) && Timeless(two) && QuietRun(rest)
    requires one[0].Arrive? && one[0].cls == Useful && !one[1].Arrive?
    requires two[0].Arrive? && two[0].cls == Useful && !two[1].Arrive?
    ensures var all := one + (two + rest); Timeless(all) && BurstIsPlain(all, 7, 0) && all[0] == one[0]
  {
    var all := one + (two + rest);
    forall i | 0 <= i < |all|
      ensures !all[i].Tick? && !all[i].Wake? && (all[i].Arrive? ==> all[i].cls == Useful)
    {
      assert all[i] == if i < 2 then one[i] else if i < 4 then two[i - 2] else rest[i - 4];
    }
  }

  /** Whether a burst can be swallowed at all. */
  ghost predicate EverSwallows(cfg: Config)
    requires cfg.Valid()
  {
    exists start, before, burst, chat, msg :: Swallowed(cfg, start, before, burst, chat, msg)
  }

  /** The guard is exact: with a chat window of any width, bursts are safe if and only if
    * calls may wait at least a millisecond. */
  lemma BurstGuardExact(cfg: Config)
    requires cfg.Valid() && cfg.perChatWindowMs >= 1
    ensures !EverSwallows(cfg) <==> cfg.maxDeferMs >= 1
  {
    if cfg.maxDeferMs == 0 {
      var before, burst := BurstSwallowed(cfg);
    } else if EverSwallows(cfg) {
      var start, before, burst, chat, msg :| Swallowed(cfg, start, before, burst, chat, msg);
      var through := NoBurstSwallowed(cfg, start, before, burst, chat, msg);
    }
  }
}
