/** No burst of edits to one message is swallowed whole: superseding and deadline drops
  * always leave a frame to get through, provided calls may wait at all. */
module FuseBursts {
  import opened Common
  import opened FuseCeilings
  import opened FuseProtocol
  import opened FuseRuns

  // -------------------------------------------------------------- the event loop

  /** A microtask of the call is queued. */
  predicate Queued(c: Call) {
    Active(c) && !c.rest.Asleep?
  }

  /** Timers fire, and the clock moves, only between macrotasks: when no microtask of the
    * fuse is queued. */
  ghost predicate Prompt(s: State, ev: Event) {
    ev.Tick? || ev.Wake? ==> forall id :: id in s.calls ==> !Queued(s.calls[id])
  }

  ghost predicate PromptRun(cfg: Config, s: State, evs: seq<Event>)
    requires cfg.Valid() && Shape(s) && IsRun(cfg, s, evs)
    decreases evs
  {
    evs == [] ||
    (Prompt(s, evs[0]) &&
     (StepKeepsShape(cfg, s, evs[0]); PromptRun(cfg, Next(cfg, s, evs[0]), evs[1..])))
  }

  /** An edit that arrived before now and has a pass of its wait loop, or its drop, queued. */
  predicate Late(s: State, id: nat) {
    && id in s.calls && s.calls[id].kind.Edit? && Active(s.calls[id])
    && s.calls[id].arrived < s.now && (s.calls[id].rest.Runnable? || s.calls[id].rest.Denied?)
  }

  /** At most one such edit at a time; a denied edit is one. */
  ghost predicate LoopInv(s: State) {
    && (forall id :: id in s.calls ==> s.calls[id].arrived <= s.now)
    && (forall a, b :: Late(s, a) && Late(s, b) ==> a == b)
    && (forall id :: id in s.calls && s.calls[id].kind.Edit? && Active(s.calls[id]) && s.calls[id].rest.Denied? ==>
          Late(s, id))
  }

  lemma DenyIsLate(cfg: Config, s: State, c: Call, level: nat, cap: nat)
    requires cfg.Valid() && WellStaged(c) && Active(c) && Try(cfg, s, c, level, cap).Deny?
    requires c.kind.Edit? && cfg.maxDeferMs >= 1
    ensures c.arrived < s.now
  {
  }

  /** What an attempt does to the other calls: at most the waiter of its own message is
    * superseded, and then the call itself sleeps in its place. */
  lemma AttemptOnOthers(cfg: Config, s: State, ev: Event, x: nat)
    requires cfg.Valid() && Shape(s) && Enabled(cfg, s, ev) && ev.Attempt? && x in s.calls && x != ev.id
    ensures var t := Next(cfg, s, ev); x in t.calls
    ensures var t := Next(cfg, s, ev);
      t.calls[x] != s.calls[x] ==>
        && t.calls[x] == s.calls[x].(rest := Killed) && s.calls[x].rest.Asleep?
        && t.calls[ev.id].rest.Asleep? && t.calls[ev.id].counted && t.calls[ev.id].kind == s.calls[x].kind
  {
    assert WellStaged(s.calls[ev.id]);
  }

  lemma AttemptOnSelf(cfg: Config, s: State, ev: Event)
    requires cfg.Valid() && Shape(s) && Enabled(cfg, s, ev) && ev.Attempt?
    ensures var t, c := Next(cfg, s, ev), s.calls[ev.id];
      && ev.id in t.calls && t.now == s.now
      && t.calls[ev.id].kind == c.kind && t.calls[ev.id].cls == c.cls && t.calls[ev.id].arrived == c.arrived
      && !t.calls[ev.id].rest.Killed? && t.calls[ev.id].stage in {c.stage, NextStage(c.stage)}
      && t.calls[ev.id].counted == StillCounted(c)
      && t.calls.Keys == s.calls.Keys
  {
    assert WellStaged(s.calls[ev.id]);
  }

  lemma DeniedByTry(cfg: Config, s: State, ev: Event)
    requires cfg.Valid() && Shape(s) && Enabled(cfg, s, ev) && ev.Attempt?
    requires Next(cfg, s, ev).calls[ev.id].rest.Denied?
    ensures WellStaged(s.calls[ev.id]) && Try(cfg, s, s.calls[ev.id], ev.level, ev.cap).Deny?
  {
    assert WellStaged(s.calls[ev.id]);
  }

  lemma AttemptKeepsLoop(cfg: Config, s: State, ev: Event)
    requires cfg.Valid() && cfg.maxDeferMs >= 1 && Shape(s) && LoopInv(s) && Enabled(cfg, s, ev) && ev.Attempt?
    ensures LoopInv(Next(cfg, s, ev))
  {
    var t := Next(cfg, s, ev);
    AttemptOnSelf(cfg, s, ev);
    forall x | x in t.calls && x != ev.id
      ensures t.calls[x] == s.calls[x] || t.calls[x] == s.calls[x].(rest := Killed)
    {
      AttemptOnOthers(cfg, s, ev, x);
    }
    assert forall x :: Late(t, x) ==> Late(s, x);
    if t.calls[ev.id].rest.Denied? && s.calls[ev.id].kind.Edit? {
      DeniedByTry(cfg, s, ev);
      DenyIsLate(cfg, s, s.calls[ev.id], ev.level, ev.cap);
    }
  }

  lemma OtherKeepsLoop(cfg: Config, s: State, ev: Event)
    requires cfg.Valid() && Shape(s) && LoopInv(s) && Enabled(cfg, s, ev) && !ev.Attempt? && Prompt(s, ev)
    ensures LoopInv(Next(cfg, s, ev))
  {
    var t := Next(cfg, s, ev);
    if ev.Wake? {
      assert forall x :: Late(t, x) ==> x == ev.id;
    } else if ev.Tick? {
      assert forall x :: !Late(t, x);
    } else {
      assert forall x :: Late(t, x) ==> Late(s, x);
    }
  }

  lemma {:induction false} RunKeepsLoop(cfg: Config, s: State, evs: seq<Event>)
    requires cfg.Valid() && cfg.maxDeferMs >= 1 && Shape(s) && LoopInv(s)
    requires IsRun(cfg, s, evs) && PromptRun(cfg, s, evs)
    ensures LoopInv(End(cfg, s, evs))
    decreases evs
  {
    if evs != [] {
      StepKeepsShape(cfg, s, evs[0]);
      StepKeepsLoop(cfg, s, evs[0]);
      RunKeepsLoop(cfg, Next(cfg, s, evs[0]), evs[1..]);
    }
  }

  lemma StepKeepsLoop(cfg: Config, s: State, ev: Event)
    requires cfg.Valid() && cfg.maxDeferMs >= 1 && Shape(s) && LoopInv(s) && Enabled(cfg, s, ev) && Prompt(s, ev)
    ensures LoopInv(Next(cfg, s, ev))
  {
    if ev.Attempt? {
      AttemptKeepsLoop(cfg, s, ev);
    } else {
      OtherKeepsLoop(cfg, s, ev);
    }
  }

  // ------------------------------------------------------------------ the last hope

  /** The frames in flight that are neither superseded nor denied. */
  function Hope(s: State, chat: int, msg: int): set<nat> {
    set id | id in InFlight(s, chat, msg) && (s.calls[id].rest.Runnable? || s.calls[id].rest.Asleep?)
  }

  /** A frame of the message that has passed every tier but the token's, which drops
    * nothing. */
  ghost predicate FrameThrough(s: State, id: nat, chat: int, msg: int) {
    id in s.calls && s.calls[id].kind == Edit(chat, msg) && s.calls[id].stage in {TokenTier, Passed}
  }

  /** Steps other than attempts take no hope away. */
  lemma OtherKeepsHope(cfg: Config, s: State, ev: Event, chat: int, msg: int)
    requires cfg.Valid() && Shape(s) && Enabled(cfg, s, ev) && !ev.Attempt?
    ensures Hope(s, chat, msg) <= Hope(Next(cfg, s, ev), chat, msg)
  {
  }

  /** An attempt takes hope away from its own call only, unless that then sleeps in the
    * place of the waiter it supersedes. */
  lemma AttemptKeepsHope(cfg: Config, s: State, ev: Event, chat: int, msg: int, x: nat)
    requires cfg.Valid() && Shape(s) && Enabled(cfg, s, ev) && ev.Attempt?
    requires x in Hope(s, chat, msg) && x != ev.id
    ensures Hope(Next(cfg, s, ev), chat, msg) != {}
  {
    var t := Next(cfg, s, ev);
    AttemptOnOthers(cfg, s, ev, x);
    if t.calls[x] == s.calls[x] {
      assert x in Hope(t, chat, msg);
    } else {
      assert ev.id in Hope(t, chat, msg);
    }
  }

  /** A drop for the sake of another frame in flight leaves hope: were all others superseded
    * or denied, a waiter would be left, or two late edits would be running at once. */
  lemma DropLeavesHope(cfg: Config, s: State, id: nat, chat: int, msg: int)
    requires cfg.Valid() && Shape(s) && LoopInv(s)
    requires id in InFlight(s, chat, msg) && s.calls[id].rest.Runnable? && Active(s.calls[id])
    requires s.calls[id].arrived < s.now
    requires |InFlight(s, chat, msg)| > 1
    ensures Hope(s, chat, msg) - {id} != {}
  {
    var others := InFlight(s, chat, msg) - {id};
    assert |others| >= 1;
    var x := Member(others);
    assert WellStaged(s.calls[x]);
    if s.calls[x].rest.Denied? {
      assert Late(s, x) && Late(s, id);
    } else if s.calls[x].rest.Killed? {
      assert Superseded(s.calls[x], chat, msg);
      var w := s.waiter[(chat, msg)];
      assert WellStaged(s.calls[w]);
      assert w in Hope(s, chat, msg) - {id};
    } else {
      assert x in Hope(s, chat, msg) - {id};
    }
  }

  /** The one step that can take the last hope of a message away is an attempt of that very
    * frame: it gets through, or it is cosmetic and the late-release budget is spent. */
  lemma LastHopeLeaves(cfg: Config, s: State, ev: Event, chat: int, msg: int)
    requires cfg.Valid() && cfg.maxDeferMs >= 1 && Shape(s) && LoopInv(s) && Enabled(cfg, s, ev)
    requires Hope(s, chat, msg) != {} && Hope(Next(cfg, s, ev), chat, msg) == {}
    ensures ev.Attempt? && Hope(s, chat, msg) == {ev.id}
    ensures FrameThrough(Next(cfg, s, ev), ev.id, chat, msg)
         || (s.calls[ev.id].cls == Cosmetic && LateBudgetSpent(cfg, s, chat, ev.level))
  {
    if !ev.Attempt? {
      OtherKeepsHope(cfg, s, ev, chat, msg);
    }
    var x := Member(Hope(s, chat, msg));
    forall y | y in Hope(s, chat, msg)
      ensures y == ev.id
    {
      if y != ev.id {
        AttemptKeepsHope(cfg, s, ev, chat, msg, y);
      }
    }
    assert x == ev.id;
    LastAttempt(cfg, s, ev, chat, msg);
  }

  lemma LastAttempt(cfg: Config, s: State, ev: Event, chat: int, msg: int)
    requires cfg.Valid() && cfg.maxDeferMs >= 1 && Shape(s) && LoopInv(s) && Enabled(cfg, s, ev) && ev.Attempt?
    requires Hope(s, chat, msg) == {ev.id} && Hope(Next(cfg, s, ev), chat, msg) == {}
    ensures FrameThrough(Next(cfg, s, ev), ev.id, chat, msg)
         || (s.calls[ev.id].cls == Cosmetic && LateBudgetSpent(cfg, s, chat, ev.level))
  {
    var t, id, c := Next(cfg, s, ev), ev.id, s.calls[ev.id];
    assert id in Hope(s, chat, msg);
    AttemptOnSelf(cfg, s, ev);
    assert WellStaged(c);
    if c.stage != TokenTier {
      assert id in InFlight(t, chat, msg) && id !in Hope(t, chat, msg);
      assert t.calls[id].rest.Denied?;
      DeniedByTry(cfg, s, ev);
      DenyIsLate(cfg, s, c, ev.level, ev.cap);
      if |InFlight(s, chat, msg)| > 1 {
        DropLeavesHope(cfg, s, id, chat, msg);
      }
      DenyReason(cfg, s, c, ev.level, ev.cap);
    }
  }

  /** Why an edit is denied. */
  lemma DenyReason(cfg: Config, s: State, c: Call, level: nat, cap: nat)
    requires cfg.Valid() && WellStaged(c) && Active(c) && c.kind.Edit? && Try(cfg, s, c, level, cap).Deny?
    ensures |InFlight(s, c.kind.chat, c.kind.msg)| > 1
         || (c.cls == Cosmetic && LateBudgetSpent(cfg, s, c.kind.chat, level))
  {
  }

  // -------------------------------------------------------------------- whole bursts

  /** No frame of the message that arrives in the burst is cosmetic. */
  ghost predicate BurstIsPlain(evs: seq<Event>, chat: int, msg: int) {
    forall i :: 0 <= i < |evs| && evs[i].Arrive? && evs[i].kind == Edit(chat, msg) ==> evs[i].cls != Cosmetic
  }

  ghost predicate PlainFrames(s: State, chat: int, msg: int) {
    forall id :: id in InFlight(s, chat, msg) ==> s.calls[id].cls != Cosmetic
  }

  lemma InFlightBefore(cfg: Config, s: State, ev: Event, id: nat, chat: int, msg: int)
    requires cfg.Valid() && Shape(s) && Enabled(cfg, s, ev) && id in InFlight(Next(cfg, s, ev), chat, msg)
    ensures id in InFlight(s, chat, msg) || (ev.Arrive? && ev.id == id && ev.kind == Edit(chat, msg))
    ensures id in s.calls ==> Next(cfg, s, ev).calls[id].cls == s.calls[id].cls
  {
    if ev.Attempt? {
      AttemptOnSelf(cfg, s, ev);
      if ev.id != id {
        AttemptOnOthers(cfg, s, ev, id);
      }
    }
  }

  lemma StepKeepsPlain(cfg: Config, s: State, ev: Event, chat: int, msg: int)
    requires cfg.Valid() && Shape(s) && Enabled(cfg, s, ev) && PlainFrames(s, chat, msg)
    requires ev.Arrive? && ev.kind == Edit(chat, msg) ==> ev.cls != Cosmetic
    ensures PlainFrames(Next(cfg, s, ev), chat, msg)
  {
    forall id | id in InFlight(Next(cfg, s, ev), chat, msg)
      ensures Next(cfg, s, ev).calls[id].cls != Cosmetic
    {
      InFlightBefore(cfg, s, ev, id, chat, msg);
    }
  }

  lemma StepKeepsThrough(cfg: Config, s: State, ev: Event, id: nat, chat: int, msg: int)
    requires cfg.Valid() && Shape(s) && Enabled(cfg, s, ev) && FrameThrough(s, id, chat, msg)
    ensures FrameThrough(Next(cfg, s, ev), id, chat, msg)
  {
    assert WellStaged(s.calls[id]);
    if ev.Attempt? {
      AttemptOnSelf(cfg, s, ev);
      if ev.id != id {
        AttemptOnOthers(cfg, s, ev, id);
      }
    }
  }

  lemma {:induction false} RunKeepsThrough(cfg: Config, s: State, evs: seq<Event>, id: nat, chat: int, msg: int)
    requires cfg.Valid() && Shape(s) && IsRun(cfg, s, evs) && FrameThrough(s, id, chat, msg)
    ensures FrameThrough(End(cfg, s, evs), id, chat, msg)
    decreases evs
  {
    if evs != [] {
      StepKeepsShape(cfg, s, evs[0]);
      StepKeepsThrough(cfg, s, evs[0], id, chat, msg);
      RunKeepsThrough(cfg, Next(cfg, s, evs[0]), evs[1..], id, chat, msg);
    }
  }

  /** From a state with hope for the message, reaching one with nothing in flight means that
    * some frame got through on the way, or was just getting through. */
  lemma {:induction false} SomeFramePasses(cfg: Config, s: State, evs: seq<Event>, chat: int, msg: int, known: set<nat>)
    returns (id: nat)
    requires cfg.Valid() && cfg.maxDeferMs >= 1 && Shape(s) && LoopInv(s)
    requires IsRun(cfg, s, evs) && PromptRun(cfg, s, evs)
    requires PlainFrames(s, chat, msg) && BurstIsPlain(evs, chat, msg)
    requires Hope(s, chat, msg) != {} && InFlight(End(cfg, s, evs), chat, msg) == {}
    requires known !! InFlight(s, chat, msg) && known <= s.calls.Keys
    ensures FrameThrough(End(cfg, s, evs), id, chat, msg) && id !in known
    decreases evs
  {
    assert Hope(s, chat, msg) <= InFlight(s, chat, msg);
    var t := Next(cfg, s, evs[0]);
    var rest := evs[1..];
    StepKeepsShape(cfg, s, evs[0]);
    StepKeepsLoop(cfg, s, evs[0]);
    assert evs[0].Arrive? && evs[0].kind == Edit(chat, msg) ==> evs[0].cls != Cosmetic;
    StepKeepsPlain(cfg, s, evs[0], chat, msg);
    if Hope(t, chat, msg) == {} {
      LastHopeLeaves(cfg, s, evs[0], chat, msg);
      id := evs[0].id;
      assert id in Hope(s, chat, msg) && id in InFlight(s, chat, msg);
      RunKeepsThrough(cfg, t, rest, id, chat, msg);
    } else {
      assert BurstIsPlain(rest, chat, msg) by {
        assert forall i :: 0 <= i < |rest| ==> rest[i] == evs[i + 1];
      }
      KnownStayOut(cfg, s, evs[0], chat, msg, known);
      id := SomeFramePasses(cfg, t, rest, chat, msg, known);
    }
  }

  lemma KnownStayOut(cfg: Config, s: State, ev: Event, chat: int, msg: int, known: set<nat>)
    requires cfg.Valid() && Shape(s) && Enabled(cfg, s, ev)
    requires known !! InFlight(s, chat, msg) && known <= s.calls.Keys
    ensures known !! InFlight(Next(cfg, s, ev), chat, msg) && known <= Next(cfg, s, ev).calls.Keys
  {
    forall id | id in known && id in InFlight(Next(cfg, s, ev), chat, msg)
      ensures false
    {
      InFlightBefore(cfg, s, ev, id, chat, msg);
    }
    if ev.Attempt? {
      AttemptOnSelf(cfg, s, ev);
    }
  }

  /** A burst: from nothing in flight for the message, an arrival, and any further steps, to
    * nothing in flight again; no frame of it cosmetic. */
  ghost predicate IsBurst(cfg: Config, start: int, before: seq<Event>, burst: seq<Event>, chat: int, msg: int)
    requires cfg.Valid()
  {
    && IsRun(cfg, Init(start), before) && PromptRun(cfg, Init(start), before)
    && var s := End(cfg, Init(start), before);
    && InFlight(s, chat, msg) == {} && IsRun(cfg, s, burst) && PromptRun(cfg, s, burst)
    && burst != [] && burst[0].Arrive? && burst[0].kind == Edit(chat, msg) && BurstIsPlain(burst, chat, msg)
    && InFlight(End(cfg, s, burst), chat, msg) == {}
  }

  /** No frame of the burst gets through. */
  ghost predicate Swallowed(cfg: Config, start: int, before: seq<Event>, burst: seq<Event>, chat: int, msg: int)
    requires cfg.Valid()
  {
    && IsBurst(cfg, start, before, burst, chat, msg)
    && var s := End(cfg, Init(start), before);
    forall id :: FrameThrough(End(cfg, s, burst), id, chat, msg) ==> id in s.calls
  }

  /** If calls may wait at all, every burst of edits to one message that are not cosmetic
    * gets at least one of its frames through. */
  lemma NoBurstSwallowed(cfg: Config, start: int, before: seq<Event>, burst: seq<Event>, chat: int, msg: int)
    returns (through: nat)
    requires cfg.Valid() && cfg.maxDeferMs >= 1 && IsBurst(cfg, start, before, burst, chat, msg)
    ensures var s := End(cfg, Init(start), before);
      through !in s.calls && FrameThrough(End(cfg, s, burst), through, chat, msg)
  {
    RunKeepsLoop(cfg, Init(start), before);
    var s := End(cfg, Init(start), before);
    var t := Next(cfg, s, burst[0]);
    var rest := burst[1..];
    StepKeepsShape(cfg, s, burst[0]);
    StepKeepsLoop(cfg, s, burst[0]);
    assert burst[0].cls != Cosmetic;
    StepKeepsPlain(cfg, s, burst[0], chat, msg);
    assert burst[0].id in Hope(t, chat, msg);
    assert BurstIsPlain(rest, chat, msg) by {
      assert forall i :: 0 <= i < |rest| ==> rest[i] == burst[i + 1];
    }
    KnownStayOut(cfg, s, burst[0], chat, msg, s.calls.Keys);
    through := SomeFramePasses(cfg, t, rest, chat, msg, s.calls.Keys);
  }
}
