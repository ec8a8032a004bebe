/** The answer-ready controller: a quiescence debounce, then a staging window, then at most
  * one delivery of a turn's composed answer. */
module AnswerReady {
  import opened Common

  /** What the arm predicate looks at; `flushable` is the turn-flush classifier's answer. */
  datatype ArmInput = ArmInput(flushable: bool, inFlightTools: int, pendingAsync: bool, windowMs: int)

  predicate ShouldArm(input: ArmInput) {
    input.windowMs > 0 && input.inFlightTools <= 0 && !input.pendingAsync && input.flushable
  }

  datatype Timer = Timer(turn: nat, due: int)

  /** The gateway as the controller sees it. Turns and timer handles are numbered. Turns
    * in `retired` have ended; `log` is what has happened so far. */
  datatype State = State(clock: int, current: Option<nat>, retired: set<nat>, staged: set<nat>,
                         handle: map<nat, nat>, timers: map<nat, Timer>, nextHandle: nat, log: seq<Entry>)

  datatype Event =
    | Advance(ms: nat)
    | Switch(turn: Option<nat>)
    | EndTurn
    | Reset(input: ArmInput)
    | Clear(turn: Option<nat>)
    | Expire(timer: nat, input: ArmInput)

  /** An event with its time, the turn that was current, the turn its timer was armed for,
    * and the turn it delivered. */
  datatype Entry = Entry(at: int, event: Event, current: Option<nat>, armedFor: Option<nat>, delivered: Option<nat>)

  /** A timer fires at or after it is due; an ended turn does not come back. */
  predicate Enabled(s: State, ev: Event) {
    match ev
    case Switch(turn) => turn.Some? ==> turn.value !in s.retired
    case Expire(id, _) => id in s.timers && s.timers[id].due <= s.clock
    case _ => true
  }

  // ------------------------------------------------------------------------- operations

  function Disarmed(s: State, turn: nat): State {
    var s1 := s.(staged := s.staged - {turn});
    if turn in s.handle then s1.(timers := s.timers - {s.handle[turn]}, handle := s.handle - {turn}) else s1
  }

  function Armed(s: State, turn: nat, ms: int): State {
    s.(timers := s.timers[s.nextHandle := Timer(turn, s.clock + ms)], handle := s.handle[turn := s.nextHandle],
       nextHandle := s.nextHandle + 1)
  }

  /** A turn's end disarms it and empties the atom. */
  function Retired(s: State, turn: nat): State {
    Disarmed(s, turn).(current := None, retired := s.retired + {turn})
  }

  function AfterReset(s: State, input: ArmInput): State {
    match s.current
    case None => s
    case Some(turn) =>
      var s1 := Disarmed(s, turn);
      if ShouldArm(input) then Armed(s1, turn, input.windowMs) else s1
  }

  /** The timer has left the queue; its callback is about to run. */
  function Fired(s: State, id: nat): State {
    s.(timers := s.timers - {id})
  }

  predicate Delivers(stageMs: int, s: State, turn: nat, input: ArmInput) {
    s.current == Some(turn) && ShouldArm(input) && (stageMs <= 0 || turn in s.staged)
  }

  function AfterExpiry(stageMs: int, s: State, turn: nat, input: ArmInput): State {
    if s.current != Some(turn) then s
    else
      var s1 := s.(handle := s.handle - {turn});
      if !ShouldArm(input) then s1.(staged := s.staged - {turn})
      else if stageMs > 0 && turn !in s.staged then Armed(s1.(staged := s.staged + {turn}), turn, stageMs)
      else Retired(s1.(staged := s.staged - {turn}), turn)
  }

  /** The log entry an event leaves. */
  function EntryOf(stageMs: int, s: State, ev: Event): Entry
    requires Enabled(s, ev)
  {
    var armedFor := if ev.Expire? then Some(s.timers[ev.timer].turn) else None;
    Entry(s.clock, ev, s.current, armedFor,
          if ev.Expire? && Delivers(stageMs, s, armedFor.value, ev.input) then armedFor else None)
  }

  function Effect(stageMs: int, s: State, ev: Event): State
    requires Enabled(s, ev)
  {
    match ev
    case Advance(ms) => s.(clock := s.clock + ms)
    case Switch(turn) => s.(current := turn)
    case EndTurn => if s.current.Some? then Retired(s, s.current.value) else s
    case Reset(input) => AfterReset(s, input)
    case Clear(turn) => if turn.Some? then Disarmed(s, turn.value) else s
    case Expire(id, input) => AfterExpiry(stageMs, Fired(s, id), s.timers[id].turn, input)
  }

  function Next(stageMs: int, s: State, ev: Event): State
    requires Enabled(s, ev)
  {
    Effect(stageMs, s, ev).(log := s.log + [EntryOf(stageMs, s, ev)])
  }

  const Idle := State(0, None, {}, {}, map[], map[], 0, [])

  // ------------------------------------------------------------------- the controller

  /** The controller with the gateway fields it reads and writes. */
  class Controller {
    const stageMs: int
    var clock: int
    var current: Option<nat>
    var retired: set<nat>
    var staged: set<nat>
    var handle: map<nat, nat>
    var timers: map<nat, Timer>
    var nextHandle: nat
    ghost var log: seq<Entry>

    ghost function Abs(): State
      reads this
    {
      State(clock, current, retired, staged, handle, timers, nextHandle, log)
    }

    constructor (stageMs: int)
      ensures this.stageMs == stageMs && Abs() == Idle
    {
      this.stageMs := stageMs;
      clock, current, retired, staged := 0, None, {}, {};
      handle, timers, nextHandle, log := map[], map[], 0, [];
    }

    method Disarm(turn: Option<nat>)
      modifies this`staged, this`handle, this`timers
      ensures Abs() == if turn.Some? then Disarmed(old(Abs()), turn.value) else old(Abs())
    {
      if turn.None? {
        return;
      }
      staged := staged - {turn.value};
      if turn.value in handle {
        timers := timers - {handle[turn.value]};
        handle := handle - {turn.value};
      }
    }

    method Arm(turn: nat, ms: int)
      modifies this`handle, this`timers, this`nextHandle
      ensures Abs() == Armed(old(Abs()), turn, ms)
    {
      timers := timers[nextHandle := Timer(turn, clock + ms)];
      handle := handle[turn := nextHandle];
      nextHandle := nextHandle + 1;
    }

    /** The gateway's end of turn, which delivery also goes through. */
    method Retire(turn: nat)
      modifies this`staged, this`handle, this`timers, this`current, this`retired
      ensures Abs() == Retired(old(Abs()), turn)
    {
      Disarm(Some(turn));
      current := None;
      retired := retired + {turn};
    }

    method ResetTimer(input: ArmInput)
      modifies this`staged, this`handle, this`timers, this`nextHandle, this`log
      ensures Abs() == Next(stageMs, old(Abs()), Reset(input))
    {
      log := log + [EntryOf(stageMs, Abs(), Reset(input))];
      Disarm(current);
      if current.None? {
        return;
      }
      if !ShouldArm(input) {
        return;
      }
      Arm(current.value, input.windowMs);
    }

    method ClearTimer(turn: Option<nat>)
      modifies this`staged, this`handle, this`timers, this`log
      ensures Abs() == Next(stageMs, old(Abs()), Clear(turn))
    {
      log := log + [EntryOf(stageMs, Abs(), Clear(turn))];
      Disarm(turn);
    }

    method OnExpiry(id: nat, input: ArmInput) returns (delivered: bool)
      requires Enabled(Abs(), Expire(id, input))
      modifies this`staged, this`handle, this`timers, this`nextHandle, this`current, this`retired, this`log
      ensures Abs() == Next(stageMs, old(Abs()), Expire(id, input))
      ensures delivered == EntryOf(stageMs, old(Abs()), Expire(id, input)).delivered.Some?
    {
      log := log + [EntryOf(stageMs, Abs(), Expire(id, input))];
      var armedTurn := timers[id].turn;
      timers := timers - {id};
      delivered := false;
      if current.None? || current.value != armedTurn {
        return;
      }
      handle := handle - {armedTurn};
      if !ShouldArm(input) {
        staged := staged - {armedTurn};
        return;
      }
      if stageMs > 0 && armedTurn !in staged {
        staged := staged + {armedTurn};
        Arm(armedTurn, stageMs);
        return;
      }
      staged := staged - {armedTurn};
      delivered := true;
      Retire(armedTurn);
    }
  }

  // ------------------------------------------------------------------ what delivery needs

  /** The entry resets, clears or ends the turn. */
  predicate Touches(e: Entry, turn: nat) {
    match e.event
    case Reset(_) => e.current == Some(turn)
    case EndTurn => e.current == Some(turn)
    case Clear(t) => t == Some(turn)
    case _ => false
  }

  ghost predicate Untouched(log: seq<Entry>, turn: nat, from: nat) {
    forall k :: from <= k < |log| ==> !Touches(log[k], turn)
  }

  /** The entry armed the turn's debounce, with the arm predicate true. */
  predicate ArmsAt(e: Entry, turn: nat) {
    e.event.Reset? && e.current == Some(turn) && ShouldArm(e.event.input)
  }

  /** The entry is an expiry of the turn's timer, with the arm predicate true. */
  predicate PassesAt(e: Entry, turn: nat) {
    e.event.Expire? && e.armedFor == Some(turn) && e.current == Some(turn) && ShouldArm(e.event.input)
  }

  /** Armed at entry `i`, untouched since, and the full debounce ends at `due`. */
  ghost predicate Debounced(log: seq<Entry>, turn: nat, due: int, i: nat) {
    && i < |log| && ArmsAt(log[i], turn) && Untouched(log, turn, i + 1)
    && due == log[i].at + log[i].event.input.windowMs
  }

  /** Armed at `i`, staged at `j` after the full debounce, untouched since `i`, and the
    * full staging window ends at `due`. */
  ghost predicate StagedAt(log: seq<Entry>, stageMs: int, turn: nat, due: int, i: nat, j: nat) {
    && i < j < |log| && ArmsAt(log[i], turn) && Untouched(log, turn, i + 1)
    && PassesAt(log[j], turn) && log[j].at >= log[i].at + log[i].event.input.windowMs
    && due == log[j].at + stageMs
  }

  /** Why a pending timer is pending. */
  ghost predicate Founded(s: State, stageMs: int, turn: nat, due: int) {
    if turn in s.staged then exists i, j :: StagedAt(s.log, stageMs, turn, due, i, j)
    else exists i :: Debounced(s.log, turn, due, i)
  }

  /** A turn has at most one pending timer, the one its handle names. */
  ghost predicate OneTimer(s: State) {
    forall id :: id in s.timers ==>
      s.timers[id].turn in s.handle && s.handle[s.timers[id].turn] == id && id < s.nextHandle
  }

  ghost predicate AllFounded(s: State, stageMs: int) {
    forall id :: id in s.timers ==> Founded(s, stageMs, s.timers[id].turn, s.timers[id].due)
  }

  /** Delivered turns have ended, each was delivered once, and the current one has not. */
  ghost predicate OnceEach(s: State) {
    && (s.current.Some? ==> s.current.value !in s.retired)
    && (forall k :: 0 <= k < |s.log| && s.log[k].delivered.Some? ==> s.log[k].delivered.value in s.retired)
    && (forall j, k :: 0 <= j < k < |s.log| && s.log[k].delivered.Some? ==> s.log[j].delivered != s.log[k].delivered)
  }

  /** What a delivery rests on: with staging, a full debounce and then a full staging
    * window; without, a full debounce; either way with the arm predicate true at every
    * expiry and at arming, and no reset, clear or end of the turn in between. */
  ghost predicate Earned(log: seq<Entry>, stageMs: int, k: nat)
    requires k < |log|
  {
    log[k].delivered.Some? ==>
      var turn := log[k].delivered.value;
      && PassesAt(log[k], turn)
      && if stageMs > 0
         then exists i, j, due :: due <= log[k].at && StagedAt(log[..k], stageMs, turn, due, i, j)
         else exists i, due :: due <= log[k].at && Debounced(log[..k], turn, due, i)
  }

  ghost predicate AllEarned(s: State, stageMs: int) {
    forall k :: 0 <= k < |s.log| ==> Earned(s.log, stageMs, k)
  }

  ghost predicate Inv(s: State, stageMs: int) {
    OneTimer(s) && AllFounded(s, stageMs) && OnceEach(s) && AllEarned(s, stageMs) && (stageMs <= 0 ==> s.staged == {})
  }

  // ------------------------------------------------------------------ step preservation

  lemma DebouncedLater(log: seq<Entry>, e: Entry, turn: nat, due: int, i: nat)
    requires Debounced(log, turn, due, i) && !Touches(e, turn)
    ensures Debounced(log + [e], turn, due, i)
  {
  }

  lemma StagedLater(log: seq<Entry>, e: Entry, stageMs: int, turn: nat, due: int, i: nat, j: nat)
    requires StagedAt(log, stageMs, turn, due, i, j) && !Touches(e, turn)
    ensures StagedAt(log + [e], stageMs, turn, due, i, j)
  {
  }

  /** A timer that an event leaves alone keeps its foundation. */
  lemma FoundedLater(s: State, t: State, e: Entry, stageMs: int, turn: nat, due: int)
    requires Founded(s, stageMs, turn, due) && !Touches(e, turn)
    requires t.log == s.log + [e] && (turn in t.staged <==> turn in s.staged)
    ensures Founded(t, stageMs, turn, due)
  {
    if turn in s.staged {
      var i, j :| StagedAt(s.log, stageMs, turn, due, i, j);
      StagedLater(s.log, e, stageMs, turn, due, i, j);
    } else {
      var i :| Debounced(s.log, turn, due, i);
      DebouncedLater(s.log, e, turn, due, i);
    }
  }

  lemma EarnedLater(log: seq<Entry>, e: Entry, stageMs: int, k: nat)
    requires k < |log| && Earned(log, stageMs, k)
    ensures Earned(log + [e], stageMs, k)
  {
    assert (log + [e])[..k] == log[..k];
  }

  /** The debounce timer's expiry, where it passes, stages. */
  lemma NewlyStaged(log: seq<Entry>, e: Entry, stageMs: int, turn: nat, due: int, i: nat)
    requires Debounced(log, turn, due, i) && PassesAt(e, turn) && due <= e.at
    ensures StagedAt(log + [e], stageMs, turn, e.at + stageMs, i, |log|)
  {
    DebouncedLater(log, e, turn, due, i);
    assert (log + [e])[|log|] == e && (log + [e])[i] == log[i];
  }

  lemma NewlyArmed(log: seq<Entry>, e: Entry, turn: nat)
    requires ArmsAt(e, turn)
    ensures Debounced(log + [e], turn, e.at + e.event.input.windowMs, |log|)
  {
  }

  /** The turn has no timer pending. */
  ghost predicate NoTimer(s: State, turn: nat) {
    forall id :: id in s.timers ==> s.timers[id].turn != turn
  }

  lemma DisarmKeeps(s: State, turn: nat)
    requires OneTimer(s)
    ensures OneTimer(Disarmed(s, turn)) && NoTimer(Disarmed(s, turn), turn)
  {
  }

  lemma ArmKeeps(s: State, turn: nat, ms: int)
    requires OneTimer(s) && NoTimer(s, turn)
    ensures OneTimer(Armed(s, turn, ms))
  {
  }

  /** Once its timer has fired, a turn has none, and its handle may be dropped. */
  lemma FiredKeeps(s: State, id: nat)
    requires OneTimer(s) && id in s.timers
    ensures var turn, t := s.timers[id].turn, Fired(s, id);
      OneTimer(t) && NoTimer(t, turn) && OneTimer(t.(handle := t.handle - {turn}))
  {
  }

  lemma ExpiryKeepsTimers(stageMs: int, s: State, id: nat, input: ArmInput)
    requires OneTimer(s) && id in s.timers
    ensures OneTimer(AfterExpiry(stageMs, Fired(s, id), s.timers[id].turn, input))
  {
    var turn, t := s.timers[id].turn, Fired(s, id);
    FiredKeeps(s, id);
    var u := t.(handle := t.handle - {turn});
    ArmKeeps(u.(staged := t.staged + {turn}), turn, stageMs);
    DisarmKeeps(u.(staged := t.staged - {turn}), turn);
  }

  lemma StepKeepsTimers(stageMs: int, s: State, ev: Event)
    requires OneTimer(s) && Enabled(s, ev)
    ensures OneTimer(Effect(stageMs, s, ev))
  {
    match ev
    case Advance(_) =>
    case Switch(_) =>
    case EndTurn =>
      if s.current.Some? {
        DisarmKeeps(s, s.current.value);
      }
    case Reset(input) =>
      if s.current.Some? {
        DisarmKeeps(s, s.current.value);
        ArmKeeps(Disarmed(s, s.current.value), s.current.value, input.windowMs);
      }
    case Clear(turn) =>
      if turn.Some? {
        DisarmKeeps(s, turn.value);
      }
    case Expire(id, input) =>
      ExpiryKeepsTimers(stageMs, s, id, input);
  }

  lemma StagesOnlyWhenOn(stageMs: int, s: State, ev: Event)
    requires Enabled(s, ev) && stageMs <= 0 && s.staged == {}
    ensures Effect(stageMs, s, ev).staged == {}
  {
  }

  /** A timer that outlives a disarm belongs to another turn. */
  lemma DisarmSpares(s: State, turn: nat, id: nat)
    requires OneTimer(s) && id in s.timers && id in Disarmed(s, turn).timers
    ensures Disarmed(s, turn).timers[id] == s.timers[id] && s.timers[id].turn != turn
  {
  }

  /** A timer that outlives another's expiry belongs to another turn. */
  lemma ExpirySpares(stageMs: int, s: State, fired: nat, input: ArmInput, id: nat)
    requires OneTimer(s) && fired in s.timers && id in s.timers
    requires id in AfterExpiry(stageMs, Fired(s, fired), s.timers[fired].turn, input).timers
    ensures var t := AfterExpiry(stageMs, Fired(s, fired), s.timers[fired].turn, input);
      t.timers[id] == s.timers[id] && s.timers[id].turn != s.timers[fired].turn
  {
  }

  /** Timers that outlive an event belong to turns it does not touch. */
  lemma SurvivorsUntouched(stageMs: int, s: State, ev: Event, id: nat)
    requires OneTimer(s) && Enabled(s, ev)
    requires id in s.timers && id in Effect(stageMs, s, ev).timers
    ensures var t := Effect(stageMs, s, ev); var turn := s.timers[id].turn;
      && t.timers[id] == s.timers[id] && !Touches(EntryOf(stageMs, s, ev), turn)
      && (turn in t.staged <==> turn in s.staged)
  {
    match ev
    case Advance(_) =>
    case Switch(_) =>
    case EndTurn =>
      if s.current.Some? {
        DisarmSpares(s, s.current.value, id);
      }
    case Reset(input) =>
      if s.current.Some? {
        DisarmSpares(s, s.current.value, id);
      }
    case Clear(turn) =>
      if turn.Some? {
        DisarmSpares(s, turn.value, id);
      }
    case Expire(fired, input) =>
      ExpirySpares(stageMs, s, fired, input, id);
  }

  /** A timer armed by a reset rests on that reset. */
  lemma ResetTimerFounded(stageMs: int, s: State, input: ArmInput, id: nat)
    requires id !in s.timers && id in Next(stageMs, s, Reset(input)).timers
    ensures var t := Next(stageMs, s, Reset(input)); Founded(t, stageMs, t.timers[id].turn, t.timers[id].due)
  {
    var t, e := Next(stageMs, s, Reset(input)), EntryOf(stageMs, s, Reset(input));
    NewlyArmed(s.log, e, t.timers[id].turn);
    assert t.timers[id].turn !in t.staged;
  }

  /** A timer armed by an expiry is the staging timer of the turn whose debounce ended. */
  lemma StageTimer(stageMs: int, s: State, fired: nat, input: ArmInput, id: nat)
    requires Enabled(s, Expire(fired, input))
    requires id !in s.timers && id in Effect(stageMs, s, Expire(fired, input)).timers
    ensures var t := Effect(stageMs, s, Expire(fired, input)); var turn := s.timers[fired].turn;
      && t.timers[id] == Timer(turn, s.clock + stageMs)
      && turn !in s.staged && turn in t.staged
      && PassesAt(EntryOf(stageMs, s, Expire(fired, input)), turn)
  {
  }

  lemma StageTimerFounded(stageMs: int, s: State, fired: nat, input: ArmInput, id: nat)
    requires AllFounded(s, stageMs) && Enabled(s, Expire(fired, input))
    requires id !in s.timers && id in Next(stageMs, s, Expire(fired, input)).timers
    ensures var t := Next(stageMs, s, Expire(fired, input)); Founded(t, stageMs, t.timers[id].turn, t.timers[id].due)
  {
    var turn, due := s.timers[fired].turn, s.timers[fired].due;
    StageTimer(stageMs, s, fired, input, id);
    assert Founded(s, stageMs, turn, due);
    var i :| Debounced(s.log, turn, due, i);
    NewlyStaged(s.log, EntryOf(stageMs, s, Expire(fired, input)), stageMs, turn, due, i);
  }

  lemma NewTimerFounded(stageMs: int, s: State, ev: Event, id: nat)
    requires Inv(s, stageMs) && Enabled(s, ev)
    requires id !in s.timers && id in Next(stageMs, s, ev).timers
    ensures var t := Next(stageMs, s, ev); Founded(t, stageMs, t.timers[id].turn, t.timers[id].due)
  {
    if ev.Reset? {
      ResetTimerFounded(stageMs, s, ev.input, id);
    } else {
      assert ev.Expire?;
      StageTimerFounded(stageMs, s, ev.timer, ev.input, id);
    }
  }

  lemma StepKeepsFounded(stageMs: int, s: State, ev: Event)
    requires Inv(s, stageMs) && Enabled(s, ev)
    ensures AllFounded(Next(stageMs, s, ev), stageMs)
  {
    var t, e := Next(stageMs, s, ev), EntryOf(stageMs, s, ev);
    forall id | id in t.timers
      ensures Founded(t, stageMs, t.timers[id].turn, t.timers[id].due)
    {
      if id in s.timers {
        SurvivorsUntouched(stageMs, s, ev, id);
        FoundedLater(s, t, e, stageMs, s.timers[id].turn, s.timers[id].due);
      } else {
        NewTimerFounded(stageMs, s, ev, id);
      }
    }
  }

  lemma StepKeepsOnce(stageMs: int, s: State, ev: Event)
    requires Inv(s, stageMs) && Enabled(s, ev)
    ensures OnceEach(Next(stageMs, s, ev))
  {
    var t := Next(stageMs, s, ev);
    assert s.retired <= t.retired;
    assert forall k :: 0 <= k < |s.log| ==> t.log[k] == s.log[k];
  }

  /** A delivery rests on the timer that fired. */
  lemma DeliveryEarned(stageMs: int, s: State, ev: Event)
    requires Inv(s, stageMs) && Enabled(s, ev)
    ensures Earned(Next(stageMs, s, ev).log, stageMs, |s.log|)
  {
    var log, k := Next(stageMs, s, ev).log, |s.log|;
    assert log[..k] == s.log;
    if log[k].delivered.Some? {
      var timer := s.timers[ev.timer];
      assert Founded(s, stageMs, timer.turn, timer.due);
      if stageMs > 0 {
        var i, j :| StagedAt(s.log, stageMs, timer.turn, timer.due, i, j);
        assert StagedAt(log[..k], stageMs, timer.turn, timer.due, i, j);
      } else {
        var i :| Debounced(s.log, timer.turn, timer.due, i);
        assert Debounced(log[..k], timer.turn, timer.due, i);
      }
    }
  }

  lemma StepKeepsInv(stageMs: int, s: State, ev: Event)
    requires Inv(s, stageMs) && Enabled(s, ev)
    ensures Inv(Next(stageMs, s, ev), stageMs)
  {
    StepKeepsTimers(stageMs, s, ev);
    if stageMs <= 0 {
      StagesOnlyWhenOn(stageMs, s, ev);
    }
    StepKeepsFounded(stageMs, s, ev);
    StepKeepsOnce(stageMs, s, ev);
    DeliveryEarned(stageMs, s, ev);
    var t, e := Next(stageMs, s, ev), EntryOf(stageMs, s, ev);
    forall k | 0 <= k < |t.log|
      ensures Earned(t.log, stageMs, k)
    {
      if k < |s.log| {
        EarnedLater(s.log, e, stageMs, k);
      }
    }
  }

  // ------------------------------------------------------------------------------- runs

  ghost predicate IsRun(stageMs: int, s: State, evs: seq<Event>)
    decreases |evs|
  {
    evs == [] || (Enabled(s, evs[0]) && IsRun(stageMs, Next(stageMs, s, evs[0]), evs[1..]))
  }

  ghost function End(stageMs: int, s: State, evs: seq<Event>): State
    requires IsRun(stageMs, s, evs)
    decreases |evs|
  {
    if evs == [] then s else End(stageMs, Next(stageMs, s, evs[0]), evs[1..])
  }

  lemma {:induction false} RunKeepsInv(stageMs: int, s: State, evs: seq<Event>)
    requires Inv(s, stageMs) && IsRun(stageMs, s, evs)
    ensures Inv(End(stageMs, s, evs), stageMs)
    decreases |evs|
  {
    if evs != [] {
      StepKeepsInv(stageMs, s, evs[0]);
      RunKeepsInv(stageMs, Next(stageMs, s, evs[0]), evs[1..]);
    }
  }

  /** Over every run: no turn is delivered twice, and none has two timers pending. */
  lemma DeliveredOnce(stageMs: int, evs: seq<Event>)
    requires IsRun(stageMs, Idle, evs)
    ensures var s := End(stageMs, Idle, evs);
      && (forall j, k :: 0 <= j < k < |s.log| && s.log[k].delivered.Some? ==> s.log[j].delivered != s.log[k].delivered)
      && (forall a, b :: a in s.timers && b in s.timers && s.timers[a].turn == s.timers[b].turn ==> a == b)
  {
    RunKeepsInv(stageMs, Idle, evs);
  }

  /** There is an answer to flush, and nothing of the turn's is still at work. */
  ghost predicate AllQuiet(input: ArmInput) {
    input.flushable && !(input.inFlightTools > 0) && !input.pendingAsync && input.windowMs > 0
  }

  /** A quiet turn's schedule: arm, wait out the debounce, and with staging on the staging
    * window too. */
  function QuietSchedule(stageMs: int, next: nat, input: ArmInput): seq<Event>
    requires input.windowMs > 0
  {
    [Reset(input), Advance(input.windowMs), Expire(next, input)]
    + if stageMs > 0 then [Advance(stageMs), Expire(next + 1, input)] else []
  }

  lemma {:induction false} RunJoins(stageMs: int, s: State, evs: seq<Event>, more: seq<Event>)
    requires IsRun(stageMs, s, evs) && IsRun(stageMs, End(stageMs, s, evs), more)
    ensures IsRun(stageMs, s, evs + more)
    ensures End(stageMs, s, evs + more) == End(stageMs, End(stageMs, s, evs), more)
    decreases |evs|
  {
    if evs == [] {
      assert evs + more == more;
    } else {
      assert (evs + more)[1..] == evs[1..] + more;
      RunJoins(stageMs, Next(stageMs, s, evs[0]), evs[1..], more);
    }
  }

  lemma OneStep(stageMs: int, s: State, ev: Event)
    requires Enabled(s, ev)
    ensures IsRun(stageMs, s, [ev]) && End(stageMs, s, [ev]) == Next(stageMs, s, ev)
  {
    assert [ev][1..] == [];
  }

  lemma Debounce(stageMs: int, s: State, turn: nat, input: ArmInput) returns (t: State)
    requires OneTimer(s) && s.current == Some(turn) && AllQuiet(input)
    ensures var evs := [Reset(input), Advance(input.windowMs), Expire(s.nextHandle, input)];
      IsRun(stageMs, s, evs) && t == End(stageMs, s, evs)
    ensures stageMs > 0 ==> t.current == Some(turn) && turn in t.staged && t.nextHandle == s.nextHandle + 2
                            && s.nextHandle + 1 in t.timers
                            && t.timers[s.nextHandle + 1] == Timer(turn, t.clock + stageMs)
    ensures t.log != []
    ensures stageMs <= 0 ==> t.log[|t.log| - 1].delivered == Some(turn) && turn in t.retired && t.current == None
  {
    var a := Next(stageMs, s, Reset(input));
    var b := Next(stageMs, a, Advance(input.windowMs));
    t := Next(stageMs, b, Expire(s.nextHandle, input));
    assert turn !in a.staged;
    OneStep(stageMs, s, Reset(input));
    OneStep(stageMs, a, Advance(input.windowMs));
    OneStep(stageMs, b, Expire(s.nextHandle, input));
    RunJoins(stageMs, s, [Reset(input)], [Advance(input.windowMs)]);
    RunJoins(stageMs, s, [Reset(input)] + [Advance(input.windowMs)], [Expire(s.nextHandle, input)]);
    assert [Reset(input)] + [Advance(input.windowMs)] + [Expire(s.nextHandle, input)]
        == [Reset(input), Advance(input.windowMs), Expire(s.nextHandle, input)];
  }

  /** A turn that stays quiet is delivered: from any point of any run, arming its timer and
    * letting both windows pass ends in the delivery of that turn, and ends the turn. */
  lemma QuietTurnDelivers(stageMs: int, evs: seq<Event>, input: ArmInput)
    requires IsRun(stageMs, Idle, evs) && End(stageMs, Idle, evs).current.Some? && AllQuiet(input)
    ensures var s := End(stageMs, Idle, evs);
      var more := QuietSchedule(stageMs, s.nextHandle, input);
      && IsRun(stageMs, s, more)
      && var t := End(stageMs, s, more);
         && t.log != [] && t.log[|t.log| - 1].delivered == s.current
         && s.current.value in t.retired && t.current == None
  {
    RunKeepsInv(stageMs, Idle, evs);
    QuietFrom(stageMs, End(stageMs, Idle, evs), input);
  }

  lemma QuietFrom(stageMs: int, s: State, input: ArmInput)
    requires OneTimer(s) && s.current.Some? && AllQuiet(input)
    ensures var more := QuietSchedule(stageMs, s.nextHandle, input);
      && IsRun(stageMs, s, more)
      && var t := End(stageMs, s, more);
         && t.log != [] && t.log[|t.log| - 1].delivered == s.current
         && s.current.value in t.retired && t.current == None
  {
    var first := [Reset(input), Advance(input.windowMs), Expire(s.nextHandle, input)];
    var t := Debounce(stageMs, s, s.current.value, input);
    if stageMs > 0 {
      var last := Expire(s.nextHandle + 1, input);
      OneStep(stageMs, t, Advance(stageMs));
      var u := Next(stageMs, t, Advance(stageMs));
      OneStep(stageMs, u, last);
      RunJoins(stageMs, t, [Advance(stageMs)], [last]);
      assert [Advance(stageMs)] + [last] == [Advance(stageMs), last];
      RunJoins(stageMs, s, first, [Advance(stageMs), last]);
    } else {
      assert first + [] == first;
    }
  }

  /** Only turns with a timer handle are staged. */
  ghost predicate StagedAreArmed(s: State) {
    s.staged <= s.handle.Keys
  }

  lemma StepKeepsArmed(stageMs: int, s: State, ev: Event)
    requires StagedAreArmed(s) && Enabled(s, ev)
    ensures StagedAreArmed(Next(stageMs, s, ev))
  {
  }

  /** In every run a staged turn has its timer handle: a turn whose timer expires without
    * passing is no longer staged. */
  lemma {:induction false} StagingEnds(stageMs: int, s: State, evs: seq<Event>)
    requires StagedAreArmed(s) && IsRun(stageMs, s, evs)
    ensures StagedAreArmed(End(stageMs, s, evs))
    decreases |evs|
  {
    if evs != [] {
      StepKeepsArmed(stageMs, s, evs[0]);
      StagingEnds(stageMs, Next(stageMs, s, evs[0]), evs[1..]);
    }
  }

  /** Over every run with staging on: a delivery follows the turn's arming, its full
    * debounce and its full staging window, with the arm predicate true at all three, and
    * nothing resetting, clearing or ending the turn in between. */
  lemma DeliveryIsStaged(stageMs: int, evs: seq<Event>, k: nat) returns (i: nat, j: nat)
    requires stageMs > 0 && IsRun(stageMs, Idle, evs)
    requires k < |End(stageMs, Idle, evs).log| && End(stageMs, Idle, evs).log[k].delivered.Some?
    ensures var log := End(stageMs, Idle, evs).log; var turn := log[k].delivered.value;
      && i < j < k
      && ArmsAt(log[i], turn) && PassesAt(log[j], turn) && PassesAt(log[k], turn)
      && log[j].at >= log[i].at + log[i].event.input.windowMs
      && log[k].at >= log[j].at + stageMs
      && AllQuiet(log[i].event.input) && AllQuiet(log[j].event.input) && AllQuiet(log[k].event.input)
      && forall m :: i < m <= k ==> !Touches(log[m], turn)
  {
    RunKeepsInv(stageMs, Idle, evs);
    var log := End(stageMs, Idle, evs).log;
    assert Earned(log, stageMs, k);
    var i0, j0, due :| due <= log[k].at && StagedAt(log[..k], stageMs, log[k].delivered.value, due, i0, j0);
    i, j := i0, j0;
    forall m | i < m <= k
      ensures !Touches(log[m], log[k].delivered.value)
    {
      if m < k {
        assert log[m] == log[..k][m];
      }
    }
  }
}
