/** The edit-in-place draft stream: one pending snapshot, one flush loop, one timer,
  * follow-ups chained to the loop's promise, and a remembered shed snapshot. Steps are
  * the stretches of code between awaits; `Check` and `Settle` are the microtasks between
  * the loop's last look at the pending text and its promise settling. The pre-send idle
  * debounce is off. */
module DraftStream {
  import opened Common

  /** The flush loop. `Calling` awaits the API with a text, sent after `finalize` or not, as
    * an edit of the stream's message or as a new one; `Looping` is about to test its
    * condition again; `Exited` has left the loop but its promise has not settled. `Idle` is
    * `inFlight == null`. */
  datatype Loop = Idle | Calling(text: string, sealed: bool, edit: bool) | Looping | Exited

  /** How far `finalize` has come. */
  datatype Finish = Open | AwaitingLoop | Sending(text: string, edit: bool) | Finished

  /** `chained` follow-ups hang on the current loop, `due` ones on a settled promise are
    * about to run, and `resumeDue` says that `finalize` is about to resume after them.
    * `latest` is the newest text handed in, `screen` what the chat shows. */
  datatype State = State(
    hasMessage: bool,
    pending: Option<string>,
    lastSent: Option<string>,
    shed: Option<string>,
    stopped: bool,
    timer: bool,
    loop: Loop,
    chained: nat,
    due: nat,
    resumeDue: bool,
    finish: Finish,
    latest: Option<string>,
    screen: Option<string>)

  datatype Reply = Landed | Shed | NotModified | NotFound | Failed

  datatype Event =
    | Update(text: string, open: bool)
    | Finalize(finalText: Option<string>)
    | ApiDone(reply: Reply)
    | Check
    | Settle
    | FollowUp(open: bool)
    | TimerFires
    | ResumeFinalize
    | FinalApiDone(reply: Reply)

  predicate IsFinal(s: State) {
    !s.finish.Open?
  }

  /** What a flush makes of the pending text: nothing (already on screen), a hard stop, or
    * an API call. */
  datatype Flush = Skip | Stop | Call(text: string)

  function FlushOf(maxChars: nat, s: State): Flush
    requires s.pending.Some?
  {
    if s.pending == s.lastSent then Skip
    else if |s.pending.value| > maxChars then Stop
    else Call(s.pending.value)
  }

  /** The loop's condition and, if it holds, the synchronous part of one flush. */
  function Turn(maxChars: nat, s: State): State {
    if s.pending.None? || s.stopped then s.(loop := Exited)
    else
      match FlushOf(maxChars, s)
      case Skip => s.(pending := None, loop := Looping)
      case Stop => s.(pending := None, stopped := true, loop := Looping)
      case Call(text) => s.(pending := None, loop := Calling(text, IsFinal(s), s.hasMessage))
  }

  function Scheduled(s: State): State {
    if s.stopped then s else s.(timer := true)
  }

  /** The state after the API answered the call for `text`. A message that is not found is
    * gone from the chat. */
  function Answered(s: State, text: string, edit: bool, reply: Reply): State {
    match reply
    case Landed =>
      s.(hasMessage := s.hasMessage || !edit, lastSent := Some(text), shed := None, screen := Some(text))
    case Shed => s.(shed := Some(text))
    case NotModified => s.(lastSent := Some(text), shed := None)
    case NotFound =>
      s.(hasMessage := false, lastSent := None, pending := if s.pending.None? then Some(text) else s.pending,
         screen := None)
    case Failed => s
  }

  /** The rest of `finalize` once no loop is awaited: recover a shed snapshot, flush. */
  function FinalFlush(maxChars: nat, s: State): State {
    var recovered := if s.pending.None? && s.shed.Some? && !s.stopped then s.shed else s.pending;
    var t := s.(pending := recovered, shed := None);
    if t.pending.None? || t.stopped then t.(finish := Finished)
    else
      match FlushOf(maxChars, t)
      case Skip => t.(pending := None, finish := Finished)
      case Stop => t.(pending := None, stopped := true, finish := Finished)
      case Call(text) => t.(pending := None, finish := Sending(text, t.hasMessage))
  }

  /** A timer is a macrotask: it fires only when no microtask of the stream is queued. */
  predicate Enabled(s: State, ev: Event) {
    match ev
    case Update(_, _) => true
    case Finalize(_) => true
    case ApiDone(_) => s.loop.Calling?
    case Check => s.loop.Looping?
    case Settle => s.loop.Exited?
    case FollowUp(_) => s.due > 0
    case TimerFires => s.timer && s.due == 0 && !s.resumeDue && !s.loop.Looping? && !s.loop.Exited?
    case ResumeFinalize => s.resumeDue && s.due == 0
    case FinalApiDone(_) => s.finish.Sending?
  }

  function Next(maxChars: nat, s: State, ev: Event): State
    requires Enabled(s, ev)
  {
    match ev
    case Update(text, open) =>
      if IsFinal(s) || s.stopped then s
      else
        var t := s.(pending := Some(text), latest := Some(text));
        if !s.loop.Idle? then t.(chained := t.chained + 1)
        else if open then Turn(maxChars, t)
        else Scheduled(t)
    case Finalize(finalText) =>
      if IsFinal(s) then s
      else
        var t := if finalText.Some? && !s.stopped then s.(pending := finalText, latest := finalText) else s;
        var u := t.(timer := false, finish := AwaitingLoop);
        if s.loop.Idle? then FinalFlush(maxChars, u) else u
    case ApiDone(reply) => Answered(s, s.loop.text, s.loop.edit, reply).(loop := Looping)
    case Check => Turn(maxChars, s)
    case Settle =>
      s.(loop := Idle, due := s.due + s.chained, chained := 0,
         resumeDue := s.resumeDue || s.finish.AwaitingLoop?)
    case FollowUp(open) =>
      var t := s.(due := s.due - 1);
      if t.stopped || t.pending.None? || !t.loop.Idle? then t
      else if open then Turn(maxChars, t)
      else Scheduled(t)
    case TimerFires =>
      var t := s.(timer := false);
      if t.loop.Idle? then Turn(maxChars, t) else t
    case ResumeFinalize => FinalFlush(maxChars, s.(resumeDue := false))
    case FinalApiDone(reply) => Answered(s, s.finish.text, s.finish.edit, reply).(finish := Finished)
  }

  function Init(hasMessage: bool, screen: Option<string>): State {
    State(hasMessage, None, None, None, false, false, Idle, 0, 0, false, Open, None, screen)
  }

  ghost predicate IsRun(maxChars: nat, s: State, evs: seq<Event>)
    decreases evs
  {
    evs == [] || (Enabled(s, evs[0]) && IsRun(maxChars, Next(maxChars, s, evs[0]), evs[1..]))
  }

  ghost function End(maxChars: nat, s: State, evs: seq<Event>): State
    requires IsRun(maxChars, s, evs)
    decreases evs
  {
    if evs == [] then s else End(maxChars, Next(maxChars, s, evs[0]), evs[1..])
  }

  // ---------------------------------------------------------- no lost wake-up

  /** Something will look at the pending text: a loop still to test its condition, a
    * follow-up, or the timer. */
  predicate Driven(s: State) {
    s.loop.Calling? || s.loop.Looping? || (s.loop.Exited? && s.chained > 0) || s.due > 0 || s.timer
  }

  ghost predicate WakeInv(s: State) {
    && (!IsFinal(s) && !s.stopped && s.pending.Some? ==> Driven(s))
    && (s.loop.Exited? && !IsFinal(s) && !s.stopped && s.pending.Some? ==> s.chained > 0)
    && (s.loop.Idle? ==> s.chained == 0)
    && (s.resumeDue ==> s.finish.AwaitingLoop?)
    && (s.finish.AwaitingLoop? && s.loop.Idle? ==> s.resumeDue)
  }

  lemma StepKeepsWake(maxChars: nat, s: State, ev: Event)
    requires WakeInv(s) && Enabled(s, ev)
    ensures WakeInv(Next(maxChars, s, ev))
  {
    if ev.Update? || ev.Finalize? {
      CallKeepsWake(maxChars, s, ev);
    } else if ev.FollowUp? || ev.TimerFires? || ev.Check? {
      TurnKeepsWake(maxChars, s, ev);
    }
  }

  lemma CallKeepsWake(maxChars: nat, s: State, ev: Event)
    requires WakeInv(s) && Enabled(s, ev) && (ev.Update? || ev.Finalize?)
    ensures WakeInv(Next(maxChars, s, ev))
  {
  }

  lemma TurnKeepsWake(maxChars: nat, s: State, ev: Event)
    requires WakeInv(s) && Enabled(s, ev) && (ev.FollowUp? || ev.TimerFires? || ev.Check?)
    ensures WakeInv(Next(maxChars, s, ev))
  {
  }

  lemma {:induction false} RunKeepsWake(maxChars: nat, s: State, evs: seq<Event>)
    requires WakeInv(s) && IsRun(maxChars, s, evs)
    ensures WakeInv(End(maxChars, s, evs))
    decreases evs
  {
    if evs != [] {
      StepKeepsWake(maxChars, s, evs[0]);
      RunKeepsWake(maxChars, Next(maxChars, s, evs[0]), evs[1..]);
    }
  }

  /** In every run of a new stream, whatever the API answers: before `finalize`, a pending
    * text on a live stream always has a loop, a timer or a chained follow-up that will
    * drain it. */
  lemma NoLostWakeUp(maxChars: nat, hasMessage: bool, screen: Option<string>, evs: seq<Event>)
    requires IsRun(maxChars, Init(hasMessage, screen), evs)
    ensures var s := End(maxChars, Init(hasMessage, screen), evs);
      !IsFinal(s) && !s.stopped && s.pending.Some? ==> Driven(s)
  {
    RunKeepsWake(maxChars, Init(hasMessage, screen), evs);
  }

  // ----------------------------------------------------- one outstanding call

  function Outstanding(s: State): nat {
    (if s.loop.Calling? then 1 else 0) + if s.finish.Sending? then 1 else 0
  }

  /** A follow-up starts a call for the newest text while `finalize` is about to resume
    * and recover an older shed snapshot. */
  predicate Doubles(maxChars: nat, s: State, ev: Event) {
    && ev.FollowUp? && ev.open && s.finish.AwaitingLoop? && !s.stopped && s.loop.Idle?
    && s.shed.Some? && s.pending.Some? && FlushOf(maxChars, s).Call?
  }

  ghost predicate OneCallInv(maxChars: nat, s: State) {
    WakeInv(s) && Solo(s) && Snapshots(maxChars, s)
  }

  ghost predicate Solo(s: State) {
    && Outstanding(s) <= 1
    && (s.finish.Sending? ==> s.pending.None? && s.shed.None?)
    && (s.loop.Calling? && s.loop.sealed ==> IsFinal(s))
    && (s.loop.Calling? && (s.finish.Sending? || s.finish.Finished?) ==> s.loop.sealed)
    && (s.resumeDue && s.loop.Calling? ==> s.loop.sealed && s.shed.None? && s.pending.None?)
    && (s.resumeDue && s.loop.Looping? ==> s.shed.None? || s.pending.None?)
  }

  /** A text worth a call: not on screen, and within the limit. */
  predicate Sendable(maxChars: nat, s: State, text: string) {
    Some(text) != s.lastSent && |text| <= maxChars
  }

  /** Every text under way, and the shed snapshot, is worth a call. */
  ghost predicate Snapshots(maxChars: nat, s: State) {
    && (s.shed.Some? ==> Sendable(maxChars, s, s.shed.value))
    && (s.loop.Calling? ==> Sendable(maxChars, s, s.loop.text))
    && (s.finish.Sending? ==> Sendable(maxChars, s, s.finish.text))
  }

  lemma StepKeepsOneCall(maxChars: nat, s: State, ev: Event)
    requires OneCallInv(maxChars, s) && Enabled(s, ev) && !Doubles(maxChars, s, ev)
    ensures OneCallInv(maxChars, Next(maxChars, s, ev))
  {
    StepKeepsWake(maxChars, s, ev);
    StepKeepsSnapshots(maxChars, s, ev);
    if ev.Update? || ev.Finalize? {
      CallKeepsSolo(maxChars, s, ev);
    } else if ev.ApiDone? || ev.FinalApiDone? {
      AnswerKeepsSolo(maxChars, s, ev);
    } else {
      MicroStepKeepsSolo(maxChars, s, ev);
    }
  }

  lemma StepKeepsSnapshots(maxChars: nat, s: State, ev: Event)
    requires Solo(s) && Snapshots(maxChars, s) && Enabled(s, ev)
    ensures Snapshots(maxChars, Next(maxChars, s, ev))
  {
    if ev.Update? || ev.Finalize? {
      CallKeepsSnapshots(maxChars, s, ev);
    } else if ev.ApiDone? || ev.FinalApiDone? {
      AnswerKeepsSnapshots(maxChars, s, ev);
    } else {
      MicroStepKeepsSnapshots(maxChars, s, ev);
    }
  }

  lemma CallKeepsSnapshots(maxChars: nat, s: State, ev: Event)
    requires Snapshots(maxChars, s) && (ev.Update? || ev.Finalize?)
    ensures Snapshots(maxChars, Next(maxChars, s, ev))
  {
    if ev.Update? {
      TurnKeepsSnapshots(maxChars, s.(pending := Some(ev.text), latest := Some(ev.text)));
    } else {
      var t := if ev.finalText.Some? && !s.stopped then s.(pending := ev.finalText, latest := ev.finalText) else s;
      FinalFlushKeepsSnapshots(maxChars, t.(timer := false, finish := AwaitingLoop));
    }
  }

  lemma AnswerKeepsSnapshots(maxChars: nat, s: State, ev: Event)
    requires Solo(s) && Snapshots(maxChars, s) && Enabled(s, ev) && (ev.ApiDone? || ev.FinalApiDone?)
    ensures Snapshots(maxChars, Next(maxChars, s, ev))
  {
  }

  lemma MicroStepKeepsSnapshots(maxChars: nat, s: State, ev: Event)
    requires Snapshots(maxChars, s) && Enabled(s, ev)
    requires !ev.Update? && !ev.Finalize? && !ev.ApiDone? && !ev.FinalApiDone?
    ensures Snapshots(maxChars, Next(maxChars, s, ev))
  {
    match ev
    case Check => TurnKeepsSnapshots(maxChars, s);
    case FollowUp(_) => TurnKeepsSnapshots(maxChars, s.(due := s.due - 1));
    case TimerFires => TurnKeepsSnapshots(maxChars, s.(timer := false));
    case ResumeFinalize => FinalFlushKeepsSnapshots(maxChars, s.(resumeDue := false));
    case _ =>
  }

  lemma TurnKeepsSnapshots(maxChars: nat, s: State)
    requires Snapshots(maxChars, s)
    ensures Snapshots(maxChars, Turn(maxChars, s))
  {
  }

  lemma FinalFlushKeepsSnapshots(maxChars: nat, s: State)
    requires Snapshots(maxChars, s)
    ensures Snapshots(maxChars, FinalFlush(maxChars, s))
  {
  }

  lemma CallKeepsSolo(maxChars: nat, s: State, ev: Event)
    requires OneCallInv(maxChars, s) && Enabled(s, ev) && (ev.Update? || ev.Finalize?)
    ensures Solo(Next(maxChars, s, ev))
  {
  }

  lemma AnswerKeepsSolo(maxChars: nat, s: State, ev: Event)
    requires OneCallInv(maxChars, s) && Enabled(s, ev) && (ev.ApiDone? || ev.FinalApiDone?)
    ensures Solo(Next(maxChars, s, ev))
  {
  }

  lemma MicroStepKeepsSolo(maxChars: nat, s: State, ev: Event)
    requires OneCallInv(maxChars, s) && Enabled(s, ev) && !Doubles(maxChars, s, ev)
    requires !ev.Update? && !ev.Finalize? && !ev.ApiDone? && !ev.FinalApiDone?
    ensures Solo(Next(maxChars, s, ev))
  {
  }

  /** No step of the run doubles. */
  ghost predicate Orderly(maxChars: nat, s: State, evs: seq<Event>)
    requires IsRun(maxChars, s, evs)
    decreases evs
  {
    evs == [] || (!Doubles(maxChars, s, evs[0]) && Orderly(maxChars, Next(maxChars, s, evs[0]), evs[1..]))
  }

  lemma {:induction false} RunKeepsOneCall(maxChars: nat, s: State, evs: seq<Event>)
    requires OneCallInv(maxChars, s) && IsRun(maxChars, s, evs) && Orderly(maxChars, s, evs)
    ensures OneCallInv(maxChars, End(maxChars, s, evs))
    decreases evs
  {
    if evs != [] {
      StepKeepsOneCall(maxChars, s, evs[0]);
      RunKeepsOneCall(maxChars, Next(maxChars, s, evs[0]), evs[1..]);
    }
  }

  /** In every run of a new stream in which no step doubles, whatever the API answers, at
    * most one send or edit is outstanding. */
  lemma AtMostOneOutstanding(maxChars: nat, hasMessage: bool, screen: Option<string>, evs: seq<Event>)
    requires IsRun(maxChars, Init(hasMessage, screen), evs) && Orderly(maxChars, Init(hasMessage, screen), evs)
    ensures Outstanding(End(maxChars, Init(hasMessage, screen), evs)) <= 1
  {
    RunKeepsOneCall(maxChars, Init(hasMessage, screen), evs);
  }

  /** The follow-ups still due find a loop running; then `finalize` resumes and sends the
    * shed snapshot beside it. */
  lemma {:induction false} SecondCallFollows(maxChars: nat, s: State) returns (evs: seq<Event>)
    requires s.loop.Calling? && s.pending.None? && s.shed.Some? && Sendable(maxChars, s, s.shed.value)
    requires s.resumeDue && !s.stopped
    ensures IsRun(maxChars, s, evs) && Outstanding(End(maxChars, s, evs)) == 2
    decreases s.due
  {
    if s.due == 0 {
      evs := [ResumeFinalize];
      assert evs[1..] == [];
    } else {
      var rest := SecondCallFollows(maxChars, Next(maxChars, s, FollowUp(true)));
      evs := [FollowUp(true)] + rest;
      assert evs[1..] == rest;
    }
  }

  /** The other half: from wherever a run without doubling has led, a doubling step, with
    * any number of follow-ups due, goes on to two calls at once; any other step leaves at
    * most one. */
  lemma OvertakingDoubles(maxChars: nat, hasMessage: bool, screen: Option<string>, evs: seq<Event>, ev: Event)
    returns (more: seq<Event>)
    requires IsRun(maxChars, Init(hasMessage, screen), evs) && Orderly(maxChars, Init(hasMessage, screen), evs)
    requires Enabled(End(maxChars, Init(hasMessage, screen), evs), ev)
    ensures var s := End(maxChars, Init(hasMessage, screen), evs);
      if Doubles(maxChars, s, ev)
      then IsRun(maxChars, s, [ev] + more) && Outstanding(End(maxChars, s, [ev] + more)) == 2
      else Outstanding(Next(maxChars, s, ev)) <= 1
  {
    more := [];
    RunKeepsOneCall(maxChars, Init(hasMessage, screen), evs);
    var s := End(maxChars, Init(hasMessage, screen), evs);
    if Doubles(maxChars, s, ev) {
      more := SecondCallFollows(maxChars, Next(maxChars, s, ev));
      assert ([ev] + more)[1..] == more;
    } else {
      StepKeepsOneCall(maxChars, s, ev);
    }
  }

  // ------------------------------------------------------------- the final text

  /** The gate sheds drafts only: a call issued after `finalize` is never shed. */
  predicate ShedsOnlyDrafts(s: State, ev: Event) {
    && (ev == ApiDone(Shed) && s.loop.Calling? ==> !s.loop.sealed)
    && ev != FinalApiDone(Shed)
  }

  ghost predicate Fits(maxChars: nat, o: Option<string>) {
    o.Some? ==> |o.value| <= maxChars
  }

  /** "Not modified" says that the text is on screen already. */
  predicate Truthful(s: State, ev: Event) {
    && (ev == ApiDone(NotModified) && s.loop.Calling? ==> s.screen == Some(s.loop.text))
    && (ev == FinalApiDone(NotModified) && s.finish.Sending? ==> s.screen == Some(s.finish.text))
  }

  /** No call fails for another reason, only drafts are shed, texts fit, and nothing
    * doubles. */
  ghost predicate Tame(maxChars: nat, s: State, ev: Event) {
    && ShedsOnlyDrafts(s, ev) && Truthful(s, ev) && !Doubles(maxChars, s, ev)
    && (ev.ApiDone? || ev.FinalApiDone? ==> !ev.reply.Failed?)
    && (ev.Update? ==> |ev.text| <= maxChars)
    && (ev.Finalize? ==> Fits(maxChars, ev.finalText))
  }

  ghost predicate TameRun(maxChars: nat, s: State, evs: seq<Event>)
    requires IsRun(maxChars, s, evs)
    decreases evs
  {
    evs == [] || (Tame(maxChars, s, evs[0]) && TameRun(maxChars, Next(maxChars, s, evs[0]), evs[1..]))
  }

  /** `finalize` comes to its own flush with nothing pending and a held shed snapshot that
    * is not the newest text. */
  predicate RecoversStale(s: State, ev: Event) {
    && s.pending.None? && s.shed.Some? && s.shed != s.latest && !s.stopped
    && ((ev == Finalize(None) && !IsFinal(s) && s.loop.Idle?) || ev == ResumeFinalize)
  }

  /** Some step of the run does so. */
  ghost predicate Stale(maxChars: nat, s: State, evs: seq<Event>)
    requires IsRun(maxChars, s, evs)
    decreases evs
  {
    evs != [] && (RecoversStale(s, evs[0]) || Stale(maxChars, Next(maxChars, s, evs[0]), evs[1..]))
  }

  /** A snapshot equal to the one on screen is skipped while an older shed snapshot is
    * held, which then passes for the newest. */
  predicate SkipsOverShed(s: State, ev: Event) {
    s.shed.Some? && match ev
    case Update(text, open) => !IsFinal(s) && !s.stopped && s.loop.Idle? && open && Some(text) == s.lastSent
    case Check => !s.stopped && s.pending.Some? && s.pending == s.lastSent
    case FollowUp(open) => !s.stopped && s.loop.Idle? && open && s.pending.Some? && s.pending == s.lastSent
    case TimerFires => !s.stopped && s.loop.Idle? && s.pending.Some? && s.pending == s.lastSent
    case _ => false
  }

  /** Where the newest text is: pending, under way, shed, or on screen. A shed snapshot may
    * be older than the screen unless `tight`. */
  ghost predicate Located(s: State, tight: bool) {
    if s.pending.Some? then s.latest == s.pending
    else if s.loop.Calling? then s.latest == Some(s.loop.text)
    else if s.finish.Sending? then s.latest == Some(s.finish.text)
    else if s.shed.Some? then s.latest == s.shed || (!tight && s.latest == s.lastSent)
    else s.latest == s.lastSent
  }

  ghost predicate Sound(maxChars: nat, s: State) {
    && !s.stopped && Fits(maxChars, s.pending)
    && (s.lastSent.Some? ==> s.screen == s.lastSent)
    && (s.finish.Sending? ==> s.pending.None?)
    && (s.finish.Sending? || s.finish.Finished? ==> s.shed.None?)
    && (s.finish.Finished? && s.pending.Some? ==> s.screen.None? && !s.loop.Calling?)
  }

  /** The newest text is accounted for, and every text fits. */
  ghost predicate Fresh(maxChars: nat, s: State, tight: bool) {
    Sound(maxChars, s) && Located(s, tight)
  }

  ghost predicate FreshInv(maxChars: nat, s: State, tight: bool) {
    OneCallInv(maxChars, s) && Fresh(maxChars, s, tight)
  }

  /** `finalize` has made its flush, and what the stream still has to show, or shows, is
    * another text than the newest. */
  ghost predicate Lost(maxChars: nat, s: State) {
    && OneCallInv(maxChars, s) && Sound(maxChars, s) && (s.finish.Sending? || s.finish.Finished?)
    && if s.pending.Some? then s.latest != s.pending
       else if s.loop.Calling? then s.latest != Some(s.loop.text)
       else if s.finish.Sending? then s.latest != Some(s.finish.text)
       else s.lastSent.Some? && s.latest != s.lastSent
  }

  /** One turn of the loop, unless it skips over a held shed snapshot that counts. */
  lemma TurnKeepsFresh(maxChars: nat, s: State, tight: bool)
    requires Fresh(maxChars, s, tight) && !s.loop.Calling?
    requires s.finish.Sending? ==> s.pending.None?
    requires tight && s.shed.Some? && s.pending.Some? ==> s.pending != s.lastSent
    ensures Fresh(maxChars, Turn(maxChars, s), tight)
  {
  }

  lemma FinalFlushKeepsFresh(maxChars: nat, s: State, tight: bool)
    requires Fresh(maxChars, s, tight) && Snapshots(maxChars, s) && s.finish.AwaitingLoop?
    requires s.loop.Calling? ==> s.pending.None? && s.shed.None?
    requires s.pending.None? && s.shed.Some? ==> s.shed == s.latest
    ensures Fresh(maxChars, FinalFlush(maxChars, s), tight)
  {
  }

  lemma AnswerKeepsFresh(maxChars: nat, s: State, ev: Event, tight: bool)
    requires FreshInv(maxChars, s, tight) && Enabled(s, ev) && Tame(maxChars, s, ev)
    requires ev.ApiDone? || ev.FinalApiDone?
    ensures Fresh(maxChars, Next(maxChars, s, ev), tight)
  {
  }

  lemma CallKeepsFresh(maxChars: nat, s: State, ev: Event, tight: bool)
    requires FreshInv(maxChars, s, tight) && Enabled(s, ev) && Tame(maxChars, s, ev) && (ev.Update? || ev.Finalize?)
    requires !RecoversStale(s, ev) && (tight ==> !SkipsOverShed(s, ev))
    ensures Fresh(maxChars, Next(maxChars, s, ev), tight)
  {
    if ev.Update? && !IsFinal(s) {
      var t := s.(pending := Some(ev.text), latest := Some(ev.text));
      assert Fresh(maxChars, t, tight);
      if s.loop.Idle? && ev.open {
        TurnKeepsFresh(maxChars, t, tight);
      }
    } else if ev.Finalize? && !IsFinal(s) {
      var t := if ev.finalText.Some? then s.(pending := ev.finalText, latest := ev.finalText) else s;
      var u := t.(timer := false, finish := AwaitingLoop);
      assert Fresh(maxChars, u, tight);
      if s.loop.Idle? {
        FinalFlushKeepsFresh(maxChars, u, tight);
      }
    }
  }

  lemma MicroStepKeepsFresh(maxChars: nat, s: State, ev: Event, tight: bool)
    requires FreshInv(maxChars, s, tight) && Enabled(s, ev) && Tame(maxChars, s, ev)
    requires !RecoversStale(s, ev) && (tight ==> !SkipsOverShed(s, ev))
    requires !ev.Update? && !ev.Finalize? && !ev.ApiDone? && !ev.FinalApiDone?
    ensures Fresh(maxChars, Next(maxChars, s, ev), tight)
  {
    match ev
    case Check => TurnKeepsFresh(maxChars, s, tight);
    case FollowUp(open) =>
      if s.loop.Idle? && s.pending.Some? && open {
        TurnKeepsFresh(maxChars, s.(due := s.due - 1), tight);
      }
    case TimerFires =>
      if s.loop.Idle? {
        TurnKeepsFresh(maxChars, s.(timer := false), tight);
      }
    case ResumeFinalize => FinalFlushKeepsFresh(maxChars, s.(resumeDue := false), tight);
    case _ =>
  }

  lemma StepKeepsFresh(maxChars: nat, s: State, ev: Event, tight: bool)
    requires FreshInv(maxChars, s, tight) && Enabled(s, ev) && Tame(maxChars, s, ev)
    requires !RecoversStale(s, ev) && (tight ==> !SkipsOverShed(s, ev))
    ensures FreshInv(maxChars, Next(maxChars, s, ev), tight)
  {
    StepKeepsOneCall(maxChars, s, ev);
    if ev.ApiDone? || ev.FinalApiDone? {
      AnswerKeepsFresh(maxChars, s, ev, tight);
    } else if ev.Update? || ev.Finalize? {
      CallKeepsFresh(maxChars, s, ev, tight);
    } else {
      MicroStepKeepsFresh(maxChars, s, ev, tight);
    }
  }

  /** Recovering a stale snapshot loses the newest text. */
  lemma RecoveryLoses(maxChars: nat, s: State, ev: Event)
    requires FreshInv(maxChars, s, false) && Enabled(s, ev) && Tame(maxChars, s, ev) && RecoversStale(s, ev)
    ensures Lost(maxChars, Next(maxChars, s, ev))
  {
    StepKeepsOneCall(maxChars, s, ev);
  }

  lemma StepKeepsLost(maxChars: nat, s: State, ev: Event)
    requires Lost(maxChars, s) && Enabled(s, ev) && Tame(maxChars, s, ev)
    ensures Lost(maxChars, Next(maxChars, s, ev))
  {
    StepKeepsOneCall(maxChars, s, ev);
  }

  lemma StepIntent(maxChars: nat, s: State, ev: Event)
    requires Enabled(s, ev) && !s.stopped && WakeInv(s)
    ensures var t := Next(maxChars, s, ev);
      && IsFinal(t) == (IsFinal(s) || ev.Finalize?)
      && t.latest == match ev
                     case Update(text, _) => if IsFinal(s) then s.latest else Some(text)
                     case Finalize(f) => if !IsFinal(s) && f.Some? then f else s.latest
                     case _ => s.latest
  {
  }

  /** The text a reader of the calls expects at the end: the final text if one is given,
    * else the last update before `finalize`. */
  function Intended(final: bool, sofar: Option<string>, evs: seq<Event>): Option<string>
    decreases evs
  {
    if evs == [] then sofar
    else
      match evs[0]
      case Update(text, _) => Intended(final, if final then sofar else Some(text), evs[1..])
      case Finalize(t) => Intended(true, if !final && t.Some? then t else sofar, evs[1..])
      case _ => Intended(final, sofar, evs[1..])
  }

  lemma {:induction false} RunKeepsIntent(maxChars: nat, s: State, evs: seq<Event>)
    requires (FreshInv(maxChars, s, false) || Lost(maxChars, s))
    requires IsRun(maxChars, s, evs) && TameRun(maxChars, s, evs)
    ensures var t := End(maxChars, s, evs);
      && t.latest == Intended(IsFinal(s), s.latest, evs)
      && if Lost(maxChars, s) || Stale(maxChars, s, evs) then Lost(maxChars, t) else FreshInv(maxChars, t, false)
    decreases evs
  {
    if evs != [] {
      StepIntent(maxChars, s, evs[0]);
      StepKeepsEither(maxChars, s, evs[0]);
      RunKeepsIntent(maxChars, Next(maxChars, s, evs[0]), evs[1..]);
    }
  }

  /** A step keeps the newest text accounted for unless it recovers a stale snapshot, and a
    * lost stream stays lost. */
  lemma StepKeepsEither(maxChars: nat, s: State, ev: Event)
    requires FreshInv(maxChars, s, false) || Lost(maxChars, s)
    requires Enabled(s, ev) && Tame(maxChars, s, ev)
    ensures var t := Next(maxChars, s, ev);
      if Lost(maxChars, s) || RecoversStale(s, ev) then Lost(maxChars, t)
      else FreshInv(maxChars, t, false) && !Lost(maxChars, t)
    ensures Lost(maxChars, s) ==> !RecoversStale(s, ev)
  {
    NotBoth(maxChars, s, ev);
    if Lost(maxChars, s) {
      StepKeepsLost(maxChars, s, ev);
    } else if RecoversStale(s, ev) {
      RecoveryLoses(maxChars, s, ev);
    } else {
      StepKeepsFresh(maxChars, s, ev, false);
      NotBoth(maxChars, Next(maxChars, s, ev), ev);
    }
  }

  /** A stream that is fresh is not lost, and one that is lost has nothing to recover. */
  lemma NotBoth(maxChars: nat, s: State, ev: Event)
    ensures !(FreshInv(maxChars, s, false) && Lost(maxChars, s))
    ensures Lost(maxChars, s) ==> !RecoversStale(s, ev)
  {
  }

  /** Once the stream is quiet after `finalize`, the chat shows the intended text if and
    * only if `finalize` did not come to its flush with nothing pending and a held shed
    * snapshot other than the newest text, and no text is left behind; one is left behind
    * only when `finalize`'s own call found its message gone. */
  lemma FinalTextExact(maxChars: nat, hasMessage: bool, screen: Option<string>, evs: seq<Event>)
    requires IsRun(maxChars, Init(hasMessage, screen), evs) && TameRun(maxChars, Init(hasMessage, screen), evs)
    requires var t := End(maxChars, Init(hasMessage, screen), evs); t.finish.Finished? && t.loop.Idle?
    ensures var t := End(maxChars, Init(hasMessage, screen), evs);
      && (Intended(false, None, evs).Some? ==>
           (t.screen == Intended(false, None, evs)
            <==> !Stale(maxChars, Init(hasMessage, screen), evs) && t.pending.None?))
      && (t.pending.Some? ==> FinalApiDone(NotFound) in evs)
  {
    RunKeepsIntent(maxChars, Init(hasMessage, screen), evs);
    LeftBehind(maxChars, Init(hasMessage, screen), evs);
  }

  /** Once `finalize` is through, a pending text has a loop to send it. */
  ghost predicate NotStranded(s: State) {
    s.finish.Finished? && s.pending.Some? && !s.stopped ==> s.loop.Looping?
  }

  lemma StepStrands(maxChars: nat, s: State, ev: Event)
    requires OneCallInv(maxChars, s) && NotStranded(s) && Enabled(s, ev) && ev != FinalApiDone(NotFound)
    ensures NotStranded(Next(maxChars, s, ev))
  {
  }

  lemma {:induction false} LeftBehind(maxChars: nat, s: State, evs: seq<Event>)
    requires FreshInv(maxChars, s, false) || Lost(maxChars, s)
    requires IsRun(maxChars, s, evs) && TameRun(maxChars, s, evs) && NotStranded(s)
    ensures NotStranded(End(maxChars, s, evs)) || FinalApiDone(NotFound) in evs
    decreases evs
  {
    if evs != [] && evs[0] != FinalApiDone(NotFound) {
      StepStrands(maxChars, s, evs[0]);
      StepKeepsEither(maxChars, s, evs[0]);
      LeftBehind(maxChars, Next(maxChars, s, evs[0]), evs[1..]);
    }
  }

  /** No update, after a shed, repeats the text on screen. */
  ghost predicate NoRepeat(maxChars: nat, s: State, evs: seq<Event>)
    requires IsRun(maxChars, s, evs)
    decreases evs
  {
    evs == [] || (!SkipsOverShed(s, evs[0]) && NoRepeat(maxChars, Next(maxChars, s, evs[0]), evs[1..]))
  }

  lemma {:induction false} NoRepeatNeverStale(maxChars: nat, s: State, evs: seq<Event>)
    requires FreshInv(maxChars, s, true)
    requires IsRun(maxChars, s, evs) && TameRun(maxChars, s, evs) && NoRepeat(maxChars, s, evs)
    ensures !Stale(maxChars, s, evs)
    decreases evs
  {
    if evs != [] {
      assert !RecoversStale(s, evs[0]);
      StepKeepsFresh(maxChars, s, evs[0], true);
      NoRepeatNeverStale(maxChars, Next(maxChars, s, evs[0]), evs[1..]);
    }
  }

  /** So the intended text is shown whenever no snapshot equal to the one on screen is
    * skipped while an older shed one is held, and `finalize`'s own call finds its message. */
  lemma FinalTextShown(maxChars: nat, hasMessage: bool, screen: Option<string>, evs: seq<Event>)
    requires IsRun(maxChars, Init(hasMessage, screen), evs) && TameRun(maxChars, Init(hasMessage, screen), evs)
    requires NoRepeat(maxChars, Init(hasMessage, screen), evs) && FinalApiDone(NotFound) !in evs
    requires var t := End(maxChars, Init(hasMessage, screen), evs); t.finish.Finished? && t.loop.Idle?
    ensures Intended(false, None, evs).Some? ==>
      End(maxChars, Init(hasMessage, screen), evs).screen == Intended(false, None, evs)
  {
    NoRepeatNeverStale(maxChars, Init(hasMessage, screen), evs);
    FinalTextExact(maxChars, hasMessage, screen, evs);
  }

  lemma {:induction false} Then(maxChars: nat, s: State, evs: seq<Event>, ev: Event) returns (more: seq<Event>)
    requires IsRun(maxChars, s, evs) && Enabled(End(maxChars, s, evs), ev)
    ensures more == evs + [ev] && IsRun(maxChars, s, more)
    ensures End(maxChars, s, more) == Next(maxChars, End(maxChars, s, evs), ev)
    decreases evs
  {
    more := evs + [ev];
    if evs == [] {
      assert more[1..] == [];
    } else {
      var rest := Then(maxChars, Next(maxChars, s, evs[0]), evs[1..], ev);
      assert more[1..] == rest;
    }
  }

  lemma ShedBehindScreen() returns (evs: seq<Event>)
    ensures IsRun(9, Init(false, None), evs)
    ensures End(9, Init(false, None), evs)
         == State(true, None, Some("a"), Some("b"), false, false, Looping, 1, 0, false, Open, Some("b"), Some("a"))
  {
    var s := Init(false, None);
    evs := Then(9, s, [], Update("a", true));
    evs := Then(9, s, evs, ApiDone(Landed));
    evs := Then(9, s, evs, Update("b", true));
    evs := Then(9, s, evs, Check);
    evs := Then(9, s, evs, ApiDone(Shed));
  }

  lemma SkippedOverShed() returns (evs: seq<Event>)
    ensures IsRun(9, Init(false, None), evs)
    ensures End(9, Init(false, None), evs)
         == State(true, None, Some("a"), Some("b"), false, false, Idle, 0, 2, false, Open, Some("a"), Some("a"))
  {
    var s := Init(false, None);
    evs := ShedBehindScreen();
    evs := Then(9, s, evs, Update("a", true));
    evs := Then(9, s, evs, Check);
    evs := Then(9, s, evs, Check);
    evs := Then(9, s, evs, Settle);
  }

  /** A run in which the skipped snapshot lets an older shed one win: "b" is shed, "a" is
    * sent again and skipped as already on screen, and `finalize` brings "b" back. */
  lemma StaleShedWins() returns (evs: seq<Event>)
    ensures IsRun(9, Init(false, None), evs)
    ensures var t := End(9, Init(false, None), evs);
      t.finish.Finished? && t.loop.Idle? && t.latest == Some("a") && t.screen == Some("b")
  {
    var s := Init(false, None);
    evs := SkippedOverShed();
    evs := Then(9, s, evs, Finalize(None));
    evs := Then(9, s, evs, FinalApiDone(Landed));
  }

  lemma FinalizeInTheGap() returns (evs: seq<Event>)
    ensures IsRun(9, Init(true, None), evs)
    ensures End(9, Init(true, None), evs)
         == State(true, Some("b"), None, Some("a"), false, false, Exited, 1, 0, false, AwaitingLoop, Some("b"), None)
  {
    var s := Init(true, None);
    evs := Then(9, s, [], Update("a", true));
    evs := Then(9, s, evs, ApiDone(Shed));
    evs := Then(9, s, evs, Check);
    evs := Then(9, s, evs, Update("b", true));
    evs := Then(9, s, evs, Finalize(None));
  }

  /** A run in which a follow-up overtakes: "a" is shed; in the gap between the loop's
    * last look and its settling, "b" and `finalize` come in; the follow-up sends "b" and
    * `finalize` sends "a" beside it. */
  lemma OvertakenCalls() returns (evs: seq<Event>)
    ensures IsRun(9, Init(true, None), evs)
    ensures End(9, Init(true, None), evs)
         == State(true, None, None, None, false, false, Calling("b", true, true), 0, 0, false,
                  Sending("a", true), Some("b"), None)
    ensures Outstanding(End(9, Init(true, None), evs)) == 2
  {
    var s := Init(true, None);
    evs := FinalizeInTheGap();
    evs := Then(9, s, evs, Settle);
    evs := Then(9, s, evs, FollowUp(true));
    evs := Then(9, s, evs, ResumeFinalize);
  }

  /** Both land, the older one last: the chat ends on "a" although "b" is newer. */
  lemma OvertakenFinalText() returns (evs: seq<Event>)
    ensures IsRun(9, Init(true, None), evs)
    ensures var t := End(9, Init(true, None), evs);
      t.finish.Finished? && t.latest == Some("b") && t.screen == Some("a")
  {
    var s := Init(true, None);
    evs := OvertakenCalls();
    evs := Then(9, s, evs, ApiDone(Landed));
    evs := Then(9, s, evs, FinalApiDone(Landed));
  }

  /** A run in which the final text is left behind: the message is gone when `finalize`
    * edits it, and nothing sends the text again. */
  lemma FinalMessageGone() returns (evs: seq<Event>)
    ensures IsRun(9, Init(true, Some("a")), evs)
    ensures var t := End(9, Init(true, Some("a")), evs);
      && t.finish.Finished? && t.loop.Idle? && t.due == 0 && !t.timer
      && t.latest == t.pending == Some("b") && t.screen == None
  {
    var s := Init(true, Some("a"));
    evs := Then(9, s, [], Finalize(Some("b")));
    evs := Then(9, s, evs, FinalApiDone(NotFound));
  }

  // ------------------------------------------------------------- sends and edits

  /** A call has started between the two states: in the loop, or `finalize`'s own. */
  predicate StartsLoopCall(s: State, t: State) {
    t.loop.Calling? && !s.loop.Calling?
  }

  predicate StartsFinalCall(s: State, t: State) {
    t.finish.Sending? && !s.finish.Sending?
  }

  /** Whether the chat has a message of this stream's: one was given at the start or a send
    * has landed, and no call has found it gone since. */
  ghost predicate Known(maxChars: nat, given: bool, s: State, evs: seq<Event>)
    requires IsRun(maxChars, s, evs)
    decreases evs
  {
    if evs == [] then given
    else Known(maxChars, Told(given, s, evs[0]), Next(maxChars, s, evs[0]), evs[1..])
  }

  predicate Told(given: bool, s: State, ev: Event)
    requires Enabled(s, ev)
  {
    match ev
    case ApiDone(Landed) => given || !s.loop.edit
    case FinalApiDone(Landed) => given || !s.finish.edit
    case ApiDone(NotFound) => false
    case FinalApiDone(NotFound) => false
    case _ => given
  }

  lemma StepTells(maxChars: nat, s: State, ev: Event)
    requires Enabled(s, ev)
    ensures Next(maxChars, s, ev).hasMessage == Told(s.hasMessage, s, ev)
  {
    match ev
    case ApiDone(_) =>
    case FinalApiDone(_) =>
    case _ => OnlyAnswersTell(maxChars, s, ev);
  }

  lemma {:induction false} KnownIsHeld(maxChars: nat, s: State, evs: seq<Event>)
    requires IsRun(maxChars, s, evs)
    ensures End(maxChars, s, evs).hasMessage == Known(maxChars, s.hasMessage, s, evs)
    decreases evs
  {
    if evs != [] {
      StepTells(maxChars, s, evs[0]);
      KnownIsHeld(maxChars, Next(maxChars, s, evs[0]), evs[1..]);
    }
  }

  /** In every run, whatever the API answers, a call is an edit exactly when the chat has a
    * message of the stream's, and is started only on a live stream, for a text that fits and
    * is not the one last shown, when the throttle window is open. A stopped stream stays
    * stopped. */
  lemma CallsAreDue(maxChars: nat, hasMessage: bool, screen: Option<string>, evs: seq<Event>, ev: Event)
    requires IsRun(maxChars, Init(hasMessage, screen), evs)
    requires Enabled(End(maxChars, Init(hasMessage, screen), evs), ev)
    ensures var s := End(maxChars, Init(hasMessage, screen), evs);
      var t := Next(maxChars, s, ev);
      var known := Known(maxChars, hasMessage, Init(hasMessage, screen), evs);
      && (StartsLoopCall(s, t) ==> t.loop.edit == known && Sendable(maxChars, s, t.loop.text))
      && (StartsFinalCall(s, t) ==> t.finish.edit == known && Sendable(maxChars, s, t.finish.text))
      && (StartsLoopCall(s, t) || StartsFinalCall(s, t) ==>
           !s.stopped && !t.stopped && t.pending.None? && (ev.Update? || ev.FollowUp? ==> ev.open))
      && (s.stopped ==> t.stopped)
  {
    KnownIsHeld(maxChars, Init(hasMessage, screen), evs);
    StepStartsDue(maxChars, End(maxChars, Init(hasMessage, screen), evs), ev);
  }

  /** What the call a step starts is like, if it starts one. */
  predicate StartsDue(maxChars: nat, s: State, t: State, open: bool) {
    && (StartsLoopCall(s, t) ==> t.loop.edit == s.hasMessage && Sendable(maxChars, s, t.loop.text))
    && (StartsFinalCall(s, t) ==> t.finish.edit == s.hasMessage && Sendable(maxChars, s, t.finish.text))
    && (StartsLoopCall(s, t) || StartsFinalCall(s, t) ==> !s.stopped && !t.stopped && t.pending.None? && open)
    && (s.stopped ==> t.stopped)
  }

  lemma TurnStartsDue(maxChars: nat, s: State)
    requires !s.loop.Calling?
    ensures StartsDue(maxChars, s, Turn(maxChars, s), true)
    ensures StartsLoopCall(s, Turn(maxChars, s)) ==> |Turn(maxChars, s).loop.text| <= maxChars
  {
  }

  lemma StepStartsDue(maxChars: nat, s: State, ev: Event)
    requires Enabled(s, ev)
    ensures StartsDue(maxChars, s, Next(maxChars, s, ev), ev.Update? || ev.FollowUp? ==> ev.open)
  {
    match ev
    case Update(text, open) =>
      if !IsFinal(s) && !s.stopped && s.loop.Idle? && open {
        TurnStartsDue(maxChars, s.(pending := Some(text), latest := Some(text)));
      }
    case Check => TurnStartsDue(maxChars, s);
    case FollowUp(open) =>
      if s.loop.Idle? && open {
        TurnStartsDue(maxChars, s.(due := s.due - 1));
      }
    case TimerFires =>
      if s.loop.Idle? {
        TurnStartsDue(maxChars, s.(timer := false));
      }
    case Finalize(_) => FinalizeStartsDue(maxChars, s, ev);
    case ResumeFinalize => FinalizeStartsDue(maxChars, s, ev);
    case _ =>
  }

  lemma FinalizeStartsDue(maxChars: nat, s: State, ev: Event)
    requires Enabled(s, ev) && (ev.Finalize? || ev.ResumeFinalize?)
    ensures StartsDue(maxChars, s, Next(maxChars, s, ev), true)
  {
  }

  /** While the loop is about to look again, only the caller changes the pending text. */
  lemma {:induction false} PendingIsNewest(maxChars: nat, s: State, evs: seq<Event>)
    requires IsRun(maxChars, s, evs) && Check !in evs && s.loop.Looping? && !s.resumeDue && !s.finish.Sending?
    requires s.pending.Some? && !s.stopped
    ensures var t := End(maxChars, s, evs);
      && t.pending == Intended(IsFinal(s), s.pending, evs) && t.pending.Some? && t.loop.Looping? && !t.stopped
      && t.hasMessage == s.hasMessage && t.lastSent == s.lastSent
    decreases evs
  {
    if evs != [] {
      PendingIsNewest(maxChars, Next(maxChars, s, evs[0]), evs[1..]);
    }
  }

  /** What a loop's call is about fits, in every run. */
  ghost predicate CallFits(maxChars: nat, s: State) {
    s.loop.Calling? ==> |s.loop.text| <= maxChars
  }

  lemma {:induction false} CallsFit(maxChars: nat, s: State, evs: seq<Event>)
    requires IsRun(maxChars, s, evs) && CallFits(maxChars, s)
    ensures CallFits(maxChars, End(maxChars, s, evs))
    decreases evs
  {
    if evs != [] {
      StepStartsDue(maxChars, s, evs[0]);
      CallsFit(maxChars, Next(maxChars, s, evs[0]), evs[1..]);
    }
  }

  /** When the message a loop's call was about is gone, its text is sent anew: whatever the
    * callers and the follow-ups do before the loop looks again, it then starts a call, a new
    * send, for that text or the newest one handed in after it, unless a newer text exceeds
    * the limit, which stops the stream. */
  lemma NotFoundIsResent(maxChars: nat, hasMessage: bool, screen: Option<string>, evs: seq<Event>, mid: seq<Event>)
    requires IsRun(maxChars, Init(hasMessage, screen), evs)
    requires var s := End(maxChars, Init(hasMessage, screen), evs);
      && s.loop.Calling? && !s.stopped && !s.resumeDue && !s.finish.Sending?
      && IsRun(maxChars, Next(maxChars, s, ApiDone(NotFound)), mid) && Check !in mid
    ensures var s := End(maxChars, Init(hasMessage, screen), evs);
      var u := End(maxChars, Next(maxChars, s, ApiDone(NotFound)), mid);
      var newest := Intended(IsFinal(s), if s.pending.Some? then s.pending else Some(s.loop.text), mid);
      && Enabled(u, Check) && newest.Some? && u.pending == newest && !u.hasMessage
      && (if |newest.value| <= maxChars then Next(maxChars, u, Check).loop == Calling(newest.value, IsFinal(u), false)
          else Next(maxChars, u, Check).stopped)
      && (newest == Some(s.loop.text) ==> |newest.value| <= maxChars)
  {
    var s := End(maxChars, Init(hasMessage, screen), evs);
    CallsFit(maxChars, Init(hasMessage, screen), evs);
    PendingIsNewest(maxChars, Next(maxChars, s, ApiDone(NotFound)), mid);
  }

  // ------------------------------------------------------------- the timer

  lemma {:induction false} NoTimerComes(maxChars: nat, s: State, evs: seq<Event>)
    requires IsRun(maxChars, s, evs) && IsFinal(s) && !s.timer && FollowUp(false) !in evs
    ensures !End(maxChars, s, evs).timer
    decreases evs
  {
    if evs != [] {
      assert evs[0] in evs;
      FinalStepArmsNothing(maxChars, s, evs[0]);
      NoTimerComes(maxChars, Next(maxChars, s, evs[0]), evs[1..]);
    }
  }

  lemma FinalStepArmsNothing(maxChars: nat, s: State, ev: Event)
    requires Enabled(s, ev) && IsFinal(s) && !s.timer && ev != FollowUp(false)
    ensures IsFinal(Next(maxChars, s, ev)) && !Next(maxChars, s, ev).timer
  {
  }

  /** `finalize` disarms the timer, and only a follow-up chained before that and throttled
    * arms it again. */
  lemma FinalizeDisarms(maxChars: nat, s: State, finalText: Option<string>, evs: seq<Event>)
    requires !IsFinal(s) && IsRun(maxChars, Next(maxChars, s, Finalize(finalText)), evs) && FollowUp(false) !in evs
    ensures !End(maxChars, Next(maxChars, s, Finalize(finalText)), evs).timer
  {
    NoTimerComes(maxChars, Next(maxChars, s, Finalize(finalText)), evs);
  }

  // ---------------------------------------------------------- the shed snapshot

  /** An answer saying that its text is on screen. */
  predicate Shows(ev: Event) {
    && (ev.ApiDone? || ev.FinalApiDone?)
    && (ev.reply.Landed? || ev.reply.NotModified?)
  }

  predicate ShedAs(s: State, ev: Event, text: string)
    requires Enabled(s, ev)
  {
    (ev == ApiDone(Shed) && s.loop.text == text) || (ev == FinalApiDone(Shed) && s.finish.text == text)
  }

  /** Some call for `text` was shed, and no text has been shown since. */
  ghost predicate ShedSince(maxChars: nat, s: State, evs: seq<Event>, text: string)
    requires IsRun(maxChars, s, evs)
    decreases evs
  {
    evs != [] &&
    ((ShedAs(s, evs[0], text) && forall i :: 1 <= i < |evs| ==> !Shows(evs[i]))
     || ShedSince(maxChars, Next(maxChars, s, evs[0]), evs[1..], text))
  }

  lemma StepHoldsShed(maxChars: nat, s: State, ev: Event, text: string)
    requires Enabled(s, ev) && Next(maxChars, s, ev).shed == Some(text)
    ensures (s.shed == Some(text) && !Shows(ev)) || ShedAs(s, ev, text)
  {
    match ev
    case ApiDone(_) =>
    case FinalApiDone(_) =>
    case _ => OnlyAnswersTell(maxChars, s, ev);
  }

  predicate Untold(s: State, t: State) {
    (t.shed == s.shed || t.shed.None?) && t.hasMessage == s.hasMessage
  }

  lemma TurnTellsNothing(maxChars: nat, s: State)
    ensures Untold(s, Turn(maxChars, s))
  {
  }

  lemma FinalFlushTellsNothing(maxChars: nat, s: State)
    ensures Untold(s, FinalFlush(maxChars, s))
  {
  }

  /** Only an answer changes what is known of the message or adds to what is shed. */
  lemma OnlyAnswersTell(maxChars: nat, s: State, ev: Event)
    requires Enabled(s, ev) && !ev.ApiDone? && !ev.FinalApiDone?
    ensures Untold(s, Next(maxChars, s, ev))
  {
    match ev
    case Update(text, _) => TurnTellsNothing(maxChars, s.(pending := Some(text), latest := Some(text)));
    case Finalize(f) =>
      var t := if f.Some? && !s.stopped then s.(pending := f, latest := f) else s;
      FinalFlushTellsNothing(maxChars, t.(timer := false, finish := AwaitingLoop));
    case Check => TurnTellsNothing(maxChars, s);
    case FollowUp(_) => TurnTellsNothing(maxChars, s.(due := s.due - 1));
    case TimerFires => TurnTellsNothing(maxChars, s.(timer := false));
    case ResumeFinalize => FinalFlushTellsNothing(maxChars, s.(resumeDue := false));
    case _ =>
  }

  lemma {:induction false} HeldWasShed(maxChars: nat, s: State, evs: seq<Event>, text: string)
    requires IsRun(maxChars, s, evs) && End(maxChars, s, evs).shed == Some(text)
    ensures (s.shed == Some(text) && forall i :: 0 <= i < |evs| ==> !Shows(evs[i])) || ShedSince(maxChars, s, evs, text)
    decreases evs
  {
    if evs != [] {
      var t, rest := Next(maxChars, s, evs[0]), evs[1..];
      HeldWasShed(maxChars, t, rest, text);
      if !ShedSince(maxChars, t, rest, text) {
        StepHoldsShed(maxChars, s, evs[0], text);
        assert forall i :: 1 <= i < |evs| ==> evs[i] == rest[i - 1];
      }
    }
  }

  /** In every run, a snapshot `finalize` can recover is one that was shed, with nothing
    * landed or found unmodified since. */
  lemma RecoveredWasShed(maxChars: nat, hasMessage: bool, screen: Option<string>, evs: seq<Event>)
    requires IsRun(maxChars, Init(hasMessage, screen), evs)
    ensures var t := End(maxChars, Init(hasMessage, screen), evs);
      t.shed.Some? ==> ShedSince(maxChars, Init(hasMessage, screen), evs, t.shed.value)
  {
    var t := End(maxChars, Init(hasMessage, screen), evs);
    if t.shed.Some? {
      HeldWasShed(maxChars, Init(hasMessage, screen), evs, t.shed.value);
    }
  }

  // ------------------------------------------------------------- the machine

  /** The stream as the source runs it, with its variables changed in place. */
  class DraftStreamHandle {
    const maxChars: nat
    var hasMessage: bool
    var pendingText: Option<string>
    var lastSentText: Option<string>
    var shedText: Option<string>
    var stopped: bool
    var scheduledTimer: bool
    var inFlight: Loop
    var chained: nat
    var due: nat
    var resumeDue: bool
    var finish: Finish
    ghost var latest: Option<string>
    ghost var screen: Option<string>

    ghost function Abs(): State
      reads this
    {
      State(hasMessage, pendingText, lastSentText, shedText, stopped, scheduledTimer, inFlight,
            chained, due, resumeDue, finish, latest, screen)
    }

    constructor (maxChars: nat, hasMessage: bool, ghost screen: Option<string>)
      ensures this.maxChars == maxChars && Abs() == Init(hasMessage, screen)
    {
      this.maxChars := maxChars;
      this.hasMessage := hasMessage;
      pendingText, lastSentText, shedText := None, None, None;
      stopped, scheduledTimer, inFlight := false, false, Idle;
      chained, due, resumeDue, finish := 0, 0, false, Open;
      latest := None;
      this.screen := screen;
    }

    /** `flush` up to its API call: take the snapshot, skip it or stop on it. */
    method BeginFlush() returns (call: Option<string>)
      requires pendingText.Some?
      modifies this`pendingText, this`stopped
      ensures pendingText.None?
      ensures var f := FlushOf(maxChars, old(Abs()));
        && stopped == (old(stopped) || f.Stop?)
        && call == (if f.Call? then Some(f.text) else None)
    {
      var textToSend := pendingText.value;
      pendingText := None;
      call := None;
      if Some(textToSend) == lastSentText {
        return;
      }
      if |textToSend| > maxChars {
        stopped := true;
        return;
      }
      call := Some(textToSend);
    }

    /** `flush` after its API call. */
    method EndFlush(text: string, edit: bool, reply: Reply)
      modifies this`hasMessage, this`pendingText, this`lastSentText, this`shedText, this`screen
      ensures Abs() == Answered(old(Abs()), text, edit, reply)
    {
      match reply
      case Landed =>
        if !edit {
          hasMessage := true;
        }
        lastSentText := Some(text);
        shedText := None;
        screen := Some(text);
      case Shed =>
        shedText := Some(text);
      case NotModified =>
        lastSentText := Some(text);
        shedText := None;
      case NotFound =>
        hasMessage := false;
        lastSentText := None;
        if pendingText.None? {
          pendingText := Some(text);
        }
        screen := None;
      case Failed =>
    }

    /** `flushLoop` from its condition to its next await. */
    method FlushLoopTurn()
      modifies this`pendingText, this`stopped, this`inFlight
      ensures Abs() == Turn(maxChars, old(Abs()))
    {
      if pendingText.Some? && !stopped {
        var sealed := !finish.Open?;
        var call := BeginFlush();
        inFlight := if call.Some? then Calling(call.value, sealed, hasMessage) else Looping;
      } else {
        inFlight := Exited;
      }
    }

    method Schedule()
      modifies this`scheduledTimer
      ensures Abs() == Scheduled(old(Abs()))
    {
      if scheduledTimer || stopped {
        return;
      }
      scheduledTimer := true;
    }

    method UpdateText(text: string, open: bool)
      modifies this
      ensures Abs() == Next(maxChars, old(Abs()), Update(text, open))
    {
      if !finish.Open? || stopped {
        return;
      }
      pendingText := Some(text);
      latest := Some(text);
      if inFlight.Idle? && open {
        FlushLoopTurn();
      } else if inFlight.Idle? {
        Schedule();
      } else {
        chained := chained + 1;
      }
    }

    /** `finalize` after the loop it awaited, if any. */
    method FinalizeRest()
      modifies this`pendingText, this`shedText, this`stopped, this`finish
      ensures Abs() == FinalFlush(maxChars, old(Abs()))
    {
      if pendingText.None? && shedText.Some? && !stopped {
        pendingText := shedText;
      }
      shedText := None;
      finish := Finished;
      if pendingText.Some? && !stopped {
        var call := BeginFlush();
        if call.Some? {
          finish := Sending(call.value, hasMessage);
        }
      }
    }

    method FinalizeText(finalText: Option<string>)
      modifies this
      ensures Abs() == Next(maxChars, old(Abs()), Finalize(finalText))
    {
      if !finish.Open? {
        return;
      }
      finish := AwaitingLoop;
      if finalText.Some? && !stopped {
        pendingText := finalText;
        latest := finalText;
      }
      scheduledTimer := false;
      if inFlight.Idle? {
        FinalizeRest();
      }
    }

    method OnApiDone(reply: Reply)
      requires inFlight.Calling?
      modifies this
      ensures Abs() == Next(maxChars, old(Abs()), ApiDone(reply))
    {
      EndFlush(inFlight.text, inFlight.edit, reply);
      inFlight := Looping;
    }

    method OnCheck()
      requires inFlight.Looping?
      modifies this
      ensures Abs() == Next(maxChars, old(Abs()), Check)
    {
      FlushLoopTurn();
    }

    method OnSettle()
      requires inFlight.Exited?
      modifies this
      ensures Abs() == Next(maxChars, old(Abs()), Settle)
    {
      inFlight := Idle;
      due := due + chained;
      chained := 0;
      if finish.AwaitingLoop? {
        resumeDue := true;
      }
    }

    method OnFollowUp(open: bool)
      requires due > 0
      modifies this
      ensures Abs() == Next(maxChars, old(Abs()), FollowUp(open))
    {
      due := due - 1;
      if stopped || pendingText.None? || !inFlight.Idle? {
        return;
      }
      if open {
        FlushLoopTurn();
      } else {
        Schedule();
      }
    }

    method OnTimer()
      requires Enabled(Abs(), TimerFires)
      modifies this
      ensures Abs() == Next(maxChars, old(Abs()), TimerFires)
    {
      scheduledTimer := false;
      if inFlight.Idle? {
        FlushLoopTurn();
      }
    }

    method OnResumeFinalize()
      requires Enabled(Abs(), ResumeFinalize)
      modifies this
      ensures Abs() == Next(maxChars, old(Abs()), ResumeFinalize)
    {
      resumeDue := false;
      FinalizeRest();
    }

    method OnFinalApiDone(reply: Reply)
      requires finish.Sending?
      modifies this
      ensures Abs() == Next(maxChars, old(Abs()), FinalApiDone(reply))
    {
      EndFlush(finish.text, finish.edit, reply);
      finish := Finished;
    }
  }
}
