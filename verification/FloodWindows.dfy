/** Scoped flood windows that survive a restart: one file, read fail-safe, merged on every
  * write, and carrying the anchor of the at-most-once operator alert. */
module FloodWindows {
  import opened Common

  datatype Window = Window(untilTs: int, retryAfterSrc: string, observedAt: int, alertedAt: Option<int>)

  /** The persisted set: no file, a file that cannot be trusted, or windows by scope. */
  datatype File = Absent | Untrusted(why: string) | Windows(byScope: map<string, Window>)

  const CORRUPT_SUPPRESS_MS := 5 * 60_000

  /** The open windows at `now`; an untrusted file reads as one conservative global window. */
  function Read(f: File, now: int): map<string, Window> {
    match f
    case Absent => map[]
    case Untrusted(why) => map["global" := Window(now + CORRUPT_SUPPRESS_MS, "failsafe:" + why, now, None)]
    case Windows(m) => map s | s in m && m[s].untilTs > now :: m[s]
  }

  function Merge(prior: Option<Window>, w: Window): Window {
    match prior
    case None => w
    case Some(p) =>
      w.(untilTs := if p.untilTs > w.untilTs then p.untilTs else w.untilTs,
         alertedAt := if w.alertedAt.Some? then w.alertedAt else p.alertedAt)
  }

  function Written(f: File, scope: string, w: Window, now: int): File {
    var m := Read(f, now);
    if w.untilTs > now then Windows(m[scope := Merge(if scope in m then Some(m[scope]) else None, w)])
    else Windows(m)
  }

  function Marked(f: File, scope: string, alertedAt: int, now: int): File {
    var m := Read(f, now);
    if scope in m then Written(f, scope, m[scope].(alertedAt := Some(alertedAt)), now) else f
  }

  // ----------------------------------------------------------------------- steps

  /** A look at one scope that found its window open and unanchored, and so sends an alert:
    * the observer awaits the send, and marks the window only after that. */
  datatype Attempt = Attempt(scope: string, checkedAt: int, delivered: bool)

  /** The file, and the attempts under way. */
  datatype State = State(file: File, attempts: map<nat, Attempt>)

  /** Ticks may overlap, so looks, deliveries and marks of several attempts interleave. A
    * look is `due` when the scope is alertable, its window has been open for the alert
    * threshold and the operator can be reached. `Abandon` is a send that failed; a restart
    * forgets all attempts. */
  datatype Action =
    | Write(scope: string, window: Window)
    | Look(attempt: nat, scope: string, due: bool)
    | Deliver(attempt: nat)
    | Mark(attempt: nat)
    | Abandon(attempt: nat)
    | Restart

  /** `persists` tells whether the atomic rename of a write goes through. */
  datatype Step = Step(at: int, persists: bool, action: Action)

  predicate Unanchored(f: File, scope: string, now: int) {
    scope in Read(f, now) && Read(f, now)[scope].alertedAt.None?
  }

  /** The look starts an attempt. */
  predicate Passes(s: State, step: Step) {
    && step.action.Look? && step.action.due && step.action.attempt !in s.attempts
    && Unanchored(s.file, step.action.scope, step.at)
  }

  /** The step puts an alert in front of the operator. */
  predicate Delivers(s: State, step: Step) {
    step.action.Deliver? && step.action.attempt in s.attempts && !s.attempts[step.action.attempt].delivered
  }

  predicate Finishes(s: State, step: Step) {
    step.action.Mark? && step.action.attempt in s.attempts && s.attempts[step.action.attempt].delivered
  }

  function Next(s: State, step: Step): State {
    match step.action
    case Write(scope, w) => if step.persists then s.(file := Written(s.file, scope, w, step.at)) else s
    case Look(a, scope, _) =>
      if Passes(s, step) then s.(attempts := s.attempts[a := Attempt(scope, step.at, false)]) else s
    case Deliver(a) =>
      if Delivers(s, step) then s.(attempts := s.attempts[a := s.attempts[a].(delivered := true)]) else s
    case Mark(a) =>
      if !Finishes(s, step) then s
      else
        var t := s.attempts[a];
        State(if step.persists then Marked(s.file, t.scope, t.checkedAt, step.at) else s.file, s.attempts - {a})
    case Abandon(a) =>
      if a in s.attempts && !s.attempts[a].delivered then s.(attempts := s.attempts - {a}) else s
    case Restart => s.(attempts := map[])
  }

  /** The persisted store with the observer's attempts. */
  class FloodWindowStore {
    var file: File
    var attempts: map<nat, Attempt>

    function Abs(): State
      reads this
    {
      State(file, attempts)
    }

    constructor (f: File)
      ensures Abs() == State(f, map[])
    {
      file := f;
      attempts := map[];
    }

    method WriteFloodWindow(scope: string, w: Window, now: int, persists: bool)
      modifies this`file
      ensures Abs() == Next(old(Abs()), Step(now, persists, Write(scope, w)))
    {
      var byScope := Read(file, now);
      if w.untilTs > now {
        var untilTs, alertedAt := w.untilTs, w.alertedAt;
        if scope in byScope {
          var prior := byScope[scope];
          if prior.untilTs > untilTs {
            untilTs := prior.untilTs;
          }
          if alertedAt.None? {
            alertedAt := prior.alertedAt;
          }
        }
        byScope := byScope[scope := w.(untilTs := untilTs, alertedAt := alertedAt)];
      }
      if persists {
        file := Windows(byScope);
      }
    }

    method MarkFloodWindowAlerted(scope: string, alertedAt: int, now: int, persists: bool)
      modifies this`file
      ensures file == if persists then Marked(old(file), scope, alertedAt, now) else old(file)
    {
      var open := Read(file, now);
      if scope !in open {
        return;
      }
      WriteFloodWindow(scope, open[scope].(alertedAt := Some(alertedAt)), now, persists);
    }

    /** The observer looks at a scope, up to the await of the send. */
    method LookAt(a: nat, scope: string, due: bool, now: int) returns (alerts: bool)
      modifies this`attempts
      ensures Abs() == Next(old(Abs()), Step(now, true, Look(a, scope, due)))
      ensures alerts == Passes(old(Abs()), Step(now, true, Look(a, scope, due)))
    {
      var open := Read(file, now);
      alerts := due && a !in attempts && scope in open && open[scope].alertedAt.None?;
      if alerts {
        attempts := attempts[a := Attempt(scope, now, false)];
      }
    }

    /** The send has succeeded and the observer resumes. */
    method ResumeAfterSend(a: nat, now: int, persists: bool)
      requires a in attempts && attempts[a].delivered
      modifies this
      ensures Abs() == Next(old(Abs()), Step(now, persists, Mark(a)))
    {
      MarkFloodWindowAlerted(attempts[a].scope, attempts[a].checkedAt, now, persists);
      attempts := attempts - {a};
    }
  }

  // ------------------------------------------------------------------------ runs

  /** The state just before step `k`. */
  function StateAt(s: State, steps: seq<Step>, k: nat): State
    requires k <= |steps|
  {
    if k == 0 then s else Next(StateAt(s, steps, k - 1), steps[k - 1])
  }

  /** The clock never runs back. */
  ghost predicate Timed(steps: seq<Step>) {
    forall i, j :: 0 <= i <= j < |steps| ==> steps[i].at <= steps[j].at
  }

  function OpenAt(s: State, steps: seq<Step>, k: nat): map<string, Window>
    requires k < |steps|
  {
    Read(StateAt(s, steps, k).file, steps[k].at)
  }

  /** One step keeps every window that is open then and later: not shortened, not
    * forgotten. */
  lemma StepKeepsWindow(s: State, step: Step, scope: string, later: int)
    requires scope in Read(s.file, step.at) && step.at <= later < Read(s.file, step.at)[scope].untilTs
    ensures var was, now := Read(s.file, step.at), Read(Next(s, step).file, later);
      scope in now && now[scope].untilTs >= was[scope].untilTs
  {
  }

  /** While a scope's window is open its expiry never moves earlier, over any writes,
    * marks, failed writes and restarts. */
  lemma {:induction false} ExpiryNeverEarlier(s: State, steps: seq<Step>, i: nat, k: nat, scope: string)
    requires Timed(steps) && i <= k < |steps|
    requires scope in OpenAt(s, steps, i) && steps[k].at < OpenAt(s, steps, i)[scope].untilTs
    ensures scope in OpenAt(s, steps, k)
    ensures OpenAt(s, steps, k)[scope].untilTs >= OpenAt(s, steps, i)[scope].untilTs
    decreases k
  {
    if i < k {
      ExpiryNeverEarlier(s, steps, i, k - 1, scope);
      StepKeepsWindow(StateAt(s, steps, k - 1), steps[k - 1], scope, steps[k].at);
    }
  }

  /** A file that cannot be trusted suppresses everything: until it is rewritten, every look
    * finds one global window, open for five more minutes and unanchored. */
  lemma UntrustedSuppresses(why: string, now: int)
    ensures var open := Read(Untrusted(why), now);
      && open.Keys == {"global"} && open["global"].untilTs == now + 300_000 && open["global"].alertedAt == None
      && Unanchored(Untrusted(why), "global", now)
  {
  }

  /** The write leaves its window in the file. */
  predicate Opens(step: Step, scope: string) {
    step.persists && step.action.Write? && step.action.scope == scope && step.action.window.untilTs > step.at
  }

  /** A persisted write opens its window: every later look before the written expiry finds
    * it, open at least that long. */
  lemma WriteOpens(s: State, steps: seq<Step>, i: nat, k: nat, scope: string)
    requires Timed(steps) && i < k < |steps| && Opens(steps[i], scope)
    requires steps[k].at < steps[i].action.window.untilTs
    ensures scope in OpenAt(s, steps, k) && OpenAt(s, steps, k)[scope].untilTs >= steps[i].action.window.untilTs
  {
    assert scope in OpenAt(s, steps, i + 1) && OpenAt(s, steps, i + 1)[scope].untilTs >= steps[i].action.window.untilTs;
    ExpiryNeverEarlier(s, steps, i + 1, k, scope);
  }

  /** Where an expiry found at step `k` can come from: the file as it was, its failing safe at
    * an earlier look or this one, or a persisted write. */
  ghost predicate ComesFrom(s: State, steps: seq<Step>, k: nat, scope: string, untilTs: int)
    requires k < |steps|
  {
    || (s.file.Windows? && scope in s.file.byScope && s.file.byScope[scope].untilTs == untilTs)
    || (s.file.Untrusted? && scope == "global" && exists i :: 0 <= i <= k && steps[i].at + 300_000 == untilTs)
    || (exists i :: 0 <= i < k && Opens(steps[i], scope) && steps[i].action.window.untilTs == untilTs)
  }

  /** No window is invented or prolonged: every open expiry a step finds was written, or was
    * in the file, or is that of the fail-safe window. */
  lemma {:induction false} NoWindowInvented(s: State, steps: seq<Step>, k: nat, scope: string)
    requires Timed(steps) && k < |steps| && scope in OpenAt(s, steps, k)
    ensures ComesFrom(s, steps, k, scope, OpenAt(s, steps, k)[scope].untilTs)
    ensures StateAt(s, steps, k).file.Untrusted? ==> s.file.Untrusted?
    decreases k
  {
    if k > 0 {
      var was, now := StateAt(s, steps, k - 1), StateAt(s, steps, k);
      var until := OpenAt(s, steps, k)[scope].untilTs;
      StepInventsNothing(was, steps[k - 1], scope, steps[k].at);
      if !(Opens(steps[k - 1], scope) && steps[k - 1].action.window.untilTs == until) {
        NoWindowInvented(s, steps, k - 1, scope);
      }
    }
  }

  lemma StepInventsNothing(s: State, step: Step, scope: string, later: int)
    requires step.at <= later && scope in Read(Next(s, step).file, later)
    ensures var until := Read(Next(s, step).file, later)[scope].untilTs;
      || (Opens(step, scope) && step.action.window.untilTs == until)
      || (scope in Read(s.file, step.at) && Read(s.file, step.at)[scope].untilTs == until)
      || (s.file.Untrusted? && scope == "global" && until == later + 300_000)
    ensures Next(s, step).file.Untrusted? ==> s.file.Untrusted?
  {
  }

  // ----------------------------------------------------------------- when it alerts again

  /** The window stays open, as every step from `i` to `k` finds it. */
  ghost predicate OpenThroughout(s: State, steps: seq<Step>, i: nat, k: nat, scope: string)
    requires k < |steps|
  {
    forall j :: i <= j <= k ==> scope in OpenAt(s, steps, j)
  }

  /** The step puts the scope's anchor in the file. */
  predicate Anchors(s: State, step: Step, scope: string) {
    step.persists &&
    match step.action
    case Mark(a) => Finishes(s, step) && s.attempts[a].scope == scope
    case Write(sc, w) => sc == scope && w.untilTs > step.at && w.alertedAt.Some?
    case _ => false
  }

  ghost predicate Anchored(s: State, steps: seq<Step>, i: nat, k: nat, scope: string)
    requires k <= |steps|
  {
    exists m :: i <= m < k && Anchors(StateAt(s, steps, m), steps[m], scope)
  }

  lemma StepAnchors(s: State, step: Step, scope: string, later: int)
    requires step.at <= later && scope in Read(s.file, step.at) && scope in Read(Next(s, step).file, later)
    ensures Read(Next(s, step).file, later)[scope].alertedAt.Some?
       <==> Read(s.file, step.at)[scope].alertedAt.Some? || Anchors(s, step, scope)
  {
  }

  lemma AnchoredStep(s: State, steps: seq<Step>, i: nat, k: nat, scope: string)
    requires i < k <= |steps|
    ensures Anchored(s, steps, i, k, scope)
       <==> Anchored(s, steps, i, k - 1, scope) || Anchors(StateAt(s, steps, k - 1), steps[k - 1], scope)
  {
    if Anchored(s, steps, i, k, scope) {
      var m :| i <= m < k && Anchors(StateAt(s, steps, m), steps[m], scope);
      assert m == k - 1 || (i <= m < k - 1 && Anchors(StateAt(s, steps, m), steps[m], scope));
    }
  }

  /** While a window stays open, its anchor is set at `k` if and only if it was at `i` or
    * some step between put it there. */
  lemma {:induction false} AnchorExact(s: State, steps: seq<Step>, i: nat, k: nat, scope: string)
    requires Timed(steps) && i <= k < |steps| && OpenThroughout(s, steps, i, k, scope)
    ensures scope in OpenAt(s, steps, i) && scope in OpenAt(s, steps, k)
    ensures OpenAt(s, steps, k)[scope].alertedAt.Some?
       <==> OpenAt(s, steps, i)[scope].alertedAt.Some? || Anchored(s, steps, i, k, scope)
    decreases k
  {
    assert scope in OpenAt(s, steps, i) && scope in OpenAt(s, steps, k);
    if i < k {
      AnchorExact(s, steps, i, k - 1, scope);
      StepAnchors(StateAt(s, steps, k - 1), steps[k - 1], scope, steps[k].at);
      AnchoredStep(s, steps, i, k, scope);
    }
  }

  /** Step `k` is a look at the scope that starts an attempt. */
  ghost predicate PassesAt(s: State, steps: seq<Step>, k: nat, scope: string)
    requires k < |steps|
  {
    Passes(StateAt(s, steps, k), steps[k]) && steps[k].action.scope == scope
  }

  /** After one look has passed and while the window stays open, a later look passes, and
    * so alerts again, if and only if it is due (the scope is alertable, above the alert
    * threshold, and the operator reachable) and no anchor has reached the file in between. */
  lemma AlertsAgainExactly(s: State, steps: seq<Step>, x: nat, y: nat, scope: string)
    requires Timed(steps) && x < y < |steps| && OpenThroughout(s, steps, x, y, scope)
    requires PassesAt(s, steps, x, scope)
    requires steps[y].action.Look? && steps[y].action.scope == scope
    requires steps[y].action.attempt !in StateAt(s, steps, y).attempts
    ensures PassesAt(s, steps, y, scope) <==> steps[y].action.due && !Anchored(s, steps, x, y, scope)
  {
    AnchorExact(s, steps, x, y, scope);
  }

  /** With one persisted mark at `m` and no other anchor about, a second look that is due at
    * an open window alerts again if and only if it falls between the first look and that
    * mark. */
  lemma OverlapExactly(s: State, steps: seq<Step>, x: nat, m: nat, y: nat, scope: string)
    requires Timed(steps) && x < m < |steps| && x < y < |steps| && OpenThroughout(s, steps, x, y, scope)
    requires PassesAt(s, steps, x, scope) && Anchors(StateAt(s, steps, m), steps[m], scope)
    requires forall j :: x <= j < y && j != m ==> !Anchors(StateAt(s, steps, j), steps[j], scope)
    requires steps[y].action.Look? && steps[y].action.scope == scope
    requires steps[y].action.attempt !in StateAt(s, steps, y).attempts
    ensures PassesAt(s, steps, y, scope) <==> steps[y].action.due && y < m
  {
    AlertsAgainExactly(s, steps, x, y, scope);
    if m < y {
      assert Anchored(s, steps, x, y, scope);
    } else {
      assert y != m;
    }
  }

  // ----------------------------------------------------------------- at most one alert

  /** Attempt `a` is under way just before `k`, since its look at `c`. */
  ghost predicate UnderWay(s: State, steps: seq<Step>, a: nat, c: nat, k: nat)
    requires k <= |steps|
  {
    && c < k && a in StateAt(s, steps, k).attempts
    && Passes(StateAt(s, steps, c), steps[c]) && steps[c].action.attempt == a
    && steps[c].action.scope == StateAt(s, steps, k).attempts[a].scope
    && forall j :: c < j <= k ==> a in StateAt(s, steps, j).attempts
  }

  /** Every attempt goes back to its own look. */
  lemma {:induction false} LookBehind(f: File, steps: seq<Step>, k: nat, a: nat) returns (c: nat)
    requires k <= |steps| && a in StateAt(State(f, map[]), steps, k).attempts
    ensures UnderWay(State(f, map[]), steps, a, c, k)
  {
    var s := State(f, map[]);
    var before := StateAt(s, steps, k - 1);
    if a in before.attempts {
      c := LookBehind(f, steps, k - 1, a);
    } else {
      c := k - 1;
    }
  }

  /** Delivered attempts stay delivered. */
  lemma {:induction false} StaysDelivered(s: State, steps: seq<Step>, a: nat, i: nat, k: nat)
    requires i < k <= |steps| && a in StateAt(s, steps, i).attempts
    requires Delivers(StateAt(s, steps, i), steps[i]) && steps[i].action.attempt == a
    requires forall j :: i < j <= k ==> a in StateAt(s, steps, j).attempts
    ensures StateAt(s, steps, k).attempts[a].delivered
    decreases k
  {
    assert a in StateAt(s, steps, k).attempts;
    if i + 1 < k {
      StaysDelivered(s, steps, a, i, k - 1);
      assert a in StateAt(s, steps, k - 1).attempts;
    }
  }

  /** Two alerts come from two looks: no look is delivered twice. */
  lemma LooksDiffer(s: State, steps: seq<Step>, i: nat, k: nat, c: nat, d: nat)
    requires i < k < |steps| && Delivers(StateAt(s, steps, i), steps[i]) && Delivers(StateAt(s, steps, k), steps[k])
    requires UnderWay(s, steps, steps[i].action.attempt, c, i) && UnderWay(s, steps, steps[k].action.attempt, d, k)
    ensures c != d
  {
    if c == d {
      StaysDelivered(s, steps, steps[k].action.attempt, i, k);
    }
  }

  /** If two alerts for a scope are delivered, they come from two looks, and between those
    * looks the window was found closed or no anchor reached the file. */
  lemma AtMostOneAlert(f: File, steps: seq<Step>, i: nat, k: nat, scope: string) returns (x: nat, y: nat)
    requires Timed(steps) && i < k < |steps|
    requires var s := StateAt(State(f, map[]), steps, i);
      Delivers(s, steps[i]) && s.attempts[steps[i].action.attempt].scope == scope
    requires var s := StateAt(State(f, map[]), steps, k);
      Delivers(s, steps[k]) && s.attempts[steps[k].action.attempt].scope == scope
    ensures x < y < k
    ensures PassesAt(State(f, map[]), steps, x, scope) && PassesAt(State(f, map[]), steps, y, scope)
    ensures steps[i].action.attempt in {steps[x].action.attempt, steps[y].action.attempt}
    ensures steps[k].action.attempt in {steps[x].action.attempt, steps[y].action.attempt}
    ensures !OpenThroughout(State(f, map[]), steps, x, y, scope) || !Anchored(State(f, map[]), steps, x, y, scope)
  {
    var s := State(f, map[]);
    var c := LookBehind(f, steps, i, steps[i].action.attempt);
    var d := LookBehind(f, steps, k, steps[k].action.attempt);
    LooksDiffer(s, steps, i, k, c, d);
    x, y := if c < d then c else d, if c < d then d else c;
    if OpenThroughout(s, steps, x, y, scope) {
      AlertsAgainExactly(s, steps, x, y, scope);
    }
  }

  /** Overlapping ticks do alert twice, with the window open throughout and both marks
    * persisted: the second looks while the first awaits its send. */
  lemma OverlappingTicksAlertTwice(scope: string, w: Window, t: int)
    requires t < w.untilTs && w.alertedAt.None?
    ensures var s := State(Windows(map[scope := w]), map[]);
      var steps := [Step(t, true, Look(0, scope, true)), Step(t, true, Look(1, scope, true)), Step(t, true, Deliver(0)),
                    Step(t, true, Deliver(1)), Step(t, true, Mark(0)), Step(t, true, Mark(1))];
      && Delivers(StateAt(s, steps, 2), steps[2]) && Delivers(StateAt(s, steps, 3), steps[3])
      && Anchors(StateAt(s, steps, 4), steps[4], scope) && Anchors(StateAt(s, steps, 5), steps[5], scope)
      && OpenThroughout(s, steps, 0, 5, scope)
  {
    var f := Windows(map[scope := w]);
    var s := State(f, map[]);
    var steps := [Step(t, true, Look(0, scope, true)), Step(t, true, Look(1, scope, true)), Step(t, true, Deliver(0)),
                  Step(t, true, Deliver(1)), Step(t, true, Mark(0)), Step(t, true, Mark(1))];
    var a, b := Attempt(scope, t, false), Attempt(scope, t, true);
    assert StateAt(s, steps, 0) == s;
    assert StateAt(s, steps, 1) == State(f, map[0 := a]);
    assert StateAt(s, steps, 2) == State(f, map[0 := a, 1 := a]);
    assert StateAt(s, steps, 3) == State(f, map[0 := b, 1 := a]);
    assert StateAt(s, steps, 4) == State(f, map[0 := b, 1 := b]);
    assert StateAt(s, steps, 5) == State(Marked(f, scope, t, t), map[1 := b]);
    forall j | 0 <= j <= 5
      ensures scope in OpenAt(s, steps, j)
    {
      assert steps[j].at == t;
      assert j < 5 ==> StateAt(s, steps, j).file == f;
    }
  }

  /** So does an alert whose mark fails, or that a restart cuts off before its mark. */
  lemma LostAnchorRepeats(scope: string, w: Window, t: int, lost: Action)
    requires t < w.untilTs && w.alertedAt.None? && (lost == Mark(0) || lost == Restart)
    ensures var s := State(Windows(map[scope := w]), map[]);
      var steps := [Step(t, true, Look(0, scope, true)), Step(t, true, Deliver(0)), Step(t, false, lost),
                    Step(t, true, Look(1, scope, true)), Step(t, true, Deliver(1))];
      && Delivers(StateAt(s, steps, 1), steps[1]) && Delivers(StateAt(s, steps, 4), steps[4])
      && OpenThroughout(s, steps, 0, 4, scope)
  {
    var f := Windows(map[scope := w]);
    var s := State(f, map[]);
    var steps := [Step(t, true, Look(0, scope, true)), Step(t, true, Deliver(0)), Step(t, false, lost),
                  Step(t, true, Look(1, scope, true)), Step(t, true, Deliver(1))];
    var a := Attempt(scope, t, false);
    assert StateAt(s, steps, 0) == s;
    assert StateAt(s, steps, 1) == State(f, map[0 := a]);
    assert StateAt(s, steps, 2) == State(f, map[0 := a.(delivered := true)]);
    assert StateAt(s, steps, 3) == State(f, map[]);
    assert StateAt(s, steps, 4) == State(f, map[1 := a]);
    forall j | 0 <= j <= 4
      ensures scope in OpenAt(s, steps, j)
    {
      assert steps[j].at == t && StateAt(s, steps, j).file == f;
    }
  }
}
