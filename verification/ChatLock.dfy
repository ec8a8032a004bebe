/** The per-lane promise chain that serializes outbound API calls. A task is one `run`: its
  * work is queued behind the promise it found in the map, runs, settles, and is then
  * cleaned up, which settles the promise the next task waits for. */
module ChatLock {
  import opened Common

  /** A chat's root lane has no thread. */
  datatype Lane = Global | Chat(chat: string, thread: Option<int>)

  datatype Outcome = Fulfilled(value: int) | Rejected(error: int)

  datatype Status = Queued | Running | Settled(outcome: Outcome) | Cleaned(outcome: Outcome)

  /** `prior` is the task whose tracking promise this one found in the map. */
  datatype Task = Task(lane: Lane, prior: Option<nat>, status: Status)

  datatype State = State(tasks: seq<Task>, chains: map<Lane, nat>)

  datatype Event = Call(lane: Lane) | Start(task: nat) | Settle(task: nat, outcome: Outcome) | Cleanup(task: nat)

  // -------------------------------------------------------------------- choosing a lane

  /** An API call's chat argument, and the thread in its options bag. */
  datatype ApiCall = ApiCall(chat: Option<string>, thread: Option<int>)

  /** The lane a call is serialized on, and the call as it is passed down: the General
    * topic's thread id is stripped. */
  function Wrapped(call: ApiCall): (Lane, ApiCall) {
    if call.chat.None? then (Global, call)
    else
      var thread := if call.thread == Some(1) then None else call.thread;
      (Chat(call.chat.value, if thread == Some(0) then None else thread), call.(thread := thread))
  }

  // ------------------------------------------------------------------------------ steps

  predicate Enabled(s: State, ev: Event) {
    match ev
    case Call(_) => true
    case Start(i) =>
      && i < |s.tasks| && s.tasks[i].status.Queued?
      && (s.tasks[i].prior.Some? ==>
           var p := s.tasks[i].prior.value;
           p < |s.tasks| && s.tasks[p].status.Cleaned?)
    case Settle(i, _) => i < |s.tasks| && s.tasks[i].status.Running?
    case Cleanup(i) => i < |s.tasks| && s.tasks[i].status.Settled?
  }

  function WithStatus(s: State, i: nat, status: Status): State
    requires i < |s.tasks|
  {
    s.(tasks := s.tasks[i := s.tasks[i].(status := status)])
  }

  function Next(s: State, ev: Event): State
    requires Enabled(s, ev)
  {
    match ev
    case Call(lane) =>
      var prior := if lane in s.chains then Some(s.chains[lane]) else None;
      State(s.tasks + [Task(lane, prior, Queued)], s.chains[lane := |s.tasks|])
    case Start(i) => WithStatus(s, i, Running)
    case Settle(i, outcome) => WithStatus(s, i, Settled(outcome))
    case Cleanup(i) =>
      var lane := s.tasks[i].lane;
      var chains := if lane in s.chains && s.chains[lane] == i then s.chains - {lane} else s.chains;
      WithStatus(s, i, Cleaned(s.tasks[i].status.outcome)).(chains := chains)
  }

  const Idle := State([], map[])

  /** The lock, over the promises it has made. */
  class Lock {
    var chains: map<Lane, nat>
    var tasks: seq<Task>

    function Abs(): State
      reads this
    {
      State(tasks, chains)
    }

    constructor ()
      ensures Abs() == Idle
    {
      chains := map[];
      tasks := [];
    }

    method Run(lane: Lane) returns (task: nat)
      modifies this
      ensures Abs() == Next(old(Abs()), Call(lane)) && task == |old(tasks)|
    {
      var prior := None;
      if lane in chains {
        prior := Some(chains[lane]);
      }
      task := |tasks|;
      tasks := tasks + [Task(lane, prior, Queued)];
      chains := chains[lane := task];
    }

    method Send(call: ApiCall) returns (task: nat, sent: ApiCall)
      modifies this
      ensures Abs() == Next(old(Abs()), Call(Wrapped(call).0)) && sent == Wrapped(call).1
    {
      sent := call;
      if call.chat.None? {
        task := Run(Global);
        return;
      }
      var thread := call.thread;
      if thread == Some(1) {
        thread := None;
        sent := call.(thread := None);
      }
      task := Run(Chat(call.chat.value, if thread == Some(0) then None else thread));
    }

    method Started(i: nat)
      requires Enabled(Abs(), Start(i))
      modifies this`tasks
      ensures Abs() == Next(old(Abs()), Start(i))
    {
      tasks := tasks[i := tasks[i].(status := Running)];
    }

    method HasSettled(i: nat, outcome: Outcome)
      requires Enabled(Abs(), Settle(i, outcome))
      modifies this`tasks
      ensures Abs() == Next(old(Abs()), Settle(i, outcome))
    {
      tasks := tasks[i := tasks[i].(status := Settled(outcome))];
    }

    method Finally(i: nat)
      requires Enabled(Abs(), Cleanup(i))
      modifies this
      ensures Abs() == Next(old(Abs()), Cleanup(i))
    {
      var lane := tasks[i].lane;
      if lane in chains && chains[lane] == i {
        chains := chains - {lane};
      }
      tasks := tasks[i := tasks[i].(status := Cleaned(tasks[i].status.outcome))];
    }
  }

  // -------------------------------------------------------------------------- invariant

  predicate SameLane(s: State, i: int, j: int) {
    0 <= i < |s.tasks| && 0 <= j < |s.tasks| && s.tasks[i].lane == s.tasks[j].lane
  }

  predicate Done(s: State, i: int) {
    0 <= i < |s.tasks| && s.tasks[i].status.Cleaned?
  }

  /** Work starts in call order and never overlaps: a task that has left the queue finds
    * every earlier task of its lane settled and cleaned up. */
  ghost predicate Fifo(s: State) {
    forall i, j :: i < j && SameLane(s, i, j) && !s.tasks[j].status.Queued? ==> Done(s, i)
  }

  /** A task waits for the one just before it on its lane, or all of those are done. */
  ghost predicate Linked(s: State, j: nat)
    requires j < |s.tasks|
  {
    match s.tasks[j].prior
    case None => forall i :: i < j && SameLane(s, i, j) ==> Done(s, i)
    case Some(p) => p < j && SameLane(s, p, j) && forall i :: p < i < j ==> !SameLane(s, i, j)
  }

  ghost predicate Chained(s: State) {
    forall j :: 0 <= j < |s.tasks| ==> Linked(s, j)
  }

  ghost predicate Tail(s: State, lane: Lane, i: nat) {
    && i < |s.tasks| && s.tasks[i].lane == lane && !Done(s, i)
    && forall j :: i < j < |s.tasks| ==> s.tasks[j].lane != lane
  }

  /** The map points at a lane's newest task, and that task is not done. */
  ghost predicate PointsAtTail(s: State) {
    forall lane :: lane in s.chains ==> Tail(s, lane, s.chains[lane])
  }

  ghost predicate AbsentMeansDone(s: State) {
    forall i :: 0 <= i < |s.tasks| && s.tasks[i].lane !in s.chains ==> Done(s, i)
  }

  ghost predicate Inv(s: State) {
    Fifo(s) && Chained(s) && PointsAtTail(s) && AbsentMeansDone(s)
  }

  lemma CallKeepsInv(s: State, lane: Lane)
    requires Inv(s)
    ensures Inv(Next(s, Call(lane)))
  {
    var t := Next(s, Call(lane));
    var n := |s.tasks|;
    assert forall i :: 0 <= i < n ==> t.tasks[i] == s.tasks[i];
    forall j | 0 <= j < |t.tasks|
      ensures Linked(t, j)
    {
      if j < n {
        assert Linked(s, j);
        assert forall i :: i < j ==> SameLane(t, i, j) == SameLane(s, i, j) && Done(t, i) == Done(s, i);
      } else if lane in s.chains {
        assert Tail(s, lane, s.chains[lane]);
      }
    }
    forall i, j | i < j && SameLane(t, i, j) && !t.tasks[j].status.Queued?
      ensures Done(t, i)
    {
      assert SameLane(s, i, j) && Done(s, i);
    }
    forall l | l in t.chains
      ensures Tail(t, l, t.chains[l])
    {
      assert l != lane ==> Tail(s, l, s.chains[l]);
    }
  }

  /** A task that can start finds all earlier tasks of its lane done. */
  lemma StartFindsDone(s: State, i: nat, j: nat)
    requires Inv(s) && Enabled(s, Start(j)) && i < j && SameLane(s, i, j)
    ensures Done(s, i)
  {
    assert Linked(s, j);
    if s.tasks[j].prior.Some? {
      var p := s.tasks[j].prior.value;
      assert SameLane(s, p, j) && Done(s, p);
      assert i < p ==> SameLane(s, i, p);
    }
  }

  lemma StartKeepsFifo(s: State, k: nat)
    requires Inv(s) && Enabled(s, Start(k))
    ensures Fifo(Next(s, Start(k)))
  {
    var t := Next(s, Start(k));
    forall i, j | i < j && SameLane(t, i, j) && !t.tasks[j].status.Queued?
      ensures Done(t, i)
    {
      assert SameLane(s, i, j);
      if j == k {
        StartFindsDone(s, i, j);
      }
    }
  }

  /** The same tasks as far as lanes, links and the map can tell. */
  ghost predicate SameLinks(s: State, t: State) {
    && |t.tasks| == |s.tasks|
    && forall i :: 0 <= i < |s.tasks| ==> t.tasks[i].lane == s.tasks[i].lane && t.tasks[i].prior == s.tasks[i].prior
  }

  lemma LinksKept(s: State, t: State)
    requires Chained(s) && SameLinks(s, t) && forall i :: Done(s, i) ==> Done(t, i)
    ensures Chained(t)
  {
    forall j | 0 <= j < |t.tasks|
      ensures Linked(t, j)
    {
      assert Linked(s, j);
      assert forall i :: SameLane(t, i, j) == SameLane(s, i, j);
    }
  }

  lemma StatusKeepsRest(s: State, k: nat, status: Status)
    requires Inv(s) && k < |s.tasks| && !Done(s, k) && !status.Cleaned?
    ensures var t := WithStatus(s, k, status); Chained(t) && PointsAtTail(t) && AbsentMeansDone(t)
  {
    var t := WithStatus(s, k, status);
    assert forall i :: Done(t, i) == Done(s, i);
    LinksKept(s, t);
    forall lane | lane in t.chains
      ensures Tail(t, lane, t.chains[lane])
    {
      assert Tail(s, lane, s.chains[lane]);
    }
  }

  lemma SettleKeepsFifo(s: State, k: nat, outcome: Outcome)
    requires Inv(s) && Enabled(s, Settle(k, outcome))
    ensures Fifo(Next(s, Settle(k, outcome)))
  {
    var t := Next(s, Settle(k, outcome));
    forall i, j | i < j && SameLane(t, i, j) && !t.tasks[j].status.Queued?
      ensures Done(t, i)
    {
      assert SameLane(s, i, j) && Done(s, i);
    }
  }

  lemma CleanupKeepsFifo(s: State, k: nat)
    requires Inv(s) && Enabled(s, Cleanup(k))
    ensures Fifo(Next(s, Cleanup(k))) && Chained(Next(s, Cleanup(k)))
  {
    var t := Next(s, Cleanup(k));
    assert forall i :: Done(t, i) == (Done(s, i) || i == k);
    LinksKept(s, t);
    forall i, j | i < j && SameLane(t, i, j) && !t.tasks[j].status.Queued?
      ensures Done(t, i)
    {
      assert SameLane(s, i, j) && Done(s, i);
    }
  }

  lemma CleanupKeepsMap(s: State, k: nat)
    requires Inv(s) && Enabled(s, Cleanup(k))
    ensures PointsAtTail(Next(s, Cleanup(k))) && AbsentMeansDone(Next(s, Cleanup(k)))
  {
    var t := Next(s, Cleanup(k));
    assert forall i :: Done(t, i) == (Done(s, i) || i == k);
    forall lane | lane in t.chains
      ensures Tail(t, lane, t.chains[lane])
    {
      assert Tail(s, lane, s.chains[lane]);
    }
    forall i | 0 <= i < |t.tasks| && t.tasks[i].lane !in t.chains
      ensures Done(t, i)
    {
      var lane := s.tasks[i].lane;
      if lane in s.chains && i != k {
        assert Tail(s, lane, s.chains[lane]);
        assert SameLane(s, i, k);
      }
    }
  }

  lemma StepKeepsInv(s: State, ev: Event)
    requires Inv(s) && Enabled(s, ev)
    ensures Inv(Next(s, ev))
  {
    match ev
    case Call(lane) =>
      CallKeepsInv(s, lane);
    case Start(i) =>
      StartKeepsFifo(s, i);
      StatusKeepsRest(s, i, Running);
    case Settle(i, outcome) =>
      SettleKeepsFifo(s, i, outcome);
      StatusKeepsRest(s, i, Settled(outcome));
    case Cleanup(i) =>
      CleanupKeepsFifo(s, i);
      CleanupKeepsMap(s, i);
  }

  // ------------------------------------------------------------------------------- runs

  /** Every step of the run is enabled where it is taken. */
  ghost predicate IsRun(evs: seq<Event>)
    decreases |evs|, 0
  {
    evs == [] || (IsRun(evs[..|evs| - 1]) && Enabled(End(evs[..|evs| - 1]), evs[|evs| - 1]))
  }

  ghost function End(evs: seq<Event>): State
    requires IsRun(evs)
    decreases |evs|, 1
  {
    if evs == [] then Idle else Next(End(evs[..|evs| - 1]), evs[|evs| - 1])
  }

  lemma {:induction false} RunKeepsInv(evs: seq<Event>)
    requires IsRun(evs)
    ensures Inv(End(evs))
  {
    if evs != [] {
      RunKeepsInv(evs[..|evs| - 1]);
      StepKeepsInv(End(evs[..|evs| - 1]), evs[|evs| - 1]);
    }
  }

  /** On one lane, of any two tasks the later leaves the queue only when the earlier is
    * done, so they start in call order and never overlap. */
  lemma LaneIsFifo(evs: seq<Event>, i: nat, j: nat)
    requires IsRun(evs) && i < j && SameLane(End(evs), i, j)
    ensures !End(evs).tasks[j].status.Queued? ==> End(evs).tasks[i].status.Cleaned?
    ensures Enabled(End(evs), Start(j)) ==> End(evs).tasks[i].status.Cleaned?
  {
    RunKeepsInv(evs);
    if Enabled(End(evs), Start(j)) {
      StartFindsDone(End(evs), i, j);
    }
  }

  /** A lane is absent from the map exactly when nothing on it is unsettled; the map is
    * empty exactly when everything has finished. */
  lemma MapIsExact(evs: seq<Event>)
    requires IsRun(evs)
    ensures forall lane :: lane !in End(evs).chains <==>
      forall i :: 0 <= i < |End(evs).tasks| && End(evs).tasks[i].lane == lane ==> Done(End(evs), i)
    ensures End(evs).chains == map[] <==> forall i :: 0 <= i < |End(evs).tasks| ==> Done(End(evs), i)
  {
    RunKeepsInv(evs);
    var s := End(evs);
    forall lane
      ensures lane !in s.chains <==> forall i :: 0 <= i < |s.tasks| && s.tasks[i].lane == lane ==> Done(s, i)
    {
      if lane in s.chains {
        assert Tail(s, lane, s.chains[lane]);
        assert s.tasks[s.chains[lane]].lane == lane && !Done(s, s.chains[lane]);
      }
    }
    if s.chains != map[] {
      var lane := Member(s.chains.Keys);
      assert Tail(s, lane, s.chains[lane]);
      assert !Done(s, s.chains[lane]);
    }
  }

  /** No lane ever stalls: its first unfinished task can always take its next step,
    * whatever the tasks before it came to. */
  lemma LaneNeverStalls(evs: seq<Event>, i: nat)
    requires IsRun(evs) && i < |End(evs).tasks| && !Done(End(evs), i)
    requires forall j :: j < i && SameLane(End(evs), j, i) ==> Done(End(evs), j)
    ensures var s := End(evs);
      match s.tasks[i].status
      case Queued => Enabled(s, Start(i))
      case Running => forall o :: Enabled(s, Settle(i, o))
      case _ => Enabled(s, Cleanup(i))
  {
    RunKeepsInv(evs);
    assert Linked(End(evs), i);
  }

  // ------------------------------------------------------------------ failure isolation

  /** Equal but for how tasks came out. */
  ghost predicate SameShape(a: Status, b: Status) {
    || (a.Queued? && b.Queued?)
    || (a.Running? && b.Running?)
    || (a.Settled? && b.Settled?)
    || (a.Cleaned? && b.Cleaned?)
  }

  ghost predicate SameButOutcomes(s: State, t: State) {
    && s.chains == t.chains && |s.tasks| == |t.tasks|
    && forall i :: 0 <= i < |s.tasks| ==>
         && s.tasks[i].lane == t.tasks[i].lane && s.tasks[i].prior == t.tasks[i].prior
         && SameShape(s.tasks[i].status, t.tasks[i].status)
  }

  ghost predicate SameEvent(a: Event, b: Event) {
    if a.Settle? then b.Settle? && a.task == b.task else a == b
  }

  lemma SameStep(s: State, t: State, a: Event, b: Event)
    requires SameButOutcomes(s, t) && SameEvent(a, b)
    ensures Enabled(s, a) <==> Enabled(t, b)
    ensures Enabled(s, a) ==> SameButOutcomes(Next(s, a), Next(t, b))
  {
    if a.Start? && a.task < |s.tasks| && s.tasks[a.task].prior.Some? && s.tasks[a.task].prior.value < |s.tasks| {
      var p := s.tasks[a.task].prior.value;
      assert SameShape(s.tasks[p].status, t.tasks[p].status);
    }
  }

  /** Failures never block or change what follows: replace any outcomes by any others, and
    * the same run is possible and leaves every lane as it was. */
  lemma {:induction false} FailureIsolation(evs: seq<Event>, other: seq<Event>)
    requires IsRun(evs) && |other| == |evs| && forall k :: 0 <= k < |evs| ==> SameEvent(evs[k], other[k])
    ensures IsRun(other) && SameButOutcomes(End(evs), End(other))
  {
    if evs != [] {
      var n := |evs| - 1;
      FailureIsolation(evs[..n], other[..n]);
      SameStep(End(evs[..n]), End(other[..n]), evs[n], other[n]);
    }
  }

  predicate CameOut(status: Status, outcome: Outcome) {
    (status.Settled? || status.Cleaned?) && status.outcome == outcome
  }

  /** A task's result is what its own work came to, for good. */
  lemma {:induction false} ResultIsOwn(evs: seq<Event>, k: nat)
    requires IsRun(evs) && k < |evs| && evs[k].Settle?
    ensures evs[k].task < |End(evs).tasks| && CameOut(End(evs).tasks[evs[k].task].status, evs[k].outcome)
  {
    var n := |evs| - 1;
    if k < n {
      ResultIsOwn(evs[..n], k);
    }
  }

  /** Thread ids 1 and 0, and no thread, share the chat's root lane, and the General
    * topic's id is not passed down; any other thread has its own lane. */
  lemma RootLaneShared(a: ApiCall, b: ApiCall)
    ensures a.chat.Some? && a.thread in {None, Some(0), Some(1)} ==> Wrapped(a).0 == Chat(a.chat.value, None)
    ensures Wrapped(a).0 == Wrapped(b).0 <==>
      a.chat == b.chat && (a.chat.None? || a.thread == b.thread || {a.thread, b.thread} <= {None, Some(0), Some(1)})
    ensures a.chat.Some? ==> Wrapped(a).1.thread == if a.thread == Some(1) then None else a.thread
  {
  }
}
