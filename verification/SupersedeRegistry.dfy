/** The registry of flushed turns: one record per turn within a chat/thread lane, swept
  * when a new one is recorded, closed when the real turn end is seen, consumed by the
  * reply that supersedes it. */
module SupersedeRegistry {
  import opened Common
  import opened SupersedeDecision

  // ------------------------------------------------------------------- keys

  function Digit(d: nat): char
    requires d < 10
  {
    "0123456789"[d]
  }

  function DecimalNat(n: nat): string {
    if n < 10 then [Digit(n)] else DecimalNat(n / 10) + [Digit(n % 10)]
  }

  function Decimal(n: int): string {
    if n >= 0 then DecimalNat(n) else "-" + DecimalNat(-n)
  }

  /** The lane of a chat and an optional thread. */
  function LaneKey(chat: string, thread: Option<int>): string {
    if thread.None? then chat else chat + "|" + Decimal(thread.value)
  }

  const NULL_TURN_KEY := "<<null-turn>>"

  function TurnKey(turnId: Option<string>): string {
    if turnId.None? then NULL_TURN_KEY else turnId.value
  }

  type Key = (string, string)

  /** The registry's contents: at most one flush per lane and turn key. */
  type Table = map<Key, Flush>

  function Lookup(t: Table, key: Key): Option<Flush> {
    if key in t then Some(t[key]) else None
  }

  // -------------------------------------------------------------- operations

  datatype Event =
    | Record(chat: string, thread: Option<int>, turnId: Option<string>, messageIds: seq<int>, text: string,
             completedAt: Option<int>, at: int)
    | CompleteAll(at: int)
    | Peek(chat: string, thread: Option<int>, reply: Reply)
    | Take(chat: string, thread: Option<int>, reply: Reply)
    | Forget(chat: string, thread: Option<int>)

  function Swept(t: Table, lim: Limits, now: int): Table {
    map key | key in t && !Lapsed(t[key], lim, now) :: t[key]
  }

  function Completed(t: Table, now: int): Table {
    map key | key in t :: if t[key].completedAt.None? then t[key].(completedAt := Some(now)) else t[key]
  }

  function KeyOf(chat: string, thread: Option<int>, turnId: Option<string>): Key {
    (LaneKey(chat, thread), TurnKey(turnId))
  }

  function DecisionFor(t: Table, lim: Limits, chat: string, thread: Option<int>, reply: Reply): Decision {
    Decide(Lookup(t, KeyOf(chat, thread, reply.liveTurnId)), lim, reply)
  }

  function FlushOf(ev: Event): Flush
    requires ev.Record?
  {
    Flush(ev.turnId, ev.messageIds, ev.text, ev.at, ev.completedAt)
  }

  /** The table after an event; `sweeping` says whether recording sweeps first. */
  function After(t: Table, lim: Limits, sweeping: bool, ev: Event): Table {
    match ev
    case Record(chat, thread, turnId, ids, _, _, at) =>
      if ids == [] then t
      else (if sweeping then Swept(t, lim, at) else t)[KeyOf(chat, thread, turnId) := FlushOf(ev)]
    case CompleteAll(at) => Completed(t, at)
    case Peek(_, _, _) => t
    case Take(chat, thread, reply) =>
      if DecisionFor(t, lim, chat, thread, reply).supersede then t - {KeyOf(chat, thread, reply.liveTurnId)} else t
    case Forget(chat, thread) => map key | key in t && key.0 != LaneKey(chat, thread) :: t[key]
  }

  function AfterAll(lim: Limits, sweeping: bool, evs: seq<Event>): Table {
    if evs == [] then map[]
    else After(AfterAll(lim, sweeping, evs[..|evs| - 1]), lim, sweeping, evs[|evs| - 1])
  }

  // ---------------------------------------------------------- lanes are distinct

  function ParseNat(s: string): int {
    if s == [] then 0 else 10 * ParseNat(s[..|s| - 1]) + (s[|s| - 1] as int - '0' as int)
  }

  lemma {:induction false} DecimalParses(n: nat)
    ensures ParseNat(DecimalNat(n)) == n
    ensures |DecimalNat(n)| > 0 && '-' !in DecimalNat(n) && '|' !in DecimalNat(n)
  {
    var d := DecimalNat(n);
    if n < 10 {
      assert d[..0] == [];
    } else {
      DecimalParses(n / 10);
      assert d[..|d| - 1] == DecimalNat(n / 10);
    }
  }

  lemma DecimalInjective(a: int, b: int)
    requires Decimal(a) == Decimal(b)
    ensures a == b
  {
    if a >= 0 {
      DecimalParses(a);
    } else {
      DecimalParses(-a);
      assert Decimal(a)[1..] == DecimalNat(-a) && Decimal(a)[0] == '-';
    }
    if b >= 0 {
      DecimalParses(b);
    } else {
      DecimalParses(-b);
      assert Decimal(b)[1..] == DecimalNat(-b) && Decimal(b)[0] == '-';
    }
  }

  lemma {:induction false} FirstBar(c1: string, r1: string, c2: string, r2: string)
    requires '|' !in c1 && '|' !in c2 && c1 + (['|'] + r1) == c2 + (['|'] + r2)
    ensures c1 == c2 && r1 == r2
  {
    var k := c1 + (['|'] + r1);
    assert k[|c1|] == '|' && k[|c2|] == '|';
    assert |c1| == |c2|;
    assert k[..|c1|] == c1 && k[..|c2|] == c2;
    assert k[|c1| + 1..] == r1 && k[|c2| + 1..] == r2;
  }

  /** Chat ids without `|` and thread ids determine the lane uniquely. */
  lemma LaneInjective(c1: string, t1: Option<int>, c2: string, t2: Option<int>)
    requires '|' !in c1 && '|' !in c2 && LaneKey(c1, t1) == LaneKey(c2, t2)
    ensures c1 == c2 && t1 == t2
  {
    if t1.Some? {
      LaneOfThread(c1, t1.value);
    }
    if t2.Some? {
      LaneOfThread(c2, t2.value);
    }
    if t1.Some? && t2.Some? {
      FirstBar(c1, Decimal(t1.value), c2, Decimal(t2.value));
      DecimalInjective(t1.value, t2.value);
    }
  }

  lemma LaneOfThread(c: string, t: int)
    ensures LaneKey(c, Some(t)) == c + (['|'] + Decimal(t)) && '|' in LaneKey(c, Some(t))
  {
    assert LaneKey(c, Some(t))[|c|] == '|';
  }

  // ------------------------------------------------------------- attribution

  /** A flush of the same chat, thread and turn as event `ev`. */
  predicate SameTurn(ev: Event, chat: string, thread: Option<int>, turnId: Option<string>) {
    ev.Record? && ev.messageIds != [] && ev.chat == chat && ev.thread == thread && ev.turnId == turnId
  }

  /** When the flush recorded by `evs[j]` was completed: at birth, or by the first
    * completion signal after it. */
  function CompletionOf(evs: seq<Event>, j: nat): Option<int>
    requires j < |evs| && evs[j].Record?
  {
    if evs[j].completedAt.Some? then evs[j].completedAt
    else
      var n := |evs| - 1;
      if j == n then None
      else
        var earlier := CompletionOf(evs[..n], j);
        if earlier.None? && evs[n].CompleteAll? then Some(evs[n].at) else earlier
  }

  /** The record under `key` is the flush of event `j`, no later flush of its turn exists,
    * and it was neither handed out nor forgotten since. */
  ghost predicate Stems(lim: Limits, evs: seq<Event>, key: Key, r: Flush, j: nat) {
    && j < |evs| && evs[j].Record? && evs[j].messageIds != []
    && key == KeyOf(evs[j].chat, evs[j].thread, evs[j].turnId)
    && r == FlushOf(evs[j]).(completedAt := CompletionOf(evs, j))
    && (forall i :: j < i < |evs| ==> !Displaces(lim, evs, i, key))
  }

  /** Event `i` takes whatever stood under `key` out of the registry. */
  ghost predicate Displaces(lim: Limits, evs: seq<Event>, i: nat, key: Key)
    requires i < |evs|
  {
    match evs[i]
    case Record(chat, thread, turnId, ids, _, _, _) => ids != [] && KeyOf(chat, thread, turnId) == key
    case Take(chat, thread, reply) =>
      KeyOf(chat, thread, reply.liveTurnId) == key
      && DecisionFor(AfterAll(lim, true, evs[..i]), lim, chat, thread, reply).supersede
    case Forget(chat, thread) => key.0 == LaneKey(chat, thread)
    case _ => false
  }

  lemma StemsStep(lim: Limits, evs: seq<Event>, key: Key, r: Flush, j: nat)
    requires evs != [] && Stems(lim, evs[..|evs| - 1], key, r, j) && !Displaces(lim, evs, |evs| - 1, key)
    ensures var last := evs[|evs| - 1];
      var r' := if last.CompleteAll? && r.completedAt.None? then r.(completedAt := Some(last.at)) else r;
      Stems(lim, evs, key, r', j)
  {
    var n := |evs| - 1;
    forall i | j < i < |evs|
      ensures !Displaces(lim, evs, i, key)
    {
      if i < n {
        assert evs[..n][..i] == evs[..i];
        assert !Displaces(lim, evs[..n], i, key);
      }
    }
  }

  /** Every record in the registry stems from the latest flush of its turn. */
  lemma {:induction false} RecordsStem(lim: Limits, evs: seq<Event>, key: Key) returns (j: nat)
    requires key in AfterAll(lim, true, evs)
    ensures Stems(lim, evs, key, AfterAll(lim, true, evs)[key], j)
  {
    var n := |evs| - 1;
    var t := AfterAll(lim, true, evs[..n]);
    if Displaces(lim, evs, n, key) {
      j := n;
    } else {
      assert key in t;
      j := RecordsStem(lim, evs[..n], key);
      StemsStep(lim, evs, key, t[key], j);
    }
  }

  ghost predicate PlainChats(evs: seq<Event>) {
    forall i :: 0 <= i < |evs| && !evs[i].CompleteAll? ==> '|' !in evs[i].chat
  }

  /** A superseding take hands out exactly the ids of the latest flush recorded for its
    * own chat, thread and turn, inside that flush's open or completed window, and not
    * consumed or forgotten in between. */
  lemma TakeIsAttributed(lim: Limits, evs: seq<Event>, take: Event) returns (j: nat)
    requires PlainChats(evs) && take.Take? && '|' !in take.chat
    requires DecisionFor(AfterAll(lim, true, evs), lim, take.chat, take.thread, take.reply).supersede
    ensures j < |evs| && SameTurn(evs[j], take.chat, take.thread, take.reply.liveTurnId)
    ensures DecisionFor(AfterAll(lim, true, evs), lim, take.chat, take.thread, take.reply).deleteMessageIds
         == evs[j].messageIds
    ensures forall i :: j < i < |evs| ==> !SameTurn(evs[i], take.chat, take.thread, take.reply.liveTurnId)
    ensures forall i :: j < i < |evs| ==> !Displaces(lim, evs, i, KeyOf(take.chat, take.thread, take.reply.liveTurnId))
    ensures match CompletionOf(evs, j)
            case None => take.reply.now - evs[j].at <= lim.openCapMs
            case Some(at) => take.reply.now - at <= lim.completedGraceMs
  {
    var key := KeyOf(take.chat, take.thread, take.reply.liveTurnId);
    j := RecordsStem(lim, evs, key);
    LaneInjective(evs[j].chat, evs[j].thread, take.chat, take.thread);
    forall i | j < i < |evs|
      ensures !SameTurn(evs[i], take.chat, take.thread, take.reply.liveTurnId)
    {
      assert !Displaces(lim, evs, i, key);
    }
  }

  /** What flush `j` has become by event `i`. */
  ghost function FlushBy(evs: seq<Event>, j: nat, i: nat): Flush
    requires j < i <= |evs| && evs[j].Record?
  {
    FlushOf(evs[j]).(completedAt := CompletionOf(evs[..i], j))
  }

  /** Nothing took flush `j` out of the registry: no later flush of its turn, no superseding
    * reply, no lane forgotten, and no recording found it past its window. */
  ghost predicate Undisturbed(lim: Limits, evs: seq<Event>, j: nat)
    requires j < |evs| && evs[j].Record?
  {
    forall i :: j < i < |evs| ==>
      && !Displaces(lim, evs, i, KeyOf(evs[j].chat, evs[j].thread, evs[j].turnId))
      && (evs[i].Record? && evs[i].messageIds != [] ==> !Lapsed(FlushBy(evs, j, i), lim, evs[i].at))
  }

  lemma {:induction false} FlushStays(lim: Limits, evs: seq<Event>, j: nat)
    requires j < |evs| && evs[j].Record? && evs[j].messageIds != [] && Undisturbed(lim, evs, j)
    ensures Lookup(AfterAll(lim, true, evs), KeyOf(evs[j].chat, evs[j].thread, evs[j].turnId))
         == Some(FlushBy(evs, j, |evs|))
  {
    var n := |evs| - 1;
    assert evs[..|evs|] == evs;
    if j < n {
      assert Undisturbed(lim, evs[..n], j) by {
        forall i | j < i < n
          ensures !Displaces(lim, evs[..n], i, KeyOf(evs[j].chat, evs[j].thread, evs[j].turnId))
          ensures evs[i].Record? && evs[i].messageIds != [] ==> !Lapsed(FlushBy(evs[..n], j, i), lim, evs[i].at)
        {
          assert evs[..n][..i] == evs[..i];
          assert !Displaces(lim, evs, i, KeyOf(evs[j].chat, evs[j].thread, evs[j].turnId));
        }
      }
      FlushStays(lim, evs[..n], j);
      assert evs[..n][..n] == evs[..n];
      assert !Displaces(lim, evs, n, KeyOf(evs[j].chat, evs[j].thread, evs[j].turnId));
    }
  }

  /** The converse: a reply of the turn is decided on its latest flush, as long as nothing
    * took that out of the registry. */
  lemma TakeFindsFlush(lim: Limits, evs: seq<Event>, j: nat, take: Event)
    requires take.Take? && j < |evs| && SameTurn(evs[j], take.chat, take.thread, take.reply.liveTurnId)
    requires Undisturbed(lim, evs, j)
    ensures DecisionFor(AfterAll(lim, true, evs), lim, take.chat, take.thread, take.reply)
         == Decide(Some(FlushOf(evs[j]).(completedAt := CompletionOf(evs, j))), lim, take.reply)
  {
    assert evs[..|evs|] == evs;
    FlushStays(lim, evs, j);
  }

  predicate Timed(ev: Event) {
    ev.Record? || ev.CompleteAll?
  }

  /** Recordings and completion signals come in time order, none after `now`. */
  ghost predicate InOrder(evs: seq<Event>, now: int) {
    forall i, k :: 0 <= i < k < |evs| && Timed(evs[i]) && Timed(evs[k]) ==> evs[i].at <= evs[k].at <= now
  }

  lemma {:induction false} CompletionComes(evs: seq<Event>, j: nat, i: nat)
    requires j < i <= |evs| && evs[j].Record?
    ensures var early, all := CompletionOf(evs[..i], j), CompletionOf(evs, j);
      if early.Some? then all == early
      else all.Some? ==> exists k :: i <= k < |evs| && evs[k] == CompleteAll(all.value)
    decreases |evs|
  {
    var n := |evs| - 1;
    if i <= n {
      assert evs[..n][..i] == evs[..i];
      CompletionComes(evs[..n], j, i);
      var early, before := CompletionOf(evs[..i], j), CompletionOf(evs[..n], j);
      if early.None? && before.Some? {
        var k :| i <= k < n && evs[..n][k] == CompleteAll(before.value);
        assert evs[k] == CompleteAll(before.value);
      }
    } else {
      assert evs[..i] == evs;
    }
  }

  /** On an ordered clock a reply known to be the turn's own supersedes its latest flush, if
    * that was not displaced, either while the flush is open and no older than the cap, or
    * within the grace after a completion that came before the cap. */
  lemma OwnReplySupersedes(lim: Limits, evs: seq<Event>, j: nat, take: Event)
    requires take.Take? && j < |evs| && SameTurn(evs[j], take.chat, take.thread, take.reply.liveTurnId)
    requires InOrder(evs, take.reply.now) && take.reply.positiveAttribution
    requires forall i :: j < i < |evs| ==>
      !Displaces(lim, evs, i, KeyOf(take.chat, take.thread, take.reply.liveTurnId))
    requires match CompletionOf(evs, j)
             case None => take.reply.now - evs[j].at <= lim.openCapMs
             case Some(at) =>
               take.reply.now - at <= lim.completedGraceMs
               && (evs[j].completedAt.Some? || at - evs[j].at <= lim.openCapMs)
    ensures DecisionFor(AfterAll(lim, true, evs), lim, take.chat, take.thread, take.reply)
         == Decision(true, evs[j].messageIds, Superseded)
  {
    forall i | j < i < |evs| && evs[i].Record?
      ensures !Lapsed(FlushBy(evs, j, i), lim, evs[i].at)
    {
      CompletionComes(evs, j, i);
      assert Timed(evs[i]) && Timed(evs[j]);
      var early, all := CompletionOf(evs[..i], j), CompletionOf(evs, j);
      if early.None? && all.Some? {
        var k :| i <= k < |evs| && evs[k] == CompleteAll(all.value);
        assert Timed(evs[k]);
      }
    }
    TakeFindsFlush(lim, evs, j, take);
  }

  ghost predicate Superseding(lim: Limits, evs: seq<Event>, i: nat)
    requires i < |evs|
  {
    evs[i].Take? && DecisionFor(AfterAll(lim, true, evs[..i]), lim, evs[i].chat, evs[i].thread, evs[i].reply).supersede
  }

  /** The flush a superseding take at `i` hands out. */
  ghost predicate HandsOut(lim: Limits, evs: seq<Event>, i: nat, j: nat)
    requires i < |evs|
  {
    && Superseding(lim, evs, i)
    && Stems(lim, evs[..i], KeyOf(evs[i].chat, evs[i].thread, evs[i].reply.liveTurnId),
             AfterAll(lim, true, evs[..i])[KeyOf(evs[i].chat, evs[i].thread, evs[i].reply.liveTurnId)], j)
  }

  /** No recorded flush is handed out twice. */
  lemma HandedOutOnce(lim: Limits, evs: seq<Event>, a: nat, b: nat, j: nat)
    requires a < b < |evs| && HandsOut(lim, evs, a, j)
    ensures !HandsOut(lim, evs, b, j)
  {
    var key := KeyOf(evs[a].chat, evs[a].thread, evs[a].reply.liveTurnId);
    assert evs[..b][..a] == evs[..a];
    assert evs[..a][j] == evs[..b][j];
    assert Displaces(lim, evs[..b], a, key);
  }

  /** A take changes no decision on another chat, thread or turn: same flag, same ids. Only
    * the stated reason may differ, for a turn named like the sentinel of unnamed turns. */
  lemma OthersUndisturbed(t: Table, lim: Limits, take: Event, chat: string, thread: Option<int>, reply: Reply)
    requires take.Take? && '|' !in take.chat && '|' !in chat
    requires chat != take.chat || thread != take.thread || reply.liveTurnId != take.reply.liveTurnId
    ensures var before := DecisionFor(t, lim, chat, thread, reply);
      var after := DecisionFor(After(t, lim, true, take), lim, chat, thread, reply);
      before.supersede == after.supersede && before.deleteMessageIds == after.deleteMessageIds
  {
    if KeyOf(take.chat, take.thread, take.reply.liveTurnId) == KeyOf(chat, thread, reply.liveTurnId) {
      LaneInjective(take.chat, take.thread, chat, thread);
    }
  }

  // ------------------------------------------------------ sweeping is invisible

  /** `kept` is `full` without some records that have lapsed at `now`. */
  ghost predicate SweptFrom(kept: Table, full: Table, lim: Limits, now: int) {
    && (forall key :: key in kept ==> key in full && full[key] == kept[key])
    && (forall key :: key in full && key !in kept ==> Lapsed(full[key], lim, now))
  }

  function TimeOf(ev: Event, last: int): int {
    match ev
    case Record(_, _, _, _, _, _, at) => at
    case CompleteAll(at) => at
    case Peek(_, _, reply) => reply.now
    case Take(_, _, reply) => reply.now
    case Forget(_, _) => last
  }

  /** A completion signal meets no open record that is already past its cap. */
  predicate NoRevival(full: Table, lim: Limits, ev: Event) {
    ev.CompleteAll? ==>
      forall key :: key in full && full[key].completedAt.None? ==> ev.at - full[key].ts <= lim.openCapMs
  }

  lemma SameVerdict(kept: Table, full: Table, lim: Limits, now: int, chat: string, thread: Option<int>, reply: Reply)
    requires SweptFrom(kept, full, lim, now) && now <= reply.now
    ensures DecisionFor(kept, lim, chat, thread, reply).supersede
         == DecisionFor(full, lim, chat, thread, reply).supersede
    ensures DecisionFor(kept, lim, chat, thread, reply).deleteMessageIds
         == DecisionFor(full, lim, chat, thread, reply).deleteMessageIds
  {
  }

  lemma StepKeepsSwept(kept: Table, full: Table, lim: Limits, now: int, ev: Event)
    requires SweptFrom(kept, full, lim, now) && now <= TimeOf(ev, now) && NoRevival(full, lim, ev)
    ensures SweptFrom(After(kept, lim, true, ev), After(full, lim, false, ev), lim, TimeOf(ev, now))
  {
    if ev.Take? {
      SameVerdict(kept, full, lim, now, ev.chat, ev.thread, ev.reply);
    }
  }

  ghost predicate Orderly(lim: Limits, evs: seq<Event>, start: int) {
    evs == [] ||
    var n := |evs| - 1;
    && Orderly(lim, evs[..n], start)
    && LastTime(evs[..n], start) <= TimeOf(evs[n], LastTime(evs[..n], start))
    && NoRevival(AfterAll(lim, false, evs[..n]), lim, evs[n])
  }

  function LastTime(evs: seq<Event>, start: int): int {
    if evs == [] then start else TimeOf(evs[|evs| - 1], LastTime(evs[..|evs| - 1], start))
  }

  /** Over every run in time order in which no completion signal meets an open record past
    * its cap, the swept registry and one that never sweeps agree on every decision. */
  lemma {:induction false} SweepingUnobservable(lim: Limits, evs: seq<Event>, start: int)
    requires Orderly(lim, evs, start)
    ensures SweptFrom(AfterAll(lim, true, evs), AfterAll(lim, false, evs), lim, LastTime(evs, start))
  {
    if evs != [] {
      var n := |evs| - 1;
      SweepingUnobservable(lim, evs[..n], start);
      StepKeepsSwept(AfterAll(lim, true, evs[..n]), AfterAll(lim, false, evs[..n]), lim,
                     LastTime(evs[..n], start), evs[n]);
    }
  }

  lemma SweptDecisions(lim: Limits, evs: seq<Event>, start: int, chat: string, thread: Option<int>, reply: Reply)
    requires Orderly(lim, evs, start) && LastTime(evs, start) <= reply.now
    ensures var swept := DecisionFor(AfterAll(lim, true, evs), lim, chat, thread, reply);
      var full := DecisionFor(AfterAll(lim, false, evs), lim, chat, thread, reply);
      swept.supersede == full.supersede && swept.deleteMessageIds == full.deleteMessageIds
  {
    SweepingUnobservable(lim, evs, start);
    SameVerdict(AfterAll(lim, true, evs), AfterAll(lim, false, evs), lim, LastTime(evs, start), chat, thread, reply);
  }

  /** The condition is exact at the completion signal: afterwards the two registries give
    * the same verdict on every later reply if and only if the signal met no swept record
    * that was still open. */
  lemma RevivalIsVisible(kept: Table, full: Table, lim: Limits, at: int)
    requires SweptFrom(kept, full, lim, at) && lim.completedGraceMs >= 0
    ensures (forall key :: key in full && key !in kept ==> full[key].completedAt.Some?)
       <==> (forall key, args: Reply :: at <= args.now ==>
               Decide(Lookup(Completed(kept, at), key), lim, args).supersede
               == Decide(Lookup(Completed(full, at), key), lim, args).supersede)
  {
    if key :| key in full && key !in kept && full[key].completedAt.None? {
      var args := Reply(full[key].turnId, None, true, at);
      assert Decide(Lookup(Completed(full, at), key), lim, args).supersede;
      assert !Decide(Lookup(Completed(kept, at), key), lim, args).supersede;
    }
  }

  /** A run in which it shows: a flush is left open past its cap, another turn's flush is
    * recorded, which sweeps, and the completion signal comes. The registry that never sweeps
    * then gives the first flush out to its turn's reply; the swept one does not. */
  lemma RevivalRun(lim: Limits, chat: string, a: string, b: string, ids: seq<int>, text: string)
    requires lim.openCapMs >= 0 && lim.completedGraceMs >= 0 && a != b && ids != []
    ensures var late := lim.openCapMs + 1;
      var evs := [Record(chat, None, Some(a), ids, text, None, 0), Record(chat, None, Some(b), ids, text, None, late),
                  CompleteAll(late)];
      var reply := Reply(Some(a), Some(text), true, late);
      && DecisionFor(AfterAll(lim, false, evs), lim, chat, None, reply) == Decision(true, ids, Superseded)
      && !DecisionFor(AfterAll(lim, true, evs), lim, chat, None, reply).supersede
  {
    var late := lim.openCapMs + 1;
    var first := Record(chat, None, Some(a), ids, text, None, 0);
    var second := Record(chat, None, Some(b), ids, text, None, late);
    var evs := [first, second, CompleteAll(late)];
    assert evs[..2] == [first, second] && [first, second][..1] == [first] && [first][..0] == [];
    var ka, kb := KeyOf(chat, None, Some(a)), KeyOf(chat, None, Some(b));
    assert AfterAll(lim, false, [first]) == map[ka := FlushOf(first)] == AfterAll(lim, true, [first]);
    assert AfterAll(lim, true, [first, second]) == map[kb := FlushOf(second)];
    assert AfterAll(lim, false, [first, second]) == map[ka := FlushOf(first), kb := FlushOf(second)];
  }

  // ------------------------------------------------------------- the registry

  type Lanes = map<string, map<string, Flush>>

  /** The nested maps as one table. */
  function Flat(entries: Lanes): Table {
    map lane, turn | lane in entries && turn in entries[lane] :: (lane, turn) := entries[lane][turn]
  }

  ghost predicate NoEmptyLane(entries: Lanes) {
    forall lane :: lane in entries ==> entries[lane] != map[]
  }

  function LiveLane(m: map<string, Flush>, lim: Limits, now: int): map<string, Flush> {
    map turn | turn in m && !Lapsed(m[turn], lim, now) :: m[turn]
  }

  function ClosedLane(m: map<string, Flush>, now: int): map<string, Flush> {
    map turn | turn in m :: if m[turn].completedAt.None? then m[turn].(completedAt := Some(now)) else m[turn]
  }

  class FlushedTurnSupersedeRegistry {
    const lim: Limits
    var entries: Lanes

    ghost function Abs(): Table
      reads this
    {
      Flat(entries)
    }

    ghost predicate Valid()
      reads this
    {
      NoEmptyLane(entries)
    }

    constructor (lim: Limits)
      ensures Valid() && this.lim == lim && Abs() == map[]
    {
      this.lim := lim;
      entries := map[];
    }

    /** Drop the lapsed records of one lane. */
    method SweepLane(m: map<string, Flush>, now: int) returns (kept: map<string, Flush>)
      ensures kept == LiveLane(m, lim, now)
    {
      kept := m;
      var todo := m.Keys;
      while todo != {}
        invariant todo <= m.Keys
        invariant kept == map turn | turn in m && (turn in todo || !Lapsed(m[turn], lim, now)) :: m[turn]
        decreases todo
      {
        ghost var some := Member(todo);
        var turn :| turn in todo;
        if Lapsed(m[turn], lim, now) {
          kept := kept - {turn};
        }
        todo := todo - {turn};
      }
    }

    method Sweep(now: int)
      requires Valid()
      modifies this`entries
      ensures Valid() && Abs() == Swept(old(Abs()), lim, now)
    {
      ghost var was := entries;
      var todo := entries.Keys;
      while todo != {}
        invariant SweptSoFar(was, entries, todo, lim, now)
        decreases todo
      {
        ghost var some := Member(todo);
        var lane :| lane in todo;
        ghost var before := entries;
        var kept := SweepLane(entries[lane], now);
        if kept == map[] {
          entries := entries - {lane};
        } else {
          entries := entries[lane := kept];
        }
        SweepStep(was, before, entries, todo, lane, lim, now);
        todo := todo - {lane};
      }
      SweptFlat(was, entries, lim, now);
    }

    method RecordFlush(chat: string, thread: Option<int>, turnId: Option<string>, messageIds: seq<int>, text: string,
                       completedAt: Option<int>, now: int)
      requires Valid()
      modifies this`entries
      ensures Valid()
      ensures Abs() == After(old(Abs()), lim, true, Record(chat, thread, turnId, messageIds, text, completedAt, now))
    {
      if messageIds == [] {
        return;
      }
      Sweep(now);
      var lane := LaneKey(chat, thread);
      var laneMap := if lane in entries then entries[lane] else map[];
      PutFlat(entries, lane, laneMap, TurnKey(turnId), Flush(turnId, messageIds, text, now, completedAt));
      entries := entries[lane := laneMap[TurnKey(turnId) := Flush(turnId, messageIds, text, now, completedAt)]];
    }

    /** Close the window of every open record. */
    method Complete(now: int)
      requires Valid()
      modifies this`entries
      ensures Valid() && Abs() == After(old(Abs()), lim, true, CompleteAll(now))
    {
      ghost var was := entries;
      var todo := entries.Keys;
      while todo != {}
        invariant todo <= was.Keys && entries.Keys == was.Keys
        invariant forall lane :: lane in was ==>
          entries[lane] == if lane in todo then was[lane] else ClosedLane(was[lane], now)
        decreases todo
      {
        ghost var some := Member(todo);
        var lane :| lane in todo;
        entries := entries[lane := ClosedLane(entries[lane], now)];
        todo := todo - {lane};
      }
      CompletedFlat(was, entries, now);
    }

    method PeekDecision(chat: string, thread: Option<int>, reply: Reply) returns (d: Decision)
      ensures d == DecisionFor(Abs(), lim, chat, thread, reply)
    {
      var lane, turn := LaneKey(chat, thread), TurnKey(reply.liveTurnId);
      FlatGet(entries, (lane, turn));
      if lane in entries && turn in entries[lane] {
        d := Decide(Some(entries[lane][turn]), lim, reply);
      } else {
        d := Decide(None, lim, reply);
      }
    }

    /** Decide, and consume the record that is superseded. */
    method TakeDecision(chat: string, thread: Option<int>, reply: Reply) returns (d: Decision)
      requires Valid()
      modifies this`entries
      ensures Valid() && d == DecisionFor(old(Abs()), lim, chat, thread, reply)
      ensures Abs() == After(old(Abs()), lim, true, Take(chat, thread, reply))
    {
      var lane, turn := LaneKey(chat, thread), TurnKey(reply.liveTurnId);
      d := PeekDecision(chat, thread, reply);
      FlatGet(entries, (lane, turn));
      if d.supersede {
        var laneMap := entries[lane] - {turn};
        DropFlat(entries, lane, turn);
        if laneMap == map[] {
          entries := entries - {lane};
        } else {
          entries := entries[lane := laneMap];
        }
      }
    }

    method ForgetLane(chat: string, thread: Option<int>)
      requires Valid()
      modifies this`entries
      ensures Valid() && Abs() == After(old(Abs()), lim, true, Forget(chat, thread))
    {
      ForgetFlat(entries, LaneKey(chat, thread));
      entries := entries - {LaneKey(chat, thread)};
    }
  }

  function Get(entries: Lanes, key: Key): Option<Flush> {
    if key.0 in entries && key.1 in entries[key.0] then Some(entries[key.0][key.1]) else None
  }

  lemma FlatGet(entries: Lanes, key: Key)
    ensures Lookup(Flat(entries), key) == Get(entries, key)
  {
    if key in Flat(entries) {
      assert (key.0, key.1) == key;
    }
    if Get(entries, key).Some? {
      assert (key.0, key.1) in Flat(entries);
    }
  }

  /** A table that answers every lookup as the nested maps do is their flattening. */
  lemma FlatIs(entries: Lanes, t: Table)
    requires forall key :: Get(entries, key) == Lookup(t, key)
    ensures Flat(entries) == t
  {
    forall key: Key
      ensures Lookup(Flat(entries), key) == Lookup(t, key)
    {
      FlatGet(entries, key);
    }
    SameTable(Flat(entries), t);
  }

  lemma SameTable(a: Table, b: Table)
    requires forall key :: Lookup(a, key) == Lookup(b, key)
    ensures a == b
  {
    assert forall key :: key in a <==> Lookup(a, key).Some?;
    assert forall key :: key in b <==> Lookup(b, key).Some?;
    forall key | key in a
      ensures key in b && a[key] == b[key]
    {
      assert Lookup(a, key) == Lookup(b, key);
    }
  }

  /** The lane holds its live records, or is gone when it has none. */
  ghost predicate LaneSwept(was: Lanes, entries: Lanes, lane: string, lim: Limits, now: int)
    requires lane in was
  {
    var live := LiveLane(was[lane], lim, now);
    if live == map[] then lane !in entries else lane in entries && entries[lane] == live
  }

  /** Every lane outside `todo` is swept, and those in it are untouched. */
  ghost predicate SweptSoFar(was: Lanes, entries: Lanes, todo: set<string>, lim: Limits, now: int) {
    && todo <= was.Keys && entries.Keys <= was.Keys
    && (forall lane :: lane in todo ==> lane in entries && entries[lane] == was[lane])
    && (forall lane :: lane in was && lane !in todo ==> LaneSwept(was, entries, lane, lim, now))
  }

  lemma SweepStep(was: Lanes, before: Lanes, after: Lanes, todo: set<string>, lane: string, lim: Limits, now: int)
    requires SweptSoFar(was, before, todo, lim, now) && lane in todo
    requires var live := LiveLane(was[lane], lim, now);
      after == if live == map[] then before - {lane} else before[lane := live]
    ensures SweptSoFar(was, after, todo - {lane}, lim, now)
  {
    forall l | l in was && l !in todo - {lane}
      ensures LaneSwept(was, after, l, lim, now)
    {
      assert l != lane ==> LaneSwept(was, before, l, lim, now);
    }
  }

  lemma SweptFlat(was: Lanes, entries: Lanes, lim: Limits, now: int)
    requires entries.Keys <= was.Keys
    requires forall lane :: lane in was ==> LaneSwept(was, entries, lane, lim, now)
    ensures Flat(entries) == Swept(Flat(was), lim, now)
  {
    forall key: Key
      ensures Get(entries, key) == Lookup(Swept(Flat(was), lim, now), key)
    {
      FlatGet(was, key);
      if Get(was, key).Some? && !Lapsed(was[key.0][key.1], lim, now) {
        assert key.1 in LiveLane(was[key.0], lim, now);
      }
    }
    FlatIs(entries, Swept(Flat(was), lim, now));
  }

  lemma CompletedFlat(was: Lanes, entries: Lanes, now: int)
    requires entries.Keys == was.Keys && forall lane :: lane in was ==> entries[lane] == ClosedLane(was[lane], now)
    ensures Flat(entries) == Completed(Flat(was), now)
    ensures NoEmptyLane(was) ==> NoEmptyLane(entries)
  {
    forall key: Key
      ensures Get(entries, key) == Lookup(Completed(Flat(was), now), key)
    {
      FlatGet(was, key);
    }
    FlatIs(entries, Completed(Flat(was), now));
    forall lane | lane in was && was[lane] != map[]
      ensures entries[lane] != map[]
    {
      var turn := Member(was[lane].Keys);
      assert turn in entries[lane];
    }
  }

  lemma PutFlat(entries: Lanes, lane: string, laneMap: map<string, Flush>, turn: string, f: Flush)
    requires laneMap == if lane in entries then entries[lane] else map[]
    ensures Flat(entries[lane := laneMap[turn := f]]) == Flat(entries)[(lane, turn) := f]
    ensures laneMap[turn := f] != map[]
  {
    assert turn in laneMap[turn := f];
    var updated := entries[lane := laneMap[turn := f]];
    var table := Flat(entries)[(lane, turn) := f];
    forall key: Key
      ensures Get(updated, key) == Lookup(table, key)
    {
      FlatGet(entries, key);
      assert key == (lane, turn) <==> key.0 == lane && key.1 == turn;
    }
    FlatIs(updated, table);
  }

  lemma DropGet(entries: Lanes, lane: string, turn: string, key: Key)
    requires lane in entries && turn in entries[lane]
    ensures Get(entries[lane := entries[lane] - {turn}], key) == Lookup(Flat(entries) - {(lane, turn)}, key)
    ensures entries[lane] - {turn} == map[] ==>
      Get(entries - {lane}, key) == Lookup(Flat(entries) - {(lane, turn)}, key)
  {
    FlatGet(entries, key);
    assert key == (lane, turn) <==> key.0 == lane && key.1 == turn;
    assert key.1 in entries[lane] - {turn} <==> key.1 in entries[lane] && key.1 != turn;
  }

  lemma DropFlat(entries: Lanes, lane: string, turn: string)
    requires lane in entries && turn in entries[lane]
    ensures Flat(entries[lane := entries[lane] - {turn}]) == Flat(entries) - {(lane, turn)}
    ensures entries[lane] - {turn} == map[] ==> Flat(entries - {lane}) == Flat(entries) - {(lane, turn)}
  {
    var rest := entries[lane] - {turn};
    var without := Flat(entries) - {(lane, turn)};
    forall key: Key
      ensures Get(entries[lane := rest], key) == Lookup(without, key)
    {
      DropGet(entries, lane, turn, key);
    }
    FlatIs(entries[lane := rest], without);
    if rest == map[] {
      forall key: Key
        ensures Get(entries - {lane}, key) == Lookup(without, key)
      {
        DropGet(entries, lane, turn, key);
      }
      FlatIs(entries - {lane}, without);
    }
  }

  lemma ForgetFlat(entries: Lanes, lane: string)
    ensures Flat(entries - {lane}) == map key | key in Flat(entries) && key.0 != lane :: Flat(entries)[key]
  {
    var rest := map key | key in Flat(entries) && key.0 != lane :: Flat(entries)[key];
    forall key: Key
      ensures Get(entries - {lane}, key) == Lookup(rest, key)
    {
      FlatGet(entries, key);
    }
    FlatIs(entries - {lane}, rest);
  }
}
