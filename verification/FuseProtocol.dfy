/** The edit-flood fuse as a step relation over concurrent calls. Every `await` of the
  * source is a step boundary: a call crosses its tiers one attempt at a time, any other
  * call may run in between, and the clock may advance between any two steps. The
  * tighten level is an input of each attempt, so every bound below holds whatever the
  * history of 429s. */
module FuseProtocol {
  import opened FuseCeilings
  import opened FuseLog

  datatype Kind =
    | Edit(chat: int, msg: int)
    | Send(chat: int)
    | ChatAction(chat: int)
    | OtherCall(chat: int)
    | Chatless

  datatype Stage = MessageTier | ChatTier | SendTier | TotalTier | TokenTier | Passed | Dropped

  /** Whether a call can run, is in `clock.sleep`, was superseded while asleep, or was
    * denied by its tier. After the last two the wait loop has returned and `apply` has not
    * resumed yet: the call still holds its slots and still counts as in flight. */
  datatype Rest = Runnable | Asleep(until: int) | Killed | Denied

  /** One `apply` call. `naps` counts how often it has slept; `counted` says that it is in
    * its message's in-flight count, from its arrival until `apply` resumes after a drop or
    * has made its first pass at the token tier. */
  datatype Call = Call(kind: Kind, cls: OutboundClass, arrived: int, stage: Stage, rest: Rest, naps: nat, counted: bool)

  /** `waiter` maps a message to the newest call waiting at its message tier. */
  datatype State = State(
    now: int, log: seq<Reservation>, calls: map<nat, Call>, waiter: map<(int, int), nat>)

  predicate Active(c: Call) {
    c.stage != Passed && c.stage != Dropped
  }

  function FirstStage(kind: Kind): Stage {
    match kind
    case Edit(_, _) => MessageTier
    case Send(_) => SendTier
    case ChatAction(_) => TotalTier
    case OtherCall(_) => TotalTier
    case Chatless => TokenTier
  }

  function NextStage(stage: Stage): Stage {
    match stage
    case MessageTier => ChatTier
    case ChatTier => TotalTier
    case SendTier => TotalTier
    case TotalTier => TokenTier
    case _ => Passed
  }

  predicate WellStaged(c: Call) {
    && (c.kind.Edit? ==> c.stage != SendTier)
    && (c.kind.Send? ==> c.stage != MessageTier && c.stage != ChatTier)
    && (c.kind.ChatAction? || c.kind.OtherCall? ==>
          c.stage != MessageTier && c.stage != ChatTier && c.stage != SendTier)
    && (c.kind.Chatless? ==> c.stage in {TokenTier, Passed, Dropped})
    && (c.rest.Killed? ==> c.stage == MessageTier || c.stage == Dropped)
    && (c.rest.Denied? ==> c.stage in {MessageTier, ChatTier, TotalTier, Dropped})
    && (c.counted ==> c.kind.Edit? && c.stage in {MessageTier, ChatTier, TotalTier, TokenTier})
    && (c.kind.Edit? && c.stage in {MessageTier, ChatTier, TotalTier} ==> c.counted)
  }

  // ------------------------------------------------------------ one attempt

  predicate Fair(cfg: Config, c: Call) {
    c.stage == ChatTier && c.cls == Cosmetic && cfg.fairShare
  }

  function TierKey(c: Call): Key
    requires WellStaged(c) && Active(c)
  {
    match c.stage
    case MessageTier => KMessage(c.kind.chat, c.kind.msg)
    case ChatTier => KEdits(c.kind.chat)
    case SendTier => KSends(c.kind.chat)
    case TotalTier => KTotal(c.kind.chat)
    case TokenTier => KToken
  }

  function TierMax(cfg: Config, c: Call, level: nat): nat
    requires cfg.Valid() && Active(c)
  {
    match c.stage
    case MessageTier =>
      if c.cls == Cosmetic then CosmeticMessageCeiling(cfg, level)
      else ClassCeiling(cfg, cfg.perMessageMax, c.cls, level)
    case ChatTier =>
      if c.cls == Cosmetic then Ceiling(cfg, cfg.CosmeticPerChatMax(), level)
      else ClassCeiling(cfg, cfg.perChatEditMax, c.cls, level)
    case SendTier => ClassCeiling(cfg, cfg.perChatSendMax, c.cls, level)
    case TotalTier => TotalMaxFor(cfg, c.cls, level)
    case TokenTier => Ceiling(cfg, cfg.PerTokenMax(), level)
  }

  function Width(cfg: Config, key: Key): nat {
    match key
    case KMessage(_, _) => cfg.perMessageWindowMs
    case KToken => cfg.PerTokenWindowMs()
    case _ => cfg.perChatWindowMs
  }

  function Window(cfg: Config, s: State, key: Key): seq<int> {
    Live(s.log, key, s.now - Width(cfg, key))
  }

  /** Milliseconds until a window has room, 0 when it has room now. */
  function WaitTime(ts: seq<int>, now: int, width: nat, max: nat): nat {
    if |ts| < max then 0
    else if |ts| > 0 then
      var due := ts[0] + width - now;
      if due >= 1 then due else 1
    else Max(1, width)
  }

  function Wait(cfg: Config, s: State, key: Key, max: nat): nat {
    WaitTime(Window(cfg, s, key), s.now, Width(cfg, key), max)
  }

  /** The one deadline all tiers share; a chat action gets a shorter one. */
  function Deadline(cfg: Config, c: Call): int {
    c.arrived + if c.kind.ChatAction? && c.stage == TotalTier
                then Min(cfg.maxDeferMs, cfg.chatActionMaxDeferMs) else cfg.maxDeferMs
  }

  /** Whether this tier may shed the call at its deadline rather than release it. */
  predicate Sheds(c: Call) {
    match c.kind
    case Edit(_, _) => c.stage == MessageTier || c.stage == ChatTier || (c.stage == TotalTier && c.cls == Cosmetic)
    case ChatAction(_) => c.stage == TotalTier
    case _ => false
  }

  /** The calls editing a message that count as in flight. */
  function InFlight(s: State, chat: int, msg: int): set<nat> {
    set id | id in s.calls && s.calls[id].kind == Edit(chat, msg) && s.calls[id].counted
  }

  /** A drop at the deadline is allowed only while another frame for the same message is
    * in flight; a chat action has no such guard. */
  predicate MayDrop(s: State, c: Call) {
    Sheds(c) && (c.kind.Edit? ==> |InFlight(s, c.kind.chat, c.kind.msg)| > 1)
  }

  /** Cosmetic edits pay for a late release out of a bounded budget. */
  predicate PaysForLateness(c: Call) {
    c.kind.Edit? && c.cls == Cosmetic && c.stage in {MessageTier, ChatTier, TotalTier}
  }

  predicate LateBudgetSpent(cfg: Config, s: State, chat: int, level: nat)
    requires cfg.Valid()
  {
    |Window(cfg, s, KLate(chat))| >= Ceiling(cfg, cfg.lateReleaseMax, level)
  }

  datatype Outcome = Admit(lane: Lane) | Release(lane: Lane) | ReleasePaid(lane: Lane) | Deny | Nap(ms: nat)

  function RemainderCap(cfg: Config, level: nat): nat
    requires cfg.Valid()
  {
    if cfg.RemainderMax() == 0 then 0 else Ceiling(cfg, cfg.RemainderMax(), level)
  }

  /** What the wait loop of a tier does in one iteration. `cap` bounds the sleep, so that
    * the loop wakes to raise the throttle notice. */
  function Try(cfg: Config, s: State, c: Call, level: nat, cap: nat): (o: Outcome)
    requires cfg.Valid() && WellStaged(c) && Active(c)
  {
    if Fair(cfg, c) then
      var chat, msg := c.kind.chat, c.kind.msg;
      var floorWait := Max(Wait(cfg, s, KFloorOf(chat, msg), cfg.FloorPerWindow()),
                           Wait(cfg, s, KFloorAll(chat), cfg.FloorAggMax()));
      var spareWait := Wait(cfg, s, KRemainder(chat), RemainderCap(cfg, level));
      if floorWait == 0 then Admit(Floor(chat, msg))
      else if RemainderCap(cfg, level) > 0 && spareWait == 0 then Admit(Single(KRemainder(chat)))
      else if s.now >= Deadline(cfg, c) then
        if MayDrop(s, c) || LateBudgetSpent(cfg, s, chat, level) then Deny
        else if cfg.RemainderMax() > 0 then ReleasePaid(Single(KRemainder(chat)))
        else ReleasePaid(Floor(chat, msg))
      else Nap(Min(Min(floorWait, spareWait), Min(Deadline(cfg, c) - s.now, cap)))
    else
      var key := TierKey(c);
      var wait := Wait(cfg, s, key, TierMax(cfg, c, level));
      if wait == 0 then Admit(Single(key))
      else if s.now >= Deadline(cfg, c) then
        if MayDrop(s, c) then Deny
        else if PaysForLateness(c) then
          if LateBudgetSpent(cfg, s, c.kind.chat, level) then Deny else ReleasePaid(Single(key))
        else Release(Single(key))
      else Nap(Min(wait, Min(Deadline(cfg, c) - s.now, cap)))
  }

  // ----------------------------------------------------------------- steps

  datatype Event =
    | Arrive(id: nat, kind: Kind, cls: OutboundClass)
    | Attempt(id: nat, level: nat, cap: nat)
    | Wake(id: nat)
    | Resume(id: nat)
    | Tick(ms: nat)

  predicate Superseded(c: Call, chat: int, msg: int) {
    c.kind == Edit(chat, msg) && c.stage == MessageTier && c.rest.Killed?
  }

  predicate KilledOn(s: State, chat: int, msg: int) {
    exists id :: id in s.calls && Superseded(s.calls[id], chat, msg)
  }

  /** A superseded call resumes in a microtask, so no timer of its message fires first. */
  predicate Enabled(cfg: Config, s: State, ev: Event) {
    match ev
    case Arrive(id, _, _) => id !in s.calls
    case Attempt(id, level, cap) =>
      && id in s.calls && Active(s.calls[id]) && s.calls[id].rest.Runnable?
      && level <= cfg.maxTightenLevel && cap >= 1
    case Wake(id) =>
      && id in s.calls && Active(s.calls[id]) && s.calls[id].rest.Asleep?
      && s.now >= s.calls[id].rest.until
      && (s.calls[id].kind.Edit? && s.calls[id].stage == MessageTier ==>
            !KilledOn(s, s.calls[id].kind.chat, s.calls[id].kind.msg))
    case Resume(id) => id in s.calls && Active(s.calls[id]) && (s.calls[id].rest.Killed? || s.calls[id].rest.Denied?)
    case Tick(_) => true
  }

  function Taken(s: State, id: nat, lane: Lane, late: bool, level: nat): Reservation
    requires id in s.calls
  {
    var c := s.calls[id];
    Reservation(lane, s.now, id, late, level, c.cls == Cosmetic && Sheds(c), c.kind.ChatAction?)
  }

  /** The first pass at the token tier takes an edit out of the in-flight count. */
  predicate StillCounted(c: Call) {
    c.counted && c.stage != TokenTier
  }

  function Advance(s: State, id: nat, log: seq<Reservation>): State
    requires id in s.calls
  {
    var c := s.calls[id];
    s.(log := log, calls := s.calls[id := c.(stage := NextStage(c.stage), counted := StillCounted(c))])
  }

  /** Going to sleep; at the message tier this supersedes the frame waiting there. */
  function Sleep(s: State, id: nat, ms: nat): State
    requires id in s.calls && WellStaged(s.calls[id])
  {
    var c := s.calls[id].(rest := Asleep(s.now + ms), naps := s.calls[id].naps + 1,
                          counted := StillCounted(s.calls[id]));
    if c.stage == MessageTier then
      var m := (c.kind.chat, c.kind.msg);
      var calls :=
        if m in s.waiter && s.waiter[m] in s.calls && s.waiter[m] != id
        then s.calls[s.waiter[m] := s.calls[s.waiter[m]].(rest := Killed)] else s.calls;
      s.(calls := calls[id := c], waiter := s.waiter[m := id])
    else s.(calls := s.calls[id := c])
  }

  /** What an outcome does to the state. */
  function Carried(s: State, id: nat, o: Outcome, level: nat): State
    requires id in s.calls && WellStaged(s.calls[id]) && (o.ReleasePaid? ==> s.calls[id].kind.Edit?)
  {
    var c := s.calls[id];
    match o
    case Admit(lane) => Advance(s, id, s.log + [Taken(s, id, lane, false, level)])
    case Release(lane) => Advance(s, id, s.log + [Taken(s, id, lane, true, level)])
    case ReleasePaid(lane) =>
      Advance(s, id, s.log + [Taken(s, id, Single(KLate(c.kind.chat)), true, level)]
                           + [Taken(s, id, lane, true, level)])
    case Deny => s.(calls := s.calls[id := c.(rest := Denied)])
    case Nap(ms) => Sleep(s, id, ms)
  }

  function AttemptResult(cfg: Config, s: State, id: nat, level: nat, cap: nat): State
    requires cfg.Valid() && id in s.calls && WellStaged(s.calls[id]) && Active(s.calls[id])
  {
    Carried(s, id, Try(cfg, s, s.calls[id], level, cap), level)
  }

  /** `apply` resumes after a drop: it hands a denied call's slots back and leaves. */
  function Gone(s: State, id: nat): State
    requires id in s.calls
  {
    var c := s.calls[id];
    s.(log := if c.rest.Denied? then GiveBack(s.log, id) else s.log,
       calls := s.calls[id := c.(stage := Dropped, counted := false)])
  }

  function Next(cfg: Config, s: State, ev: Event): State
    requires cfg.Valid() && Enabled(cfg, s, ev) && StagesInv(s)
  {
    match ev
    case Arrive(id, kind, cls) =>
      s.(calls := s.calls[id := Call(kind, cls, s.now, FirstStage(kind), Runnable, 0, kind.Edit?)])
    case Attempt(id, level, cap) => AttemptResult(cfg, s, id, level, cap)
    case Wake(id) =>
      var c := s.calls[id];
      assert WellStaged(c);
      var waiter := if c.stage == MessageTier then s.waiter - {(c.kind.chat, c.kind.msg)} else s.waiter;
      s.(calls := s.calls[id := c.(rest := Runnable)], waiter := waiter)
    case Resume(id) => Gone(s, id)
    case Tick(ms) => s.(now := s.now + ms)
  }

  function Init(now: int): State {
    State(now, [], map[], map[])
  }

  // ------------------------------------------------------------ invariants

  ghost predicate StagesInv(s: State) {
    forall id :: id in s.calls ==> WellStaged(s.calls[id])
  }

  /** The shape of the call table: every call at a tier of its kind, every waiter asleep. */
  ghost predicate Shape(s: State) {
    StagesInv(s) && WaitersInv(s)
  }

  /** A superseded frame that has not resumed always leaves a newer one waiting. */
  ghost predicate WaitersInv(s: State) {
    && (forall m :: m in s.waiter ==>
          && s.waiter[m] in s.calls
          && s.calls[s.waiter[m]].kind == Edit(m.0, m.1)
          && s.calls[s.waiter[m]].stage == MessageTier
          && s.calls[s.waiter[m]].rest.Asleep?)
    && (forall id, chat, msg ::
          (id in s.calls && Superseded(s.calls[id], chat, msg)) ==> (chat, msg) in s.waiter)
  }

  /** The rate bounds of one chat's cosmetic lanes and late-release budget. */
  ghost predicate LanesInv(cfg: Config, log: seq<Reservation>, chat: int) {
    var w := cfg.perChatWindowMs;
    && Bounded(log, OnKey(KLate(chat)), w, LateCap(cfg), Nothing)
    && (cfg.RemainderMax() > 0 ==>
          && Bounded(log, OnKey(KRemainder(chat)), w, cfg.RemainderMax(), OnKey(KLate(chat)))
          && Bounded(log, OnKey(KFloorAll(chat)), w, cfg.FloorAggMax(), Nothing))
    && (cfg.RemainderMax() == 0 ==>
          && Bounded(log, OnKey(KRemainder(chat)), w, 0, Nothing)
          && Bounded(log, OnKey(KFloorAll(chat)), w, cfg.FloorAggMax(), OnKey(KLate(chat))))
  }

  ghost predicate FloorsInv(cfg: Config, log: seq<Reservation>, chat: int, msg: int) {
    cfg.RemainderMax() > 0 ==>
      Bounded(log, OnKey(KFloorOf(chat, msg)), cfg.perChatWindowMs, cfg.FloorPerWindow(), Nothing)
  }

  /** Every sheddable admission to the shared window in the span was made while cosmetic
    * traffic could reach at most `share` slots. */
  ghost predicate SharesBelow(cfg: Config, log: seq<Reservation>, chat: int, lo: int, share: nat)
    requires cfg.Valid()
  {
    forall r :: r in log && Hit(Sheddable(chat), r, lo, cfg.perChatWindowMs) && !r.late ==>
      CosmeticTotalMax(cfg, r.level) <= share
  }

  ghost predicate SharesInv(cfg: Config, log: seq<Reservation>, chat: int)
    requires cfg.Valid()
  {
    forall lo: int, share: nat :: SharesBelow(cfg, log, chat, lo, share) ==>
      Within(log, Sheddable(chat), lo, cfg.perChatWindowMs)
        <= share + Within(log, OnKey(KLate(chat)), lo, cfg.perChatWindowMs)
  }

  /** Each sleep lasts at least 1 ms and ends by the deadline, so sleeps are paid for in
    * time since arrival. */
  ghost predicate NapsInv(cfg: Config, s: State) {
    forall id :: id in s.calls ==> NapsOk(cfg, s.now, s.calls[id])
  }

  ghost predicate NapsOk(cfg: Config, now: int, c: Call) {
    && c.arrived <= now
    && c.naps <= cfg.maxDeferMs
    && (c.rest.Runnable? ==> c.arrived + c.naps <= now)
    && (c.rest.Asleep? ==> c.arrived + c.naps <= c.rest.until <= c.arrived + cfg.maxDeferMs)
  }

  ghost predicate LogInv(cfg: Config, log: seq<Reservation>)
    requires cfg.Valid()
  {
    && (forall chat :: LanesInv(cfg, log, chat))
    && (forall chat, msg :: FloorsInv(cfg, log, chat, msg))
    && (forall chat :: SharesInv(cfg, log, chat))
  }

  ghost predicate Inv(cfg: Config, s: State)
    requires cfg.Valid()
  {
    Shape(s) && Chronological(s.log, s.now) && LogInv(cfg, s.log)
  }
}
