/** Ceilings of the edit-flood fuse: the configuration, the 429 tighten level and
  * its lazy decay, and every ceiling derived from them. */
module FuseCeilings {

  datatype OutboundClass = Critical | Useful | Cosmetic

  /** The fuse's configuration after defaulting. Fields named `...Raw` are clamped
    * by the member function of the same stem before use. */
  datatype Config = Config(
    perMessageMax: nat,
    perMessageWindowMs: nat,
    perChatEditMax: nat,
    perChatSendMax: nat,
    cosmeticPerMessageRaw: nat,
    cosmeticPerChatRaw: nat,
    fairShare: bool,
    floorRaw: nat,
    floorSlots: nat,
    perChatTotalMax: nat,
    replyReserveRaw: nat,
    criticalMin: nat,
    perTokenRaw: nat,
    perTokenWindowRaw: nat,
    chatActionMaxDeferMs: nat,
    lateReleaseMax: nat,
    perChatWindowMs: nat,
    maxDeferMs: nat,
    tightenFactor: real,
    tightenMs: nat,
    maxTightenLevel: nat)
  {
    ghost predicate Valid() {
      0.0 < tightenFactor <= 1.0
    }

    function CosmeticPerMessageMax(): nat {
      Min(perMessageMax, cosmeticPerMessageRaw)
    }

    function CosmeticPerChatMax(): nat {
      Min(perChatEditMax, cosmeticPerChatRaw)
    }

    function FloorPerWindow(): nat {
      Min(CosmeticPerMessageMax(), floorRaw)
    }

    function FloorAggMax(): nat {
      Min(CosmeticPerChatMax(), FloorPerWindow() * floorSlots)
    }

    function RemainderMax(): nat {
      CosmeticPerChatMax() - FloorAggMax()
    }

    function ReplyReserve(): nat {
      Min(replyReserveRaw, if perChatTotalMax >= 1 then perChatTotalMax - 1 else 0)
    }

    function ReserveFraction(): real {
      if perChatTotalMax > 0 then ReplyReserve() as real / perChatTotalMax as real else 0.0
    }

    function PerTokenMax(): nat {
      Max(1, perTokenRaw)
    }

    function PerTokenWindowMs(): nat {
      Max(1, perTokenWindowRaw)
    }
  }

  function Min(a: nat, b: nat): nat {
    if a <= b then a else b
  }

  function Max(a: nat, b: nat): nat {
    if a >= b then a else b
  }

  function Pow(f: real, n: nat): real {
    if n == 0 then 1.0 else f * Pow(f, n - 1)
  }

  /** Math.round on a non-negative number. */
  function Round(x: real): int {
    (x + 0.5).Floor
  }

  // ---------------------------------------------------------------- ceilings

  /** The ceiling a tier with base `base` has at tighten level `level`. */
  function Ceiling(cfg: Config, base: nat, level: nat): nat
    requires cfg.Valid()
  {
    if level == 0 then base
    else
      PowBounds(cfg.tightenFactor, level);
      Max(1, (base as real * Pow(cfg.tightenFactor, level)).Floor)
  }

  /** The ceiling one class of call sees: `critical` has a floor under it. */
  function ClassCeiling(cfg: Config, base: nat, cls: OutboundClass, level: nat): nat
    requires cfg.Valid()
  {
    var eff := Ceiling(cfg, base, level);
    if cls != Critical then eff else Max(eff, Min(base, cfg.criticalMin))
  }

  function CosmeticMessageCeiling(cfg: Config, level: nat): nat
    requires cfg.Valid()
  {
    var eff := Ceiling(cfg, cfg.CosmeticPerMessageMax(), level);
    if !cfg.fairShare then eff else Max(eff, Min(cfg.CosmeticPerMessageMax(), cfg.FloorPerWindow()))
  }

  /** Slots of the shared chat budget that cosmetic traffic cannot reach. */
  function ReservedSlots(cfg: Config, level: nat): nat
    requires cfg.Valid()
  {
    var eff := Ceiling(cfg, cfg.perChatTotalMax, level);
    if cfg.ReserveFraction() <= 0.0 then 0
    else Min(eff, Max(1, Round(eff as real * cfg.ReserveFraction())))
  }

  function CosmeticTotalMax(cfg: Config, level: nat): nat
    requires cfg.Valid()
  {
    var eff := Ceiling(cfg, cfg.perChatTotalMax, level);
    eff - ReservedSlots(cfg, level)
  }

  function TotalMaxFor(cfg: Config, cls: OutboundClass, level: nat): nat
    requires cfg.Valid()
  {
    if cls == Cosmetic then CosmeticTotalMax(cfg, level)
    else ClassCeiling(cfg, cfg.perChatTotalMax, cls, level)
  }

  /** The largest value the late-release budget's ceiling can ever take. */
  function LateCap(cfg: Config): nat {
    if cfg.maxTightenLevel == 0 then cfg.lateReleaseMax else Max(1, cfg.lateReleaseMax)
  }

  lemma {:induction false} PowBounds(f: real, n: nat)
    requires 0.0 < f <= 1.0
    ensures 0.0 < Pow(f, n) <= 1.0
  {
    if n > 0 {
      PowBounds(f, n - 1);
      ScaleBounds(f, Pow(f, n - 1));
    }
  }

  lemma ScaleBounds(f: real, p: real)
    requires 0.0 < f <= 1.0 && 0.0 <= p
    ensures 0.0 <= f * p <= p
    ensures 0.0 < p ==> 0.0 < f * p
  {
    assert (1.0 - f) * p >= 0.0;
  }

  lemma {:induction false} PowFalls(f: real, m: nat, n: nat)
    requires 0.0 < f <= 1.0 && m <= n
    ensures Pow(f, n) <= Pow(f, m)
  {
    if m < n {
      PowFalls(f, m, n - 1);
      PowStep(f, n - 1);
    }
  }

  lemma PowStep(f: real, n: nat)
    requires 0.0 < f <= 1.0
    ensures Pow(f, n + 1) <= Pow(f, n)
  {
    PowBounds(f, n);
    ScalesDown(f, Pow(f, n), Pow(f, n + 1));
  }

  lemma ScalesDown(f: real, p: real, r: real)
    requires 0.0 < f <= 1.0 && 0.0 <= p && r == f * p
    ensures r <= p
  {
    ScaleBounds(f, p);
  }

  lemma MulMono(b: real, p: real, q: real)
    requires 0.0 <= b && p <= q
    ensures b * p <= b * q
  {
    assert b * (q - p) >= 0.0;
  }

  /** Every ceiling with a base of at least 1 stays inside [1, base] and falls as the
    * level rises. With base 0 a positive level raises it to 1. */
  lemma CeilingInRange(cfg: Config, base: nat, low: nat, high: nat)
    requires cfg.Valid() && low <= high
    ensures base >= 1 ==> 1 <= Ceiling(cfg, base, high) <= Ceiling(cfg, base, low) <= base
    ensures base == 0 ==> Ceiling(cfg, base, high) == if high == 0 then 0 else 1
  {
    CeilingBounded(cfg, base, low);
    CeilingBounded(cfg, base, high);
    if low > 0 {
      CeilingFalls(cfg, base, low, high);
    }
  }

  lemma CeilingBounded(cfg: Config, base: nat, level: nat)
    requires cfg.Valid()
    ensures base >= 1 ==> 1 <= Ceiling(cfg, base, level) <= base
    ensures base == 0 ==> Ceiling(cfg, base, level) == if level == 0 then 0 else 1
  {
    var p := Pow(cfg.tightenFactor, level);
    PowBounds(cfg.tightenFactor, level);
    FloorScaled(base, p, p);
  }

  lemma CeilingFalls(cfg: Config, base: nat, low: nat, high: nat)
    requires cfg.Valid() && 1 <= low <= high
    ensures Ceiling(cfg, base, high) <= Ceiling(cfg, base, low)
  {
    var p, q := Pow(cfg.tightenFactor, high), Pow(cfg.tightenFactor, low);
    PowBounds(cfg.tightenFactor, low);
    PowBounds(cfg.tightenFactor, high);
    PowFalls(cfg.tightenFactor, low, high);
    FloorScaled(base, p, q);
    assert Ceiling(cfg, base, high) == Max(1, (base as real * p).Floor);
    assert Ceiling(cfg, base, low) == Max(1, (base as real * q).Floor);
  }

  lemma FloorScaled(base: nat, p: real, q: real)
    requires 0.0 <= p <= q <= 1.0
    ensures 0 <= (base as real * p).Floor <= (base as real * q).Floor <= base
    ensures base == 0 ==> (base as real * p).Floor == 0
  {
    MulMono(base as real, 0.0, p);
    MulMono(base as real, p, q);
    MulMono(base as real, q, 1.0);
  }

  /** No tightening takes `critical` below its floor, and every class other than
    * cosmetic keeps strictly more of the shared budget than cosmetic traffic does
    * whenever a positive reserve is configured. */
  lemma ReplyAdvantage(cfg: Config, cls: OutboundClass, base: nat, level: nat)
    requires cfg.Valid()
    ensures base >= 1 ==> ClassCeiling(cfg, base, cls, level) <= base
    ensures cls == Critical ==> ClassCeiling(cfg, base, cls, level) >= Min(base, cfg.criticalMin)
    ensures cls != Cosmetic && cfg.ReplyReserve() > 0 ==>
      CosmeticTotalMax(cfg, level) < TotalMaxFor(cfg, cls, level)
    ensures cfg.fairShare ==> CosmeticMessageCeiling(cfg, level) >= cfg.FloorPerWindow()
  {
    CeilingInRange(cfg, base, 0, level);
    CeilingInRange(cfg, cfg.perChatTotalMax, 0, level);
    if cfg.ReplyReserve() > 0 {
      assert cfg.perChatTotalMax >= 2;
      RatioPositive(cfg.ReplyReserve(), cfg.perChatTotalMax);
    }
  }

  lemma RatioPositive(a: nat, b: nat)
    requires a > 0 && b > 0
    ensures a as real / b as real > 0.0
  {
  }

  lemma LateCeilingBounded(cfg: Config, level: nat)
    requires cfg.Valid() && level <= cfg.maxTightenLevel
    ensures Ceiling(cfg, cfg.lateReleaseMax, level) <= LateCap(cfg)
  {
    CeilingInRange(cfg, cfg.lateReleaseMax, 0, level);
  }

  // ----------------------------------------------------------- tighten level

  /** The in-memory tightening: levels in force, and when the next one decays. */
  datatype Tighten = Tighten(level: nat, until: int)

  /** What a chain of single-level decays leaves of `t` at time `now`. */
  function Decay(t: Tighten, now: int, tightenMs: nat): Tighten
    decreases t.level
  {
    if t.level > 0 && t.until <= now then
      Decay(Tighten(t.level - 1, if t.level > 1 then t.until + tightenMs else 0), now, tightenMs)
    else t
  }

  /** The same level without stepping: one level goes at `until`, one more every
    * `tightenMs` after it. */
  function LevelClosedForm(t: Tighten, now: int, tightenMs: nat): nat {
    if t.level == 0 || now < t.until then t.level
    else if tightenMs == 0 then 0
    else
      var gone := 1 + (now - t.until) / tightenMs;
      if gone >= t.level then 0 else t.level - gone
  }

  lemma {:induction false} DecayIsClosedForm(t: Tighten, now: int, tightenMs: nat)
    ensures Decay(t, now, tightenMs).level == LevelClosedForm(t, now, tightenMs)
    decreases t.level
  {
    if t.level > 0 && t.until <= now {
      var next := Tighten(t.level - 1, if t.level > 1 then t.until + tightenMs else 0);
      DecayIsClosedForm(next, now, tightenMs);
      if t.level > 1 && tightenMs > 0 {
        if now >= next.until {
          DivShift(now - t.until, tightenMs);
        } else {
          DivSmall(now - t.until, tightenMs);
        }
      }
    }
  }

  lemma DivShift(x: int, m: int)
    requires m > 0
    ensures x / m == 1 + (x - m) / m
  {
    var q, r := (x - m) / m, (x - m) % m;
    assert x - m == m * q + r;
    assert x == m * (q + 1) + r;
    QuotientUnique(x, m, q + 1, r);
  }

  lemma QuotientUnique(x: int, m: int, q: int, r: int)
    requires m > 0 && 0 <= r < m && x == m * q + r
    ensures x / m == q
  {
    var d := x / m - q;
    assert x == m * (x / m) + x % m;
    assert m * d == r - x % m;
    assert m * (-d) == -(m * d);
    if d >= 1 {
      AtLeastOnce(m, d);
    } else if d <= -1 {
      AtLeastOnce(m, -d);
    }
  }

  lemma AtLeastOnce(m: int, d: int)
    requires m > 0 && d >= 1
    ensures m * d >= m
  {
  }

  lemma DivSmall(x: int, m: int)
    requires 0 <= x < m
    ensures x / m == 0
  {
  }

  /** Looking at the level early does not change what it is later. */
  lemma {:induction false} DecayComposes(t: Tighten, early: int, late: int, tightenMs: nat)
    requires early <= late
    ensures Decay(Decay(t, early, tightenMs), late, tightenMs) == Decay(t, late, tightenMs)
    decreases t.level
  {
    if t.level > 0 && t.until <= early {
      DecayComposes(Tighten(t.level - 1, if t.level > 1 then t.until + tightenMs else 0), early, late, tightenMs);
    }
  }

  /** Levels one 429 is worth, by its stated penalty. */
  function TightenStep(cfg: Config, retryAfterSec: int): nat {
    if retryAfterSec <= 5 then 1
    else if retryAfterSec <= 60 then 2
    else if retryAfterSec <= 600 then 3
    else cfg.maxTightenLevel
  }

  function Flooded(cfg: Config, t: Tighten, now: int, retryAfterSec: int): Tighten {
    var d := Decay(t, now, cfg.tightenMs);
    Tighten(Min(cfg.maxTightenLevel, d.level + TightenStep(cfg, retryAfterSec)),
            now + if retryAfterSec >= 0 then retryAfterSec * 1000 + cfg.tightenMs else cfg.tightenMs)
  }

  /** What the fuse is told and asked over time. */
  datatype TightenEvent = Query(at: int) | Flood(at: int, retryAfterSec: int)

  ghost predicate InTimeOrder(from: int, evs: seq<TightenEvent>)
    decreases evs
  {
    evs == [] || (from <= evs[0].at && InTimeOrder(evs[0].at, evs[1..]))
  }

  function Observe(cfg: Config, t: Tighten, ev: TightenEvent): Tighten {
    match ev
    case Query(at) => Decay(t, at, cfg.tightenMs)
    case Flood(at, retry) => Flooded(cfg, t, at, retry)
  }

  function ObserveAll(cfg: Config, t: Tighten, evs: seq<TightenEvent>): Tighten
    decreases evs
  {
    if evs == [] then t else ObserveAll(cfg, Observe(cfg, t, evs[0]), evs[1..])
  }

  function FloodsOnly(evs: seq<TightenEvent>): seq<TightenEvent> {
    if evs == [] then []
    else (if evs[0].Flood? then [evs[0]] else []) + FloodsOnly(evs[1..])
  }

  function LastAt(from: int, evs: seq<TightenEvent>): int
    decreases evs
  {
    if evs == [] then from else LastAt(evs[0].at, evs[1..])
  }

  /** Over any history of queries and 429s, the level seen later depends on the 429s
    * alone: queries may be added or removed without changing it. */
  lemma QueriesAreUnobservable(cfg: Config, t: Tighten, from: int, evs: seq<TightenEvent>, now: int)
    requires InTimeOrder(from, evs) && LastAt(from, evs) <= now
    ensures Decay(ObserveAll(cfg, t, evs), now, cfg.tightenMs)
         == Decay(ObserveAll(cfg, t, FloodsOnly(evs)), now, cfg.tightenMs)
  {
    SameLater(cfg, t, t, from, evs, now);
  }

  lemma {:induction false} LastAtBound(from: int, evs: seq<TightenEvent>)
    requires InTimeOrder(from, evs)
    ensures from <= LastAt(from, evs)
    decreases evs
  {
    if evs != [] {
      LastAtBound(evs[0].at, evs[1..]);
    }
  }

  lemma {:induction false} SameLater(
    cfg: Config, a: Tighten, b: Tighten, from: int, evs: seq<TightenEvent>, now: int)
    requires InTimeOrder(from, evs) && LastAt(from, evs) <= now
    requires Decay(a, from, cfg.tightenMs) == Decay(b, from, cfg.tightenMs)
    ensures Decay(ObserveAll(cfg, a, evs), now, cfg.tightenMs)
         == Decay(ObserveAll(cfg, b, FloodsOnly(evs)), now, cfg.tightenMs)
    decreases evs
  {
    var ms := cfg.tightenMs;
    LastAtBound(from, evs);
    if evs == [] {
      DecayComposes(a, from, now, ms);
      DecayComposes(b, from, now, ms);
    } else {
      var ev, rest := evs[0], evs[1..];
      DecayComposes(a, from, ev.at, ms);
      DecayComposes(b, from, ev.at, ms);
      match ev {
        case Query(at) =>
          DecayComposes(a, at, at, ms);
          SameLater(cfg, Decay(a, at, ms), b, at, rest, now);
          assert FloodsOnly(evs) == FloodsOnly(rest);
        case Flood(at, retry) =>
          SameLater(cfg, Observe(cfg, a, ev), Observe(cfg, b, ev), at, rest, now);
          assert FloodsOnly(evs) == [ev] + FloodsOnly(rest);
      }
    }
  }

  /** Until its penalty plus one decay period is over, a 429's tightening does not
    * decay, provided no other 429 is observed meanwhile; it never exceeds the cap. */
  lemma FloodHolds(cfg: Config, t: Tighten, now: int, retryAfterSec: int, later: int)
    requires retryAfterSec >= 0
    requires now <= later < now + retryAfterSec * 1000 + cfg.tightenMs
    ensures var held := Decay(Flooded(cfg, t, now, retryAfterSec), later, cfg.tightenMs).level;
      held == Flooded(cfg, t, now, retryAfterSec).level <= cfg.maxTightenLevel
      && (retryAfterSec > 600 ==> held == cfg.maxTightenLevel)
  {
  }

  /** The level in force: the decayed one, raised while a persisted flood window of
    * `remainingMs` is open. */
  function EffectiveLevel(cfg: Config, t: Tighten, now: int, remainingMs: nat): nat {
    var level := Decay(t, now, cfg.tightenMs).level;
    if remainingMs > 0 then Max(level, Min(cfg.maxTightenLevel, StepForMs(cfg, remainingMs))) else level
  }

  /** `TightenStep` of a remaining time in milliseconds, without rounding it. */
  function StepForMs(cfg: Config, ms: nat): nat {
    if ms <= 5000 then 1 else if ms <= 60_000 then 2 else if ms <= 600_000 then 3 else cfg.maxTightenLevel
  }

  lemma {:induction false} DecayBounded(t: Tighten, now: int, tightenMs: nat)
    ensures Decay(t, now, tightenMs).level <= t.level
    decreases t.level
  {
    if t.level > 0 && t.until <= now {
      DecayBounded(Tighten(t.level - 1, if t.level > 1 then t.until + tightenMs else 0), now, tightenMs);
    }
  }

  /** The level in force is capped, and never below the in-memory one. */
  lemma EffectiveLevelBounded(cfg: Config, t: Tighten, now: int, remainingMs: nat)
    requires t.level <= cfg.maxTightenLevel
    ensures Decay(t, now, cfg.tightenMs).level <= EffectiveLevel(cfg, t, now, remainingMs) <= cfg.maxTightenLevel
  {
    DecayBounded(t, now, cfg.tightenMs);
  }
}
