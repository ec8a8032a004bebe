/** What the ceilings, the reserve and the tighten level come to, in numbers: how far each 429
  * slows the fuse. */
module FuseGrades {
  import opened FuseCeilings

  // ------------------------------------------------------------------- tightened ceilings

  /** The powers of `f`, from the zeroth on. */
  ghost predicate Powers(f: real, ps: seq<real>) {
    ps != [] &&
    var n := |ps| - 1;
    if n == 0 then ps[0] == 1.0 else ps[n] == f * ps[n - 1] && Powers(f, ps[..n])
  }

  lemma {:induction false} PowersAre(f: real, ps: seq<real>)
    requires Powers(f, ps)
    ensures ps[|ps| - 1] == Pow(f, |ps| - 1)
  {
    if |ps| > 1 {
      PowersAre(f, ps[..|ps| - 1]);
    }
  }

  /** At level n a ceiling is the whole part of its base times the n-th power of the tighten
    * factor, and 1 if that is less. */
  lemma CeilingIsGeometric(cfg: Config, base: nat, level: nat, ps: seq<real>)
    requires cfg.Valid() && base >= 1 && level >= 1 && |ps| == level + 1 && Powers(cfg.tightenFactor, ps)
    ensures var exact, c := base as real * ps[level], Ceiling(cfg, base, level);
      c >= 1 && exact < c as real + 1.0 && (c as real <= exact || c == 1)
    ensures Ceiling(cfg, base, 0) == base
  {
    PowersAre(cfg.tightenFactor, ps);
    PowBounds(cfg.tightenFactor, level);
    FloorScaled(base, ps[level], ps[level]);
    TightenedIs(cfg, base, level, base as real * ps[level]);
  }

  lemma ScaledBelow(base: nat, p: real, f: real)
    requires 0.0 <= p <= f <= 1.0 && base as real * f <= base as real - 1.0
    ensures (base as real * p).Floor <= base - 1
  {
    MulMono(base as real, p, f);
    var x, y := base as real * p, base as real * f;
    assert x <= y <= base as real - 1.0;
    FloorBelow(x, base - 1);
  }

  lemma FloorBelow(x: real, n: int)
    requires x <= n as real
    ensures x.Floor <= n
  {
  }

  lemma PositivePower(f: real, n: nat)
    requires 0.0 < f <= 1.0 && n >= 1
    ensures 0.0 < Pow(f, n) <= f
  {
    PowBounds(f, n);
    PowFalls(f, 1, n);
    assert Pow(f, 0) == 1.0 && Pow(f, 1) == f * Pow(f, 0);
  }

  /** Where the factor takes at least one slot off the base, every 429 slows the tier. */
  lemma CeilingStrictlyFalls(cfg: Config, base: nat, level: nat)
    requires cfg.Valid() && base >= 2 && level >= 1 && base as real * cfg.tightenFactor <= base as real - 1.0
    ensures Ceiling(cfg, base, level) < base
  {
    var p := Pow(cfg.tightenFactor, level);
    PositivePower(cfg.tightenFactor, level);
    ScaledBelow(base, p, cfg.tightenFactor);
    MulMono(base as real, 0.0, p);
    TightenedIs(cfg, base, level, base as real * p);
  }

  lemma TightenedIs(cfg: Config, base: nat, level: nat, exact: real)
    requires cfg.Valid() && level >= 1 && exact >= 0.0 && exact == base as real * Pow(cfg.tightenFactor, level)
    ensures Ceiling(cfg, base, level) == Max(1, exact.Floor)
  {
  }

  /** A class ceiling is the tightened one, or, for critical calls, the critical floor under
    * it; a cosmetic frame's ceiling likewise has the fair-share floor under it. */
  lemma ClassCeilingExact(cfg: Config, base: nat, cls: OutboundClass, level: nat)
    requires cfg.Valid()
    ensures cls != Critical ==> ClassCeiling(cfg, base, cls, level) == Ceiling(cfg, base, level)
    ensures ClassCeiling(cfg, base, Critical, level) >= Ceiling(cfg, base, level)
    ensures ClassCeiling(cfg, base, Critical, level) > Ceiling(cfg, base, level) ==>
      ClassCeiling(cfg, base, Critical, level) == (if cfg.criticalMin <= base then cfg.criticalMin else base)
    ensures !cfg.fairShare ==> CosmeticMessageCeiling(cfg, level) == Ceiling(cfg, cfg.CosmeticPerMessageMax(), level)
    ensures CosmeticMessageCeiling(cfg, level) >= Ceiling(cfg, cfg.CosmeticPerMessageMax(), level)
    ensures CosmeticMessageCeiling(cfg, level) > Ceiling(cfg, cfg.CosmeticPerMessageMax(), level) ==>
      CosmeticMessageCeiling(cfg, level) == cfg.FloorPerWindow()
  {
  }

  /** The cosmetic limits never exceed the limits they are parts of. */
  lemma CosmeticWithin(cfg: Config)
    ensures cfg.CosmeticPerMessageMax() <= cfg.perMessageMax && cfg.CosmeticPerMessageMax() <= cfg.cosmeticPerMessageRaw
    ensures cfg.CosmeticPerChatMax() <= cfg.perChatEditMax && cfg.CosmeticPerChatMax() <= cfg.cosmeticPerChatRaw
    ensures cfg.FloorPerWindow() <= cfg.floorRaw && cfg.FloorPerWindow() <= cfg.CosmeticPerMessageMax()
    ensures cfg.FloorAggMax() + cfg.RemainderMax() == cfg.CosmeticPerChatMax()
    ensures cfg.FloorPerWindow() * cfg.floorSlots <= cfg.CosmeticPerChatMax() ==>
      cfg.FloorAggMax() == cfg.FloorPerWindow() * cfg.floorSlots
    ensures cfg.perChatTotalMax >= 1 ==> cfg.ReplyReserve() < cfg.perChatTotalMax
    ensures cfg.replyReserveRaw < cfg.perChatTotalMax ==> cfg.ReplyReserve() == cfg.replyReserveRaw
    ensures cfg.cosmeticPerMessageRaw <= cfg.perMessageMax ==> cfg.CosmeticPerMessageMax() == cfg.cosmeticPerMessageRaw
    ensures cfg.cosmeticPerChatRaw <= cfg.perChatEditMax ==> cfg.CosmeticPerChatMax() == cfg.cosmeticPerChatRaw
    ensures cfg.perTokenRaw >= 1 ==> cfg.PerTokenMax() == cfg.perTokenRaw
    ensures cfg.perTokenWindowRaw >= 1 ==> cfg.PerTokenWindowMs() == cfg.perTokenWindowRaw
  {
  }

  // ------------------------------------------------------------------------ the reserve

  lemma RoundNear(x: real)
    requires x >= 0.0
    ensures 2.0 * x - 1.0 <= 2.0 * Round(x) as real <= 2.0 * x + 1.0 && Round(x) >= 0
  {
  }

  lemma Regroup(a: real, b: real, c: real)
    ensures a * b * c == a * (b * c)
  {
  }

  lemma ScaledUp(t: real, a: real, b: real, ta: real, tb: real)
    requires t >= 0.0 && a <= b && ta == a * t && tb == b * t
    ensures ta <= tb
  {
    assert t * (b - a) >= 0.0;
  }

  lemma ScaledSum(t: real, x: real, y: real)
    ensures (2.0 * x + y) * t == 2.0 * (x * t) + y * t
  {
  }

  /** Scaling a sandwich of half a unit on either side. */
  lemma Sandwich(x: real, n: real, t: real, xt: real, nt: real)
    requires t >= 0.0 && 2.0 * x - 1.0 <= 2.0 * n <= 2.0 * x + 1.0 && xt == x * t && nt == n * t
    ensures 2.0 * xt - t <= 2.0 * nt <= 2.0 * xt + t
  {
    ScaledSum(t, x, -1.0);
    ScaledSum(t, x, 1.0);
    ScaledSum(t, n, 0.0);
    ScaledUp(t, 2.0 * x - 1.0, 2.0 * n, 2.0 * xt - t, 2.0 * nt);
    ScaledUp(t, 2.0 * n, 2.0 * x + 1.0, 2.0 * nt, 2.0 * xt + t);
  }

  /** The same on whole numbers. */
  lemma WholeSandwich(x: real, n: int, t: nat, xt: int, nt: int)
    requires 2.0 * x - 1.0 <= 2.0 * n as real <= 2.0 * x + 1.0
    requires xt as real == x * t as real && nt as real == n as real * t as real
    ensures 2 * xt - t <= 2 * nt <= 2 * xt + t
  {
    Sandwich(x, n as real, t as real, xt as real, nt as real);
    Whole(2 * xt - t, 2 * nt);
    Whole(2 * nt, 2 * xt + t);
  }

  lemma Whole(a: int, b: int)
    requires a as real <= b as real
    ensures a <= b
  {
  }

  lemma WholeSlots(n: int, t: nat, nt: int)
    requires nt == n * t
    ensures nt as real == n as real * t as real
  {
  }

  /** A share of `eff` in the ratio `f`, that is `r` to `t`, to the nearest whole. */
  lemma RoundedShare(eff: nat, r: nat, t: nat, f: real)
    requires f >= 0.0 && f * t as real == r as real
    ensures Round(eff as real * f) >= 0 && Nearest(Round(eff as real * f), eff * r, t)
  {
    var x := eff as real * f;
    MulMono(eff as real, 0.0, f);
    RoundNear(x);
    ScaledShare(eff, r, t, f, x);
    WholeSlots(Round(x), t, Round(x) * t);
    WholeSandwich(x, Round(x), t, eff * r, Round(x) * t);
  }

  /** `n` is the whole number nearest to the quotient of `a` and `t`. */
  predicate Nearest(n: int, a: int, t: nat) {
    2 * a - t <= 2 * (n * t) <= 2 * a + t
  }

  lemma ScaledShare(eff: nat, r: nat, t: nat, f: real, x: real)
    requires f * t as real == r as real && x == eff as real * f
    ensures x * t as real == (eff * r) as real
  {
    Regroup(eff as real, f, t as real);
    WholeSlots(eff, r, eff * r);
  }

  /** The reserve as a function of the effective budget and the reserved fraction. */
  function Share(eff: nat, f: real): int {
    if f <= 0.0 then 0 else Min(eff, Max(1, if Round(eff as real * f) >= 0 then Round(eff as real * f) else 0))
  }

  lemma ReservedIsShare(cfg: Config, level: nat)
    requires cfg.Valid()
    ensures ReservedSlots(cfg, level) == Share(Ceiling(cfg, cfg.perChatTotalMax, level), cfg.ReserveFraction())
  {
  }

  lemma ShareIsMin(eff: nat, f: real, n: int)
    requires f > 0.0 && n == Round(eff as real * f) && n >= 0
    ensures Share(eff, f) == Min(eff, Max(1, n))
  {
  }

  lemma FractionIs(cfg: Config)
    requires cfg.ReplyReserve() > 0
    ensures cfg.ReserveFraction() > 0.0
    ensures cfg.ReserveFraction() * cfg.perChatTotalMax as real == cfg.ReplyReserve() as real
  {
    RatioPositive(cfg.ReplyReserve(), cfg.perChatTotalMax);
  }

  /** `reserved` of `eff` slots are the share `r` of `t`, to the nearest slot, but at least
    * one and at most all. */
  ghost predicate NearShare(reserved: int, eff: nat, r: nat, t: nat) {
    exists n :: n >= 0 && Nearest(n, eff * r, t) && reserved == Min(eff, Max(1, n))
  }

  lemma ShareIsNear(eff: nat, r: nat, t: nat, f: real)
    requires f > 0.0 && f * t as real == r as real
    ensures NearShare(Share(eff, f), eff, r, t)
  {
    RoundedShare(eff, r, t, f);
    ShareIsMin(eff, f, Round(eff as real * f));
  }

  /** Of an effective chat budget E out of T, the reserve is the configured share R of T to
    * the nearest slot, but at least one slot; cosmetic traffic can reach the rest. */
  lemma ReserveIsShare(cfg: Config, level: nat)
    requires cfg.Valid() && cfg.ReplyReserve() > 0
    ensures NearShare(ReservedSlots(cfg, level), Ceiling(cfg, cfg.perChatTotalMax, level), cfg.ReplyReserve(),
                      cfg.perChatTotalMax)
    ensures CosmeticTotalMax(cfg, level) == Ceiling(cfg, cfg.perChatTotalMax, level) - ReservedSlots(cfg, level)
  {
    FractionIs(cfg);
    ReservedIsShare(cfg, level);
    var eff := Ceiling(cfg, cfg.perChatTotalMax, level);
    ShareIsNear(eff, cfg.ReplyReserve(), cfg.perChatTotalMax, cfg.ReserveFraction());
  }

  /** At rest the reserve is the configured one. */
  lemma ReserveAtRest(cfg: Config)
    requires cfg.Valid()
    ensures ReservedSlots(cfg, 0) == cfg.ReplyReserve()
    ensures CosmeticTotalMax(cfg, 0) == cfg.perChatTotalMax - cfg.ReplyReserve()
  {
    if cfg.ReplyReserve() > 0 {
      FractionIs(cfg);
      Commute(cfg.perChatTotalMax as real, cfg.ReserveFraction());
      ReservedIsShare(cfg, 0);
    }
  }

  lemma Commute(a: real, b: real)
    ensures a * b == b * a
  {
  }

  // ------------------------------------------------------------------------- the 429 steps

  /** Before any decay, a 429 raises the level by one for a penalty up to 5 s, two up to a
    * minute, three up to ten minutes, and all the way beyond, never over the maximum; the
    * first level goes when the penalty and one decay period are over. */
  lemma FloodGrades(cfg: Config, t: Tighten, now: int, retryAfterSec: int)
    ensures var was, after := Decay(t, now, cfg.tightenMs).level, Flooded(cfg, t, now, retryAfterSec).level;
      && (retryAfterSec <= 5 ==> after == Min(cfg.maxTightenLevel, was + 1))
      && (5 < retryAfterSec <= 60 ==> after == Min(cfg.maxTightenLevel, was + 2))
      && (60 < retryAfterSec <= 600 ==> after == Min(cfg.maxTightenLevel, was + 3))
      && (600 < retryAfterSec ==> after == cfg.maxTightenLevel)
    ensures var over := now + (if retryAfterSec >= 0 then retryAfterSec * 1000 else 0) + cfg.tightenMs;
      && Flooded(cfg, t, now, retryAfterSec).until == over
      && (cfg.tightenMs > 0 && Flooded(cfg, t, now, retryAfterSec).level >= 1 ==>
           Decay(Flooded(cfg, t, now, retryAfterSec), over, cfg.tightenMs).level
             == Flooded(cfg, t, now, retryAfterSec).level - 1)
  {
    var f := Flooded(cfg, t, now, retryAfterSec);
    DecayIsClosedForm(f, f.until, cfg.tightenMs);
    if cfg.tightenMs > 0 {
      DivSmall(0, cfg.tightenMs);
    }
  }

  /** A longer penalty never tightens less. */
  lemma LongerTightensMore(cfg: Config, t: Tighten, now: int, shorter: int, longer: int)
    requires shorter <= longer
    ensures Flooded(cfg, t, now, shorter).level <= Flooded(cfg, t, now, longer).level
  {
  }

  /** A persisted flood window with that long left is worth as much, and nothing once it is
    * over. */
  lemma PersistedGrades(cfg: Config, t: Tighten, now: int, remainingMs: nat)
    ensures var own, level := Decay(t, now, cfg.tightenMs).level, EffectiveLevel(cfg, t, now, remainingMs);
      && (remainingMs == 0 ==> level == own)
      && (0 < remainingMs <= 5000 ==> level == Max(own, Min(cfg.maxTightenLevel, 1)))
      && (5000 < remainingMs <= 60_000 ==> level == Max(own, Min(cfg.maxTightenLevel, 2)))
      && (60_000 < remainingMs <= 600_000 ==> level == Max(own, Min(cfg.maxTightenLevel, 3)))
      && (600_000 < remainingMs ==> level == Max(own, cfg.maxTightenLevel))
  {
  }
}
