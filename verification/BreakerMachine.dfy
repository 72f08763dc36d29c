/** The circuit breaker of one provider and model, as a machine on values: the
    part of it that never talks to a shared store. Instants and durations are
    nanoseconds; every operation takes the instant at which it runs. */
module BreakerMachine {

  datatype State = Closed | Open | HalfOpen

  datatype Config = Config(
    failureThreshold: int,
    window: int,
    cooldownBase: int,
    cooldownMax: int,
    successThreshold: int,
    probeTimeout: int,
    stateCacheTTL: int)
  {
    /** What the constructor's validation accepts, with the int64 range of a duration. */
    predicate Valid() {
      && failureThreshold > 0
      && window > 0
      && cooldownBase > 0
      && cooldownBase <= cooldownMax < INT64_LIMIT
      && successThreshold > 0
      && probeTimeout > 0
      && stateCacheTTL > 0
    }

    /** The doubled cooldown never leaves int64. */
    predicate NoOverflow() {
      cooldownBase * Pow2(MAX_COOLDOWN_EXPONENT) < INT64_LIMIT
    }
  }

  const MAX_COOLDOWN_EXPONENT: nat := 20
  const INT64_LIMIT: int := 0x8000_0000_0000_0000

  function Pow2(n: nat): (p: nat)
    ensures p >= 1
  {
    if n == 0 then 1 else 2 * Pow2(n - 1)
  }

  /** Two's complement truncation to 64 bits. */
  function Wrap64(x: int): int {
    (x + INT64_LIMIT) % (2 * INT64_LIMIT) - INT64_LIMIT
  }

  function Exponent(reopens: int): (e: nat)
    ensures e <= MAX_COOLDOWN_EXPONENT
  {
    var e := reopens - 1;
    if e < 0 then 0 else if e > MAX_COOLDOWN_EXPONENT then MAX_COOLDOWN_EXPONENT else e
  }

  /** The wait before the next probe, computed with an int64 shift. */
  function NextCooldown(cfg: Config, reopens: int): int {
    var d := Wrap64(cfg.cooldownBase * Pow2(Exponent(reopens)));
    if d <= 0 || d > cfg.cooldownMax then cfg.cooldownMax else d
  }

  /** The wait the configuration describes: doubled per consecutive episode, capped. */
  function IdealCooldown(cfg: Config, episode: int): int {
    var d := cfg.cooldownBase * Pow2(Exponent(episode));
    if d > cfg.cooldownMax then cfg.cooldownMax else d
  }

  // ----- the machine -----

  datatype Machine = Machine(
    state: State,
    failures: seq<int>,
    successStreak: int,
    probeInFlight: bool,
    probeStartedAt: int,
    openedAt: int,
    cooldown: int,
    reopens: int)

  function Initial(cfg: Config): Machine {
    Machine(Closed, [], 0, false, 0, 0, cfg.cooldownBase, 0)
  }

  /** Drops the leading timestamps older than the cutoff. */
  function PruneBefore(ts: seq<int>, cutoff: int): seq<int> {
    if ts != [] && ts[0] < cutoff then PruneBefore(ts[1..], cutoff) else ts
  }

  function SetState(m: Machine, next: State, now: int): Machine {
    m.(state := next,
       openedAt := if next.Open? then now else m.openedAt,
       probeInFlight := false)
  }

  function ClaimProbe(cfg: Config, m: Machine, now: int): (Machine, bool) {
    if m.probeInFlight && now - m.probeStartedAt < cfg.probeTimeout then
      (m, false)
    else
      (m.(probeInFlight := true, probeStartedAt := now), true)
  }

  function AllowLocal(cfg: Config, m: Machine, now: int): (Machine, bool) {
    var m1 := if m.state.Open? && now - m.openedAt >= m.cooldown then SetState(m, HalfOpen, now) else m;
    match m1.state
    case Closed => (m1, true)
    case HalfOpen => ClaimProbe(cfg, m1, now)
    case Open => (m1, false)
  }

  function ReleaseProbe(m: Machine): Machine {
    m.(probeInFlight := false)
  }

  function OpenUp(cfg: Config, m: Machine, now: int): Machine {
    var reopens := m.reopens + 1;
    SetState(m.(reopens := reopens, cooldown := NextCooldown(cfg, reopens), successStreak := 0, failures := []),
             Open, now)
  }

  function SuccessLocal(cfg: Config, m0: Machine, now: int): Machine {
    var m := ReleaseProbe(m0);
    if !m.state.HalfOpen? then m
    else
      var m1 := m.(successStreak := m.successStreak + 1);
      if m1.successStreak >= cfg.successThreshold then
        SetState(m1.(reopens := 0, cooldown := cfg.cooldownBase), Closed, now)
      else m1
  }

  function FailureLocal(cfg: Config, m0: Machine, now: int): Machine {
    var m := ReleaseProbe(m0);
    match m.state
    case HalfOpen => OpenUp(cfg, m, now)
    case Open => m
    case Closed =>
      var m1 := m.(failures := PruneBefore(m.failures + [now], now - cfg.window));
      if |m1.failures| < cfg.failureThreshold then m1 else OpenUp(cfg, m1, now)
  }

  function ResetLocal(cfg: Config, m0: Machine, now: int): Machine {
    var m := m0.(failures := [], successStreak := 0, reopens := 0, cooldown := cfg.cooldownBase,
                 probeInFlight := false);
    if !m.state.Closed? then SetState(m, Closed, now) else m
  }

  // ----- calls -----

  datatype Event =
    | Allow(now: int)
    | Success(now: int)
    | Failure(now: int)
    | Reset(now: int)

  /** One call, and whether it admitted a request. */
  function Step(cfg: Config, m: Machine, e: Event): (Machine, bool) {
    match e
    case Allow(now) => AllowLocal(cfg, m, now)
    case Success(now) => (SuccessLocal(cfg, m, now), false)
    case Failure(now) => (FailureLocal(cfg, m, now), false)
    case Reset(now) => (ResetLocal(cfg, m, now), false)
  }

  // ----- the cooldown -----

  lemma {:induction false} Pow2Monotone(m: nat, n: nat)
    requires m <= n
    ensures Pow2(m) <= Pow2(n)
    decreases n
  {
    if m < n { Pow2Monotone(m, n - 1); }
  }

  lemma Wrap64InRange(x: int)
    requires 0 <= x < INT64_LIMIT
    ensures Wrap64(x) == x
  {
  }

  /** The shift computes the configured cooldown exactly when it does not wrap
      into the open interval between zero and the cap. */
  lemma CooldownExact(cfg: Config, episode: int)
    requires cfg.Valid()
    ensures var shifted := cfg.cooldownBase * Pow2(Exponent(episode));
            NextCooldown(cfg, episode) == IdealCooldown(cfg, episode)
            <==> (shifted < INT64_LIMIT || !(0 < Wrap64(shifted) < cfg.cooldownMax))
  {
    var power := Pow2(Exponent(episode));
    MulMonotone(cfg.cooldownBase, 1, power);
    WrapDecides(cfg.cooldownBase * power, cfg.cooldownMax);
  }

  function Capped(d: int, max: int): int {
    if d <= 0 || d > max then max else d
  }

  lemma WrapDecides(shifted: int, max: int)
    requires shifted > 0 && 0 < max < INT64_LIMIT
    ensures Capped(Wrap64(shifted), max) == Capped(shifted, max)
            <==> (shifted < INT64_LIMIT || !(0 < Wrap64(shifted) < max))
  {
    if shifted < INT64_LIMIT { Wrap64InRange(shifted); }
  }

  /** A base of 2^44 + 1 ns wraps at the twenty-first episode to about a millisecond. */
  lemma CooldownWraps()
    ensures var cfg := Config(1, 1, 0x1000_0000_0001, 0x1000_0000_0001, 1, 1, 1);
            && cfg.Valid()
            && IdealCooldown(cfg, 21) == 0x1000_0000_0001
            && NextCooldown(cfg, 21) == 0x10_0000
  {
    Pow2Of20();
  }

  lemma Pow2Of20()
    ensures Pow2(20) == 0x10_0000
  {
    assert Pow2(5) == 32;
    assert Pow2(10) == 1024;
    assert Pow2(15) == 32768;
  }

  lemma CooldownExactWithoutOverflow(cfg: Config, episode: int)
    requires cfg.Valid() && cfg.NoOverflow()
    ensures NextCooldown(cfg, episode) == IdealCooldown(cfg, episode)
  {
    var e := Exponent(episode);
    Pow2Monotone(e, MAX_COOLDOWN_EXPONENT);
    MulMonotone(cfg.cooldownBase, Pow2(e), Pow2(MAX_COOLDOWN_EXPONENT));
    CooldownExact(cfg, episode);
  }

  lemma MulMonotone(k: int, a: int, b: int)
    requires k >= 0 && a <= b
    ensures k * a <= k * b
  {
  }

  lemma QuotientBound(n: int, d: int, k: int)
    requires k > 0 && n * k <= d
    ensures n <= d / k
  {
    if n > d / k {
      MulMonotone(k, d / k + 1, n);
      assert false;
    }
  }

  // ----- what the cooldown and the truncation are -----

  /** Truncation stays in range and changes the value by a multiple of 2^64. */
  lemma Wrap64Congruent(x: int)
    ensures -INT64_LIMIT <= Wrap64(x) < INT64_LIMIT && (x - Wrap64(x)) % (2 * INT64_LIMIT) == 0
  {
    var m := 2 * INT64_LIMIT;
    var y := x + INT64_LIMIT;
    assert x - Wrap64(x) == m * (y / m);
  }

  /** The first cooldown is the base; each one after it is double the one before, up to the cap
      and up to the twenty-first. */
  lemma CooldownDoubles(cfg: Config, episode: int)
    requires cfg.Valid()
    ensures IdealCooldown(cfg, 1) == cfg.cooldownBase
    ensures episode >= 1 ==>
              var now, next := IdealCooldown(cfg, episode), IdealCooldown(cfg, episode + 1);
              next == if episode > 20 then now else if 2 * now > cfg.cooldownMax then cfg.cooldownMax else 2 * now
  {
    if 1 <= episode <= 20 {
      var p := Pow2(Exponent(episode));
      assert Pow2(Exponent(episode + 1)) == 2 * p;
      DoubleProduct(cfg.cooldownBase, p);
    }
  }

  lemma DoubleProduct(k: int, p: int)
    ensures k * (2 * p) == 2 * (k * p)
  {
  }
}
