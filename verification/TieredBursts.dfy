/** The admission bounds of the four tiers are attained: what a burst of calls gets out of a rested limiter. */
module TieredBursts {
  import opened Common
  import opened RateLimiting
  import opened TokenBucket
  import opened TieredLimiter

  /** Each limit the call is subject to lets at least `n` tokens be held. */
  predicate BurstsAtLeast(cfg: Config, c: Call, n: nat) {
    && n <= 5 * cfg.defaultRps && n <= 5 * cfg.perIpLimit
    && (c.session.Some? ==> n <= 5 * cfg.perSessionLimit)
    && (c.endpoint.Some? ==> n <= 5 * cfg.perEndpointLimit)
  }

  /** The tier has its bucket already. */
  predicate Present(s: Limiter, tier: Tier) {
    match tier
    case Everyone => true
    case OneIp(ip) => ip in s.ips
    case OneSession(sid) => sid in s.sessions
    case OneEndpoint(ep) => ep in s.endpoints
  }

  ghost predicate AllHold(cfg: Config, s: Limiter, c: Call, amount: real) {
    && Held(cfg, s, Everyone, c.now) >= amount && Held(cfg, s, OneIp(c.ip), c.now) >= amount
    && (c.session.Some? ==> Held(cfg, s, OneSession(c.session.value), c.now) >= amount)
    && (c.endpoint.Some? ==> Held(cfg, s, OneEndpoint(c.endpoint.value), c.now) >= amount)
  }

  lemma ChargeExact<K>(m: map<K, Bucket>, k: K, limit: nat, now: real)
    ensures var (m', granted) := Charge(m, k, limit, now);
            && k in m' && (granted <==> HeldAt(m, k, limit, now) >= 1.0)
            && HeldAt(m', k, limit, now) == HeldAt(m, k, limit, now) - if granted then 1.0 else 0.0
  {
    hide Accrued;
  }

  /** A call is allowed exactly when every bucket it draws on holds a token, and then takes one of each. */
  lemma CallTakesOneEach(cfg: Config, s: Limiter, c: Call)
    ensures CheckRate(cfg, s, c).1 == Allowed <==> AllHold(cfg, s, c, 1.0)
    ensures CheckRate(cfg, s, c).1 == Allowed ==>
              var s' := CheckRate(cfg, s, c).0;
              forall tier :: Draws(tier, c) ==>
                Present(s', tier) && Held(cfg, s', tier, c.now) == Held(cfg, s, tier, c.now) - 1.0
  {
    hide HeldAt;
    ChargeExact(s.ips, c.ip, cfg.perIpLimit, c.now);
    if c.session.Some? {
      ChargeExact(s.sessions, c.session.value, cfg.perSessionLimit, c.now);
    }
    if c.endpoint.Some? {
      ChargeExact(s.endpoints, c.endpoint.value, cfg.perEndpointLimit, c.now);
    }
    var (g, granted) := Consumed(s.global, COST, c.now);
    assert granted <==> Refilled(s.global, c.now).tokens >= 1.0;
    assert granted ==> Refilled(g, c.now).tokens == Refilled(s.global, c.now).tokens - 1.0;
    hide Charge, Consumed, Refilled;
  }

  lemma HeldLater(cfg: Config, s: Limiter, tier: Tier, now: real, later: real)
    requires Inv(cfg, s, now) && Present(s, tier) && now <= later
    ensures Held(cfg, s, tier, later)
         == Min(Held(cfg, s, tier, now) + Accrued(Limit(cfg, tier) as real, later - now), 5.0 * Limit(cfg, tier) as real)
  {
    var limit := Limit(cfg, tier);
    var b := match tier
      case Everyone => s.global
      case OneIp(ip) => s.ips[ip]
      case OneSession(sid) => s.sessions[sid]
      case OneEndpoint(ep) => s.endpoints[ep];
    assert Tuned(b, limit, now);
    AccruedGrows(limit as real, later - now);
    AccruedGrows(limit as real, now - b.lastRefill);
    AccruedAdds(limit as real, now - b.lastRefill, later - now);
    AccruedZero(limit as real);
    assert (now - b.lastRefill) + (later - now) == later - b.lastRefill;
    hide Accrued, Inv;
  }

  /** One call at the start, and so many copies of it when the limiter has rested. */
  function BurstRun(c: Call, start: real, n: nat): (calls: seq<Call>)
    ensures |calls| == n + 1
  {
    [c.(now := start)] + seq(n, i => c)
  }

  ghost predicate EachLimitPositive(cfg: Config, c: Call) {
    forall tier :: Draws(tier, c) ==> Limit(cfg, tier) > 0
  }

  /** Each bucket the call draws on has given `k` tokens since it was full. */
  ghost predicate DrainedBy(cfg: Config, s: Limiter, c: Call, k: nat) {
    forall tier :: Draws(tier, c) ==> Held(cfg, s, tier, c.now) == 5.0 * Limit(cfg, tier) as real - k as real
  }

  lemma CallDrains(cfg: Config, s: Limiter, c: Call, k: nat)
    requires DrainedBy(cfg, s, c, k) && CheckRate(cfg, s, c).1 == Allowed
    ensures DrainedBy(cfg, CheckRate(cfg, s, c).0, c, k + 1)
  {
    hide CheckRate, Held, Draws, Limit;
    CallTakesOneEach(cfg, s, c);
  }

  lemma FiveSecondsFill(limit: nat, seconds: real)
    requires limit > 0 && seconds >= 5.0
    ensures limit as real - 1.0 + Accrued(limit as real, seconds) >= 5.0 * limit as real
  {
    AccruedGrows(limit as real, seconds - 5.0);
    AccruedAdds(limit as real, 5.0, seconds - 5.0);
    assert Accrued(limit as real, 5.0) == 5.0 * limit as real;
  }

  lemma RestedIsFull(cfg: Config, c: Call, start: real, n: nat)
    requires EachLimitPositive(cfg, c) && start + 5.0 <= c.now
    ensures var s := StateAt(cfg, Start(cfg, start), BurstRun(c, start, n), 1);
            DrainedBy(cfg, s, c, 0)
  {
    var first := c.(now := start);
    var s0 := Start(cfg, start);
    StartIsInv(cfg, start);
    assert forall tier :: Draws(tier, c) <==> Draws(tier, first);
    assert forall tier :: Draws(tier, c) ==> Held(cfg, s0, tier, start) == Limit(cfg, tier) as real;
    assert AllHold(cfg, s0, first, 1.0) by {
      assert Draws(Everyone, c) && Draws(OneIp(c.ip), c);
      assert c.session.Some? ==> Draws(OneSession(c.session.value), c);
      assert c.endpoint.Some? ==> Draws(OneEndpoint(c.endpoint.value), c);
    }
    CallTakesOneEach(cfg, s0, first);
    CheckRateKeepsInv(cfg, s0, first, start);
    hide CheckRate, Start;
    var s := CheckRate(cfg, s0, first).0;
    assert StateAt(cfg, s0, BurstRun(c, start, n), 0) == s0;
    assert StateAt(cfg, s0, BurstRun(c, start, n), 1) == s;
    forall tier | Draws(tier, c)
      ensures Held(cfg, s, tier, c.now) == 5.0 * Limit(cfg, tier) as real
    {
      HeldLater(cfg, s, tier, start, c.now);
      FiveSecondsFill(Limit(cfg, tier), c.now - start);
      hide Held;
    }
  }

  lemma AtLeastFewer(cfg: Config, c: Call, k: nat)
    requires k > 0 && BurstsAtLeast(cfg, c, k)
    ensures BurstsAtLeast(cfg, c, k - 1)
  {
  }

  lemma LevelsDecide(cfg: Config, s: Limiter, c: Call, k: nat)
    requires DrainedBy(cfg, s, c, k)
    ensures AllHold(cfg, s, c, 1.0) <==> BurstsAtLeast(cfg, c, k + 1)
  {
    assert Draws(Everyone, c) && Draws(OneIp(c.ip), c);
    assert c.session.Some? ==> Draws(OneSession(c.session.value), c);
    assert c.endpoint.Some? ==> Draws(OneEndpoint(c.endpoint.value), c);
    hide Held;
  }

  lemma LastIsCopy(cfg: Config, c: Call, start: real, n: nat, k: nat)
    requires k < n
    ensures var s := StateAt(cfg, Start(cfg, start), BurstRun(c, start, n), k + 1);
            && DecisionAt(cfg, Start(cfg, start), BurstRun(c, start, n), k + 1) == CheckRate(cfg, s, c).1
            && StateAt(cfg, Start(cfg, start), BurstRun(c, start, n), k + 2) == CheckRate(cfg, s, c).0
  {
    hide CheckRate, Start;
    assert BurstRun(c, start, n)[k + 1] == c;
  }

  lemma {:induction false} BurstDrains(cfg: Config, c: Call, start: real, n: nat, k: nat)
    requires EachLimitPositive(cfg, c) && start + 5.0 <= c.now && k <= n && BurstsAtLeast(cfg, c, k)
    ensures var s := StateAt(cfg, Start(cfg, start), BurstRun(c, start, n), k + 1);
            DrainedBy(cfg, s, c, k)
    decreases k, 0
  {
    hide *;
    if k == 0 {
      RestedIsFull(cfg, c, start, n);
    } else {
      AtLeastFewer(cfg, c, k);
      BurstDrains(cfg, c, start, n, k - 1);
      BurstVerdict(cfg, c, start, n, k - 1);
      var s := StateAt(cfg, Start(cfg, start), BurstRun(c, start, n), k);
      LastIsCopy(cfg, c, start, n, k - 1);
      CallDrains(cfg, s, c, k - 1);
    }
  }

  /** The rested limiter allows as many calls of one kind at one moment as five times the lowest of their
      limits says, and not one more. */
  lemma {:induction false} BurstVerdict(cfg: Config, c: Call, start: real, n: nat, k: nat)
    requires EachLimitPositive(cfg, c) && start + 5.0 <= c.now && k < n && BurstsAtLeast(cfg, c, k)
    ensures DecisionAt(cfg, Start(cfg, start), BurstRun(c, start, n), k + 1) == Allowed
       <==> BurstsAtLeast(cfg, c, k + 1)
    decreases k, 1
  {
    BurstDrains(cfg, c, start, n, k);
    var s := StateAt(cfg, Start(cfg, start), BurstRun(c, start, n), k + 1);
    hide *;
    LevelsDecide(cfg, s, c, k);
    CallTakesOneEach(cfg, s, c);
    LastIsCopy(cfg, c, start, n, k);
  }

  lemma {:induction false} BurstCounts(cfg: Config, c: Call, start: real, n: nat, tier: Tier, k: nat)
    requires EachLimitPositive(cfg, c) && start + 5.0 <= c.now && k <= n && BurstsAtLeast(cfg, c, k)
    requires Draws(tier, c)
    ensures AllowedBetween(cfg, Start(cfg, start), BurstRun(c, start, n), tier, 1, k + 1) == k
    decreases k
  {
    hide Start, DecisionAt;
    if k > 0 {
      BurstCounts(cfg, c, start, n, tier, k - 1);
      BurstVerdict(cfg, c, start, n, k - 1);
      assert BurstRun(c, start, n)[k] == c;
    }
  }

  lemma {:induction false} AllowedGrows(cfg: Config, s: Limiter, calls: seq<Call>, tier: Tier, i: nat, m: nat, n: nat)
    requires i <= m <= n <= |calls|
    ensures AllowedBetween(cfg, s, calls, tier, i, m) <= AllowedBetween(cfg, s, calls, tier, i, n)
    decreases n
  {
    hide DecisionAt;
    if m < n {
      AllowedGrows(cfg, s, calls, tier, i, m, n - 1);
    }
  }

  lemma BurstIsBounded(cfg: Config, c: Call, start: real, n: nat, tier: Tier)
    requires start <= c.now && n > 0
    ensures AllowedBetween(cfg, Start(cfg, start), BurstRun(c, start, n), tier, 1, n + 1) <= 5 * Limit(cfg, tier)
  {
    hide AllowedBetween, Start, Limit;
    var calls := BurstRun(c, start, n);
    WindowAdmissionBound(cfg, start, calls, tier, 1, n);
    AccruedZero(Limit(cfg, tier) as real);
    assert calls[1].now == calls[n].now;
  }

  lemma LowestBursts(cfg: Config, c: Call, tier: Tier)
    requires forall other :: Draws(other, c) ==> Limit(cfg, tier) <= Limit(cfg, other)
    ensures BurstsAtLeast(cfg, c, 5 * Limit(cfg, tier))
  {
    assert Draws(Everyone, c) && Draws(OneIp(c.ip), c);
    assert c.session.Some? ==> Draws(OneSession(c.session.value), c);
    assert c.endpoint.Some? ==> Draws(OneEndpoint(c.endpoint.value), c);
  }

  lemma BurstReaches(cfg: Config, c: Call, start: real, n: nat, tier: Tier, m: nat)
    requires EachLimitPositive(cfg, c) && start + 5.0 <= c.now && Draws(tier, c)
    requires BurstsAtLeast(cfg, c, m) && m <= n
    ensures AllowedBetween(cfg, Start(cfg, start), BurstRun(c, start, n), tier, 1, n + 1) >= m
  {
    BurstCounts(cfg, c, start, n, tier, m);
    AllowedGrows(cfg, Start(cfg, start), BurstRun(c, start, n), tier, 1, m + 1, n + 1);
  }

  /** The admission bound is attained: for a call whose lowest limit is `tier`'s, the burst lets through
      exactly five times that limit, however many calls it has. */
  lemma BurstAttained(cfg: Config, c: Call, start: real, n: nat, tier: Tier)
    requires EachLimitPositive(cfg, c) && start + 5.0 <= c.now && Draws(tier, c)
    requires forall other :: Draws(other, c) ==> Limit(cfg, tier) <= Limit(cfg, other)
    requires 5 * Limit(cfg, tier) <= n
    ensures AllowedBetween(cfg, Start(cfg, start), BurstRun(c, start, n), tier, 1, n + 1) == 5 * Limit(cfg, tier)
  {
    LowestBursts(cfg, c, tier);
    assert Limit(cfg, tier) > 0;
    hide Limit, Draws, BurstsAtLeast, AllowedBetween, EachLimitPositive;
    BurstReaches(cfg, c, start, n, tier, 5 * Limit(cfg, tier));
    BurstIsBounded(cfg, c, start, n, tier);
  }

  /** For one address whose limit is the lower one. */
  lemma AddressBurst(cfg: Config, ip: IpAddr, start: real, now: real, n: nat)
    requires 0 < cfg.perIpLimit <= cfg.defaultRps && start + 5.0 <= now && 5 * cfg.perIpLimit <= n
    ensures AllowedBetween(cfg, Start(cfg, start), BurstRun(Call(ip, None, None, now), start, n), OneIp(ip), 1, n + 1)
         == 5 * cfg.perIpLimit
  {
    BurstAttained(cfg, Call(ip, None, None, now), start, n, OneIp(ip));
  }
}
