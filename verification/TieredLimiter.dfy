/** Configuration and verdicts shared by the two rate limiters. */
module RateLimiting {
  import opened Common

  datatype Config = Config(
    defaultRps: nat,
    perIpLimit: nat,
    perEndpointLimit: nat,
    perSessionLimit: nat,
    adaptiveLearning: bool)

  datatype Decision = Allowed | Queued | Dropped | Challenged

  /** Whose requests a limit is for. */
  datatype Tier = Everyone | OneIp(ip: IpAddr) | OneSession(session: string) | OneEndpoint(endpoint: string)

  /** Tokens one request costs. */
  const COST := 1.0
}

/** The four-tier limiter (`RateLimiter`): one global bucket and lazily created buckets per
    address, session and endpoint. */
module TieredLimiter {
  import opened Common
  import opened RateLimiting
  import opened TokenBucket

  datatype Call = Call(ip: IpAddr, session: Option<string>, endpoint: Option<string>, now: real)

  datatype Limiter = Limiter(
    global: Bucket,
    ips: map<IpAddr, Bucket>,
    sessions: map<string, Bucket>,
    endpoints: map<string, Bucket>)

  function Start(cfg: Config, now: real): Limiter {
    Limiter(Fresh(cfg.defaultRps as real, cfg.defaultRps as real, now), map[], map[], map[])
  }

  /** Take one token from the bucket at `k`, creating a full one first if there is none. */
  function Charge<K>(m: map<K, Bucket>, k: K, limit: nat, now: real): (map<K, Bucket>, bool) {
    var b := if k in m then m[k] else Fresh(limit as real, limit as real, now);
    var (after, granted) := Consumed(b, COST, now);
    (m[k := after], granted)
  }

  function GlobalDegradation(g: Bucket): Decision {
    if g.tokens > g.capacity * 0.2 then Queued else Dropped
  }

  function CheckEndpoint(cfg: Config, s: Limiter, c: Call): (Limiter, Decision) {
    if c.endpoint.None? then (s, Allowed) else
      var (m, granted) := Charge(s.endpoints, c.endpoint.value, cfg.perEndpointLimit, c.now);
      if granted then (s.(endpoints := m), Allowed)
      else (s.(endpoints := m, global := Refunded(s.global, COST)), Dropped)
  }

  function CheckSession(cfg: Config, s: Limiter, c: Call): (Limiter, Decision) {
    if c.session.None? then CheckEndpoint(cfg, s, c) else
      var (m, granted) := Charge(s.sessions, c.session.value, cfg.perSessionLimit, c.now);
      if granted then CheckEndpoint(cfg, s.(sessions := m), c)
      else (s.(sessions := m, global := Refunded(s.global, COST)), Dropped)
  }

  function CheckIp(cfg: Config, s: Limiter, c: Call): (Limiter, Decision) {
    var (m, granted) := Charge(s.ips, c.ip, cfg.perIpLimit, c.now);
    if granted then CheckSession(cfg, s.(ips := m), c) else (s.(ips := m), Dropped)
  }

  function CheckRate(cfg: Config, s: Limiter, c: Call): (Limiter, Decision) {
    var (g, granted) := Consumed(s.global, COST, c.now);
    if granted then CheckIp(cfg, s.(global := g), c) else (s.(global := g), GlobalDegradation(g))
  }

  class RateLimiter {
    const config: Config
    const globalBucket: RateLimitBucket
    var perIpBuckets: map<IpAddr, Bucket>
    var perSessionBuckets: map<string, Bucket>
    var perEndpointBuckets: map<string, Bucket>

    ghost function State(): Limiter
      reads this, globalBucket
    {
      Limiter(globalBucket.State(), perIpBuckets, perSessionBuckets, perEndpointBuckets)
    }

    constructor (config: Config, now: real)
      ensures this.config == config && fresh(globalBucket)
      ensures State() == Start(config, now)
    {
      this.config := config;
      globalBucket := new RateLimitBucket(config.defaultRps as real, config.defaultRps as real, now);
      perIpBuckets, perSessionBuckets, perEndpointBuckets := map[], map[], map[];
    }

    method CheckRateAt(ip: IpAddr, session: Option<string>, endpoint: Option<string>, now: real)
      returns (decision: Decision)
      modifies this, globalBucket
      ensures (State(), decision) == CheckRate(config, old(State()), Call(ip, session, endpoint, now))
    {
      hide Consumed, Refilled, Refunded, Fresh;
      var granted := globalBucket.TryConsume(COST, now);
      if !granted {
        return if globalBucket.tokens > globalBucket.capacity * 0.2 then Queued else Dropped;
      }

      var limit := config.perIpLimit as real;
      var entry := if ip in perIpBuckets then perIpBuckets[ip] else Fresh(limit, limit, now);
      var (charged, ipAllowed) := Consumed(entry, COST, now);
      perIpBuckets := perIpBuckets[ip := charged];
      if !ipAllowed {
        return Dropped;
      }

      if session.Some? {
        var limit := config.perSessionLimit as real;
        var sid := session.value;
        var entry := if sid in perSessionBuckets then perSessionBuckets[sid] else Fresh(limit, limit, now);
        var (charged, sessionAllowed) := Consumed(entry, COST, now);
        perSessionBuckets := perSessionBuckets[sid := charged];
        if !sessionAllowed {
          globalBucket.RefillBucket(COST);
          return Dropped;
        }
      }

      if endpoint.Some? {
        var limit := config.perEndpointLimit as real;
        var ep := endpoint.value;
        var entry := if ep in perEndpointBuckets then perEndpointBuckets[ep] else Fresh(limit, limit, now);
        var (charged, endpointAllowed) := Consumed(entry, COST, now);
        perEndpointBuckets := perEndpointBuckets[ep := charged];
        if !endpointAllowed {
          globalBucket.RefillBucket(COST);
          return Dropped;
        }
      }

      return Allowed;
    }
  }

  // ---- what every call keeps ----

  /** The bucket is one of this limiter's, untouched since `now`. */
  predicate Tuned(b: Bucket, limit: nat, now: real) {
    && b.capacity == b.refillRate == limit as real
    && b.burstCapacity == limit as real * BURST_MULTIPLIER
    && b.burstAllowed && b.lastRefill <= now && 0.0 <= b.tokens <= b.burstCapacity
  }

  ghost predicate AllTuned<K>(m: map<K, Bucket>, limit: nat, now: real) {
    forall k :: k in m ==> Tuned(m[k], limit, now)
  }

  ghost predicate Inv(cfg: Config, s: Limiter, now: real) {
    && Tuned(s.global, cfg.defaultRps, now)
    && AllTuned(s.ips, cfg.perIpLimit, now)
    && AllTuned(s.sessions, cfg.perSessionLimit, now)
    && AllTuned(s.endpoints, cfg.perEndpointLimit, now)
  }

  lemma TunedIsValid(b: Bucket, limit: nat, now: real)
    requires Tuned(b, limit, now)
    ensures b.Valid()
  {
  }

  lemma ConsumeKeepsTuned(b: Bucket, limit: nat, before: real, now: real)
    requires Tuned(b, limit, before) && before <= now
    ensures Tuned(Consumed(b, COST, now).0, limit, now)
    ensures Consumed(b, COST, now).0.lastRefill == now
  {
    TunedIsValid(b, limit, before);
    RefillKeepsValid(b, now);
  }

  lemma ChargeKeepsTuned<K>(m: map<K, Bucket>, k: K, limit: nat, before: real, now: real)
    requires AllTuned(m, limit, before) && before <= now
    ensures AllTuned(Charge(m, k, limit, now).0, limit, now)
  {
    if k in m {
      ConsumeKeepsTuned(m[k], limit, before, now);
    } else {
      ConsumeKeepsTuned(Fresh(limit as real, limit as real, now), limit, now, now);
    }
  }

  lemma TunedLater<K>(m: map<K, Bucket>, limit: nat, before: real, now: real)
    requires AllTuned(m, limit, before) && before <= now
    ensures AllTuned(m, limit, now)
  {
  }

  lemma RefundKeepsTuned(b: Bucket, limit: nat, now: real)
    requires Tuned(b, limit, now)
    ensures Tuned(Refunded(b, COST), limit, now)
  {
  }

  lemma CheckEndpointKeepsInv(cfg: Config, s: Limiter, c: Call)
    requires Inv(cfg, s, c.now)
    ensures Inv(cfg, CheckEndpoint(cfg, s, c).0, c.now)
  {
    if c.endpoint.Some? {
      ChargeKeepsTuned(s.endpoints, c.endpoint.value, cfg.perEndpointLimit, c.now, c.now);
      RefundKeepsTuned(s.global, cfg.defaultRps, c.now);
    }
  }

  lemma CheckSessionKeepsInv(cfg: Config, s: Limiter, c: Call)
    requires Inv(cfg, s, c.now)
    ensures Inv(cfg, CheckSession(cfg, s, c).0, c.now)
  {
    if c.session.None? {
      CheckEndpointKeepsInv(cfg, s, c);
    } else {
      var (m, _) := Charge(s.sessions, c.session.value, cfg.perSessionLimit, c.now);
      ChargeKeepsTuned(s.sessions, c.session.value, cfg.perSessionLimit, c.now, c.now);
      RefundKeepsTuned(s.global, cfg.defaultRps, c.now);
      CheckEndpointKeepsInv(cfg, s.(sessions := m), c);
    }
  }

  lemma CheckRateKeepsInv(cfg: Config, s: Limiter, c: Call, before: real)
    requires Inv(cfg, s, before) && before <= c.now
    ensures Inv(cfg, CheckRate(cfg, s, c).0, c.now)
  {
    var (g, _) := Consumed(s.global, COST, c.now);
    ConsumeKeepsTuned(s.global, cfg.defaultRps, before, c.now);
    var (m, _) := Charge(s.ips, c.ip, cfg.perIpLimit, c.now);
    ChargeKeepsTuned(s.ips, c.ip, cfg.perIpLimit, before, c.now);
    TunedLater(s.ips, cfg.perIpLimit, before, c.now);
    TunedLater(s.sessions, cfg.perSessionLimit, before, c.now);
    TunedLater(s.endpoints, cfg.perEndpointLimit, before, c.now);
    CheckSessionKeepsInv(cfg, s.(global := g, ips := m), c);
  }

  // ---- how much one call can draw from a tier ----

  predicate Draws(tier: Tier, c: Call) {
    match tier
    case Everyone => true
    case OneIp(ip) => c.ip == ip
    case OneSession(sid) => c.session == Some(sid)
    case OneEndpoint(ep) => c.endpoint == Some(ep)
  }

  function Limit(cfg: Config, tier: Tier): nat {
    match tier
    case Everyone => cfg.defaultRps
    case OneIp(_) => cfg.perIpLimit
    case OneSession(_) => cfg.perSessionLimit
    case OneEndpoint(_) => cfg.perEndpointLimit
  }

  function HeldAt<K>(m: map<K, Bucket>, k: K, limit: nat, now: real): real {
    if k in m then Refilled(m[k], now).tokens else limit as real
  }

  /** Tokens the tier could hand out at `now`; a bucket not created yet would start full. */
  function Held(cfg: Config, s: Limiter, tier: Tier, now: real): real {
    match tier
    case Everyone => Refilled(s.global, now).tokens
    case OneIp(ip) => HeldAt(s.ips, ip, cfg.perIpLimit, now)
    case OneSession(sid) => HeldAt(s.sessions, sid, cfg.perSessionLimit, now)
    case OneEndpoint(ep) => HeldAt(s.endpoints, ep, cfg.perEndpointLimit, now)
  }

  lemma ChargeDraws<K>(m: map<K, Bucket>, k: K, limit: nat, before: real, now: real, other: K)
    requires AllTuned(m, limit, before) && before <= now
    ensures var (m', granted) := Charge(m, k, limit, now);
            HeldAt(m', other, limit, now) + CountIf(k == other && granted) as real == HeldAt(m, other, limit, now)
  {
  }

  lemma EndpointDraws(cfg: Config, s: Limiter, c: Call, ep: string)
    requires Inv(cfg, s, c.now)
    ensures var (s', d) := CheckEndpoint(cfg, s, c);
            && s'.ips == s.ips && s'.sessions == s.sessions
            && s'.global.lastRefill == s.global.lastRefill
            && s'.global.tokens <= s.global.tokens + CountIf(d != Allowed) as real
            && HeldAt(s'.endpoints, ep, cfg.perEndpointLimit, c.now)
                 + CountIf(d == Allowed && c.endpoint == Some(ep)) as real
            <= HeldAt(s.endpoints, ep, cfg.perEndpointLimit, c.now)
  {
    if c.endpoint.Some? {
      ChargeDraws(s.endpoints, c.endpoint.value, cfg.perEndpointLimit, c.now, c.now, ep);
    }
  }

  lemma SessionDraws(cfg: Config, s: Limiter, c: Call, sid: string, ep: string)
    requires Inv(cfg, s, c.now)
    ensures var (s', d) := CheckSession(cfg, s, c);
            && s'.ips == s.ips
            && s'.global.lastRefill == s.global.lastRefill
            && s'.global.tokens <= s.global.tokens + CountIf(d != Allowed) as real
            && HeldAt(s'.sessions, sid, cfg.perSessionLimit, c.now)
                 + CountIf(d == Allowed && c.session == Some(sid)) as real
            <= HeldAt(s.sessions, sid, cfg.perSessionLimit, c.now)
            && HeldAt(s'.endpoints, ep, cfg.perEndpointLimit, c.now)
                 + CountIf(d == Allowed && c.endpoint == Some(ep)) as real
            <= HeldAt(s.endpoints, ep, cfg.perEndpointLimit, c.now)
  {
    if c.session.None? {
      EndpointDraws(cfg, s, c, ep);
    } else {
      var (m, _) := Charge(s.sessions, c.session.value, cfg.perSessionLimit, c.now);
      ChargeDraws(s.sessions, c.session.value, cfg.perSessionLimit, c.now, c.now, sid);
      ChargeKeepsTuned(s.sessions, c.session.value, cfg.perSessionLimit, c.now, c.now);
      EndpointDraws(cfg, s.(sessions := m), c, ep);
    }
  }

  lemma CallDrawsEach(cfg: Config, s: Limiter, c: Call, before: real, ip: IpAddr, sid: string, ep: string)
    requires Inv(cfg, s, before) && before <= c.now
    ensures var (s', d) := CheckRate(cfg, s, c);
            && s'.global.lastRefill == c.now
            && s'.global.tokens + CountIf(d == Allowed) as real <= Refilled(s.global, c.now).tokens
            && HeldAt(s'.ips, ip, cfg.perIpLimit, c.now) + CountIf(d == Allowed && c.ip == ip) as real
            <= HeldAt(s.ips, ip, cfg.perIpLimit, c.now)
            && HeldAt(s'.sessions, sid, cfg.perSessionLimit, c.now)
                 + CountIf(d == Allowed && c.session == Some(sid)) as real
            <= HeldAt(s.sessions, sid, cfg.perSessionLimit, c.now)
            && HeldAt(s'.endpoints, ep, cfg.perEndpointLimit, c.now)
                 + CountIf(d == Allowed && c.endpoint == Some(ep)) as real
            <= HeldAt(s.endpoints, ep, cfg.perEndpointLimit, c.now)
  {
    CheckRateKeepsInv(cfg, s, c, before);
    var (g, granted) := Consumed(s.global, COST, c.now);
    ConsumeKeepsTuned(s.global, cfg.defaultRps, before, c.now);
    var (m, _) := Charge(s.ips, c.ip, cfg.perIpLimit, c.now);
    ChargeDraws(s.ips, c.ip, cfg.perIpLimit, before, c.now, ip);
    ChargeKeepsTuned(s.ips, c.ip, cfg.perIpLimit, before, c.now);
    TunedLater(s.sessions, cfg.perSessionLimit, before, c.now);
    TunedLater(s.endpoints, cfg.perEndpointLimit, before, c.now);
    SessionDraws(cfg, s.(global := g, ips := m), c, sid, ep);
  }

  /** An allowed call costs every tier it draws on one token; a refused call never adds tokens,
      in spite of the refund to the global bucket. */
  lemma CallDraws(cfg: Config, s: Limiter, c: Call, tier: Tier, before: real)
    requires Inv(cfg, s, before) && before <= c.now
    ensures var (s', d) := CheckRate(cfg, s, c);
            Held(cfg, s', tier, c.now) + CountIf(d == Allowed && Draws(tier, c)) as real <= Held(cfg, s, tier, c.now)
  {
    hide CheckRate;
    CallDrawsEach(cfg, s, c, before,
                  if tier.OneIp? then tier.ip else c.ip,
                  if tier.OneSession? then tier.session else "",
                  if tier.OneEndpoint? then tier.endpoint else "");
  }

  lemma HeldAccrues(cfg: Config, s: Limiter, tier: Tier, before: real, first: real, second: real)
    requires Inv(cfg, s, before) && before <= first <= second
    ensures Held(cfg, s, tier, second)
         <= Held(cfg, s, tier, first) + Accrued(Limit(cfg, tier) as real, second - first)
    ensures 0.0 <= Held(cfg, s, tier, first) <= Limit(cfg, tier) as real * 5.0
  {
    var limit := Limit(cfg, tier);
    AccruedGrows(limit as real, second - first);
    var bucket := match tier
      case Everyone => Some(s.global)
      case OneIp(ip) => if ip in s.ips then Some(s.ips[ip]) else None
      case OneSession(sid) => if sid in s.sessions then Some(s.sessions[sid]) else None
      case OneEndpoint(ep) => if ep in s.endpoints then Some(s.endpoints[ep]) else None;
    if bucket.Some? {
      TunedIsValid(bucket.value, limit, before);
      RefillKeepsValid(bucket.value, first);
      RefillRateBound(bucket.value, first, second);
    }
  }

  /** What the refund leaves: the tokens the global bucket held before the call, cut down to the
      plain capacity. It undoes the take exactly when the bucket held no burst credit; otherwise
      the refused call costs all of that credit. */
  lemma RefundUndoesTakeIff(cfg: Config, s: Limiter, c: Call, before: real)
    requires Inv(cfg, s, before) && before <= c.now
    requires Consumed(s.global, COST, c.now).1 && Charge(s.ips, c.ip, cfg.perIpLimit, c.now).1
    requires CheckRate(cfg, s, c).1 != Allowed
    ensures var g := Refilled(s.global, c.now);
            var g' := CheckRate(cfg, s, c).0.global;
            && g'.tokens == Min(g.tokens, g.capacity)
            && (g'.tokens == g.tokens <==> g.tokens <= g.capacity)
  {
  }

  /** The verdicts of refusal: nothing is ever challenged; a request is queued exactly when the global bucket
      has no whole token but more than a fifth of its capacity, which takes fewer than five requests a
      second. */
  lemma QueuedOnlyIfTiny(cfg: Config, s: Limiter, c: Call, before: real)
    requires Inv(cfg, s, before) && before <= c.now
    ensures CheckRate(cfg, s, c).1 != Challenged
    ensures var level := Refilled(s.global, c.now).tokens;
            CheckRate(cfg, s, c).1 == Queued <==> level < 1.0 && 5.0 * level > cfg.defaultRps as real
    ensures CheckRate(cfg, s, c).1 == Queued ==> cfg.defaultRps < 5
  {
    hide Charge;
  }

  // ---- whole runs ----

  function StateAt(cfg: Config, s: Limiter, calls: seq<Call>, n: nat): Limiter
    requires n <= |calls|
  {
    if n == 0 then s else CheckRate(cfg, StateAt(cfg, s, calls, n - 1), calls[n - 1]).0
  }

  function DecisionAt(cfg: Config, s: Limiter, calls: seq<Call>, n: nat): Decision
    requires n < |calls|
  {
    CheckRate(cfg, StateAt(cfg, s, calls, n), calls[n]).1
  }

  /** The clock when call number `n` begins: that of the call before it. */
  function ClockAt(start: real, calls: seq<Call>, n: nat): real
    requires n <= |calls|
  {
    if n == 0 then start else calls[n - 1].now
  }

  function At(c: Call): real {
    c.now
  }

  lemma {:induction false} RunKeepsInv(cfg: Config, s: Limiter, start: real, calls: seq<Call>, n: nat)
    requires n <= |calls| && Chronological(start, calls, At) && Inv(cfg, s, start)
    ensures Inv(cfg, StateAt(cfg, s, calls, n), ClockAt(start, calls, n))
  {
    if n > 0 {
      RunKeepsInv(cfg, s, start, calls, n - 1);
      CheckRateKeepsInv(cfg, StateAt(cfg, s, calls, n - 1), calls[n - 1], ClockAt(start, calls, n - 1));
    }
  }

  /** Calls number `i` up to but not including `n` that drew on the tier and were allowed. */
  function AllowedBetween(cfg: Config, s: Limiter, calls: seq<Call>, tier: Tier, i: nat, n: nat): nat
    requires i <= n <= |calls|
  {
    if n == i then 0 else
      AllowedBetween(cfg, s, calls, tier, i, n - 1)
      + CountIf(DecisionAt(cfg, s, calls, n - 1) == Allowed && Draws(tier, calls[n - 1]))
  }

  lemma {:induction false} DrawnSince(
    cfg: Config, s: Limiter, start: real, calls: seq<Call>, tier: Tier, i: nat, n: nat)
    requires i < n <= |calls| && Chronological(start, calls, At) && Inv(cfg, s, start)
    ensures calls[i].now <= calls[n - 1].now
    ensures Held(cfg, StateAt(cfg, s, calls, n), tier, calls[n - 1].now)
              + AllowedBetween(cfg, s, calls, tier, i, n) as real
         <= Held(cfg, StateAt(cfg, s, calls, i), tier, calls[i].now)
              + Accrued(Limit(cfg, tier) as real, calls[n - 1].now - calls[i].now)
  {
    hide Accrued, CheckRate, Inv;
    var last := calls[n - 1];
    var before := StateAt(cfg, s, calls, n - 1);
    RunKeepsInv(cfg, s, start, calls, n - 1);
    CallDraws(cfg, before, last, tier, ClockAt(start, calls, n - 1));
    if i == n - 1 {
      AccruedZero(Limit(cfg, tier) as real);
    } else {
      DrawnSince(cfg, s, start, calls, tier, i, n - 1);
      var previous := calls[n - 2].now;
      HeldAccrues(cfg, before, tier, previous, previous, last.now);
      AccruedAdds(Limit(cfg, tier) as real, previous - calls[i].now, last.now - previous);
      assert (previous - calls[i].now) + (last.now - previous) == last.now - calls[i].now;
    }
  }

  lemma StartIsInv(cfg: Config, start: real)
    ensures Inv(cfg, Start(cfg, start), start)
  {
  }

  /** The admission bound of every tier, in every window of every run: between any two calls the
      limiter allows at most the tier's burst capacity plus its rate times the time between them. */
  lemma WindowAdmissionBound(cfg: Config, start: real, calls: seq<Call>, tier: Tier, i: nat, j: nat)
    requires i <= j < |calls| && Chronological(start, calls, At)
    ensures AllowedBetween(cfg, Start(cfg, start), calls, tier, i, j + 1) as real
         <= Limit(cfg, tier) as real * 5.0 + Accrued(Limit(cfg, tier) as real, calls[j].now - calls[i].now)
  {
    hide Accrued, Inv, Start, StateAt, AllowedBetween;
    var s := Start(cfg, start);
    StartIsInv(cfg, start);
    DrawnSince(cfg, s, start, calls, tier, i, j + 1);
    RunKeepsInv(cfg, s, start, calls, i);
    assert ClockAt(start, calls, i) <= calls[i].now;
    HeldAccrues(cfg, StateAt(cfg, s, calls, i), tier, ClockAt(start, calls, i), calls[i].now, calls[i].now);
    RunKeepsInv(cfg, s, start, calls, j + 1);
    HeldAccrues(cfg, StateAt(cfg, s, calls, j + 1), tier, calls[j].now, calls[j].now, calls[j].now);
  }
}
