/** The caching limiter (`DistributedRateLimiter`): entries are created on first use, hold at most
    their capacity, and are dropped from the cache after standing idle for 180 seconds. */
module LocalLimiter {
  import opened Common
  import opened RateLimiting
  import TokenBucket

  const CLEANUP_INTERVAL := 30.0
  const IDLE_LIMIT := 180.0

  datatype Key = Ip(ip: IpAddr) | Session(id: string) | Endpoint(path: string) | Global

  datatype Entry = Entry(
    tokens: real,
    capacity: real,
    refillRate: real,
    lastRefill: real,
    burstAllowed: bool,
    trafficEma: real)

  datatype Call = Call(ip: IpAddr, endpoint: Option<string>, session: Option<string>, now: real)

  type Cache = map<Key, Entry>
  datatype State = State(cache: Cache, lastCleanup: real)

  function ResolveLimits(cfg: Config, thresholds: map<Key, real>, key: Key): (real, real) {
    match key
    case Ip(_) =>
      var threshold := if key in thresholds then thresholds[key] else 0.0;
      var base := cfg.perIpLimit as real;
      var adjustment := if threshold > 0.0 && cfg.adaptiveLearning then Min(threshold * 0.5, base * 0.5) else 0.0;
      var capacity := Max(base - adjustment, cfg.defaultRps as real * 0.1);
      (capacity, capacity)
    case Session(_) => (cfg.perSessionLimit as real, cfg.perSessionLimit as real)
    case Endpoint(_) => (cfg.perEndpointLimit as real, cfg.perEndpointLimit as real)
    case Global => (cfg.defaultRps as real, cfg.defaultRps as real)
  }

  function FreshEntry(limits: (real, real), now: real): Entry {
    Entry(limits.0, limits.0, limits.1, now, true, 0.0)
  }

  function RefilledEntry(e: Entry, now: real): Entry {
    e.(tokens := if Elapsed(e.lastRefill, now) > 0.0
                 then Min(e.tokens + Accrued(e.refillRate, Elapsed(e.lastRefill, now)), e.capacity) else e.tokens,
       lastRefill := now)
  }

  /** Take `cost` tokens; the traffic average moves whether or not they were there. */
  function LocalTake(e: Entry, cost: real, now: real): (Entry, bool) {
    var r := RefilledEntry(e, now);
    var seen := r.(trafficEma := TokenBucket.Ema(cost, r.trafficEma));
    if r.tokens >= cost then (seen.(tokens := r.tokens - cost), true) else (seen, false)
  }

  /** The entry a gate works on: the cached one or a fresh one. */
  function EntryFor(cfg: Config, thresholds: map<Key, real>, cache: Cache, key: Key, now: real): Entry {
    if key in cache then cache[key] else FreshEntry(ResolveLimits(cfg, thresholds, key), now)
  }

  function CheckLocalBucket(cfg: Config, thresholds: map<Key, real>, cache: Cache, key: Key, cost: real, now: real)
    : (Cache, bool)
  {
    var e := EntryFor(cfg, thresholds, cache, key, now);
    var (after, granted) := LocalTake(e, cost, now);
    (cache[key := after], granted)
  }

  function Degradation(e: Entry): Decision {
    if e.tokens > e.capacity * 0.2 then Queued
    else if e.trafficEma > e.refillRate * 1.5 then Challenged
    else Dropped
  }

  function GracefulDegradation(cache: Cache, key: Key): Decision {
    if key in cache then Degradation(cache[key]) else Dropped
  }

  /** Take one token under one key, or say how the request is degraded. */
  function Gate(cfg: Config, thresholds: map<Key, real>, cache: Cache, key: Key, now: real): (Cache, Decision) {
    var (after, granted) := CheckLocalBucket(cfg, thresholds, cache, key, COST, now);
    (after, if granted then Allowed else GracefulDegradation(after, key))
  }

  /** Pass the keys in order, stopping at the first that does not allow the request. */
  function Gates(cfg: Config, thresholds: map<Key, real>, cache: Cache, keys: seq<Key>, now: real): (Cache, Decision)
    decreases |keys|
  {
    if keys == [] then (cache, Allowed) else
      var (after, d) := Gate(cfg, thresholds, cache, keys[0], now);
      if d == Allowed then Gates(cfg, thresholds, after, keys[1..], now) else (after, d)
  }

  function KeysOf(c: Call): seq<Key> {
    [Ip(c.ip)]
    + (if c.session.Some? then [Session(c.session.value)] else [])
    + (if c.endpoint.Some? then [Endpoint(c.endpoint.value)] else [])
    + [Global]
  }

  function Retained(cache: Cache, now: real): Cache {
    map k | k in cache && Elapsed(cache[k].lastRefill, now) < IDLE_LIMIT :: cache[k]
  }

  function CleanedUp(st: State, now: real): State {
    if Elapsed(st.lastCleanup, now) < CLEANUP_INTERVAL then st else State(Retained(st.cache, now), now)
  }

  function CheckRate(cfg: Config, thresholds: map<Key, real>, st: State, c: Call): (State, Decision) {
    var (after, d) := Gates(cfg, thresholds, st.cache, KeysOf(c), c.now);
    (CleanedUp(st.(cache := after), c.now), d)
  }

  lemma GatesInOrder(cfg: Config, thresholds: map<Key, real>, cache: Cache, first: seq<Key>, second: seq<Key>, now: real)
    ensures var (after, d) := Gates(cfg, thresholds, cache, first, now);
            (Gates(cfg, thresholds, cache, first + second, now)
             == if d == Allowed then Gates(cfg, thresholds, after, second, now) else (after, d))
    decreases |first|
  {
    hide Gate;
    if first == [] {
      assert first + second == second;
    } else {
      var (after, d) := Gate(cfg, thresholds, cache, first[0], now);
      assert (first + second)[1..] == first[1..] + second;
      GatesInOrder(cfg, thresholds, after, first[1..], second, now);
    }
  }

  class DistributedRateLimiter {
    const config: Config
    var localCache: Cache
    var adaptiveThresholds: map<Key, real>
    var lastCleanup: real

    constructor (config: Config, now: real)
      ensures this.config == config && localCache == map[] && adaptiveThresholds == map[] && lastCleanup == now
    {
      this.config := config;
      localCache, adaptiveThresholds, lastCleanup := map[], map[], now;
    }

    method CheckBucket(key: Key, cost: real, now: real) returns (granted: bool)
      modifies this`localCache
      ensures (localCache, granted)
           == CheckLocalBucket(config, adaptiveThresholds, old(localCache), key, cost, now)
    {
      var entry := if key in localCache then localCache[key]
                   else FreshEntry(ResolveLimits(config, adaptiveThresholds, key), now);
      var elapsed := Elapsed(entry.lastRefill, now);
      var tokens := entry.tokens;
      if elapsed > 0.0 {
        tokens := Min(tokens + elapsed * entry.refillRate, entry.capacity);
      }
      var ema := TokenBucket.EMA_ALPHA * cost + (1.0 - TokenBucket.EMA_ALPHA) * entry.trafficEma;
      granted := tokens >= cost;
      if granted {
        tokens := tokens - cost;
      }
      localCache := localCache[key := entry.(tokens := tokens, lastRefill := now, trafficEma := ema)];
    }

    method CheckGate(key: Key, now: real) returns (decision: Decision)
      modifies this`localCache
      ensures (localCache, decision) == Gate(config, adaptiveThresholds, old(localCache), key, now)
    {
      var granted := CheckBucket(key, COST, now);
      decision := if granted then Allowed else GracefulDegradation(localCache, key);
    }

    method SetAdaptiveThreshold(key: Key, threshold: real)
      modifies this`adaptiveThresholds
      ensures adaptiveThresholds == old(adaptiveThresholds)[key := threshold]
    {
      adaptiveThresholds := adaptiveThresholds[key := threshold];
    }

    method MaybeCleanup(now: real)
      modifies this`localCache, this`lastCleanup
      ensures State(localCache, lastCleanup) == CleanedUp(old(State(localCache, lastCleanup)), now)
    {
      if Elapsed(lastCleanup, now) < CLEANUP_INTERVAL {
        return;
      }
      lastCleanup := now;
      localCache := map k | k in localCache && Elapsed(localCache[k].lastRefill, now) < IDLE_LIMIT :: localCache[k];
    }

    method CheckRateAt(ip: IpAddr, endpoint: Option<string>, session: Option<string>, now: real)
      returns (decision: Decision)
      modifies this`localCache, this`lastCleanup
      ensures (State(localCache, lastCleanup), decision)
           == CheckRate(config, adaptiveThresholds, old(State(localCache, lastCleanup)), Call(ip, endpoint, session, now))
    {
      hide Gate, Retained;
      ghost var start := localCache;
      ghost var passed := [Ip(ip)];
      decision := CheckGate(Ip(ip), now);
      assert (localCache, decision) == Gates(config, adaptiveThresholds, start, passed, now);

      if session.Some? {
        GatesInOrder(config, adaptiveThresholds, start, passed, [Session(session.value)], now);
        passed := passed + [Session(session.value)];
        if decision == Allowed {
          decision := CheckGate(Session(session.value), now);
        }
      }
      assert (localCache, decision) == Gates(config, adaptiveThresholds, start, passed, now);

      if endpoint.Some? {
        GatesInOrder(config, adaptiveThresholds, start, passed, [Endpoint(endpoint.value)], now);
        passed := passed + [Endpoint(endpoint.value)];
        if decision == Allowed {
          decision := CheckGate(Endpoint(endpoint.value), now);
        }
      }
      assert (localCache, decision) == Gates(config, adaptiveThresholds, start, passed, now);

      GatesInOrder(config, adaptiveThresholds, start, passed, [Global], now);
      passed := passed + [Global];
      if decision == Allowed {
        decision := CheckGate(Global, now);
      }
      assert passed == KeysOf(Call(ip, endpoint, session, now));
      MaybeCleanup(now);
    }
  }

  // ---- what every entry keeps ----

  lemma LimitsNonNegative(cfg: Config, thresholds: map<Key, real>, key: Key)
    ensures ResolveLimits(cfg, thresholds, key).0 == ResolveLimits(cfg, thresholds, key).1 >= 0.0
  {
  }

  /** What every entry looks like between calls. An entry too small to grant anything is always full. */
  predicate Sound(e: Entry, capacity: real, now: real) {
    && e.capacity == e.refillRate == capacity
    && 0.0 <= e.tokens <= capacity
    && (capacity < 1.0 ==> e.tokens == capacity)
    && 0.0 <= e.trafficEma <= 1.0
    && e.lastRefill <= now
  }

  lemma TakeKeepsSound(e: Entry, capacity: real, before: real, now: real)
    requires capacity >= 0.0 && Sound(e, capacity, before) && before <= now
    ensures Sound(LocalTake(e, COST, now).0, capacity, now)
    ensures LocalTake(e, COST, now).0.trafficEma > 0.0
  {
    AccruedGrows(e.refillRate, Elapsed(e.lastRefill, now));
  }

  /** For a sound entry that has just refused, the verdict depends on its tokens and capacity alone:
      a challenge is issued exactly when the key's capacity is zero. */
  lemma DegradationExact(e: Entry, capacity: real, now: real)
    requires capacity >= 0.0 && Sound(e, capacity, now) && e.trafficEma > 0.0
    ensures Degradation(e) == if e.tokens > capacity * 0.2 then Queued else if capacity == 0.0 then Challenged else Dropped
  {
  }

  /** The verdict at one key whose entry is sound, told by the tokens it has to offer: a challenge exactly
      for capacity zero, and a place in the queue exactly for a fraction of a token above a fifth of the
      capacity, which must then be below five. */
  lemma GateVerdict(cfg: Config, thresholds: map<Key, real>, cache: Cache, key: Key, before: real, now: real)
    requires before <= now
    requires key in cache ==> Sound(cache[key], ResolveLimits(cfg, thresholds, key).0, before)
    ensures var capacity := ResolveLimits(cfg, thresholds, key).0;
            var level := RefilledEntry(EntryFor(cfg, thresholds, cache, key, now), now).tokens;
            var d := Gate(cfg, thresholds, cache, key, now).1;
            && (d == Allowed <==> level >= 1.0)
            && (d == Challenged <==> capacity == 0.0)
            && (d == Queued <==> level < 1.0 && 5.0 * level > capacity)
            && (d == Queued ==> 0.0 < capacity < 5.0)
  {
    LimitsNonNegative(cfg, thresholds, key);
    hide ResolveLimits;
    var capacity := ResolveLimits(cfg, thresholds, key).0;
    var e := EntryFor(cfg, thresholds, cache, key, now);
    assert Sound(e, capacity, now);
    TakeKeepsSound(e, capacity, now, now);
    if !LocalTake(e, COST, now).1 {
      DegradationExact(LocalTake(e, COST, now).0, capacity, now);
    }
  }

  /** How far an address's threshold tightens its limit: by half of it, but to no less than half the limit or
      a tenth of the server's. */
  lemma ThresholdTightens(cfg: Config, thresholds: map<Key, real>, ip: IpAddr)
    ensures var (capacity, rate) := ResolveLimits(cfg, thresholds, Ip(ip));
            var least := cfg.defaultRps as real / 10.0;
            var base := cfg.perIpLimit as real;
            && capacity == rate
            && (!cfg.adaptiveLearning || Ip(ip) !in thresholds || thresholds[Ip(ip)] <= 0.0 ==>
                  capacity == Max(base, least))
            && (cfg.adaptiveLearning && Ip(ip) in thresholds && 0.0 < thresholds[Ip(ip)] <= base ==>
                  2.0 * capacity == Max(2.0 * base - thresholds[Ip(ip)], 2.0 * least))
            && (cfg.adaptiveLearning && Ip(ip) in thresholds && thresholds[Ip(ip)] > base ==>
                  2.0 * capacity == Max(base, 2.0 * least))
  {
  }

  // ---- whole runs ----

  datatype Event = Check(call: Call) | SetThreshold(key: Key, threshold: real, now: real)

  function At(e: Event): real {
    match e
    case Check(c) => c.now
    case SetThreshold(_, _, now) => now
  }

  /** The clock when event number `n` begins: that of the event before it. */
  function ClockAt(start: real, events: seq<Event>, n: nat): real
    requires n <= |events|
  {
    if n == 0 then start else At(events[n - 1])
  }

  function ThresholdsAt(thresholds: map<Key, real>, events: seq<Event>, n: nat): map<Key, real>
    requires n <= |events|
  {
    if n == 0 then thresholds else
      var before := ThresholdsAt(thresholds, events, n - 1);
      match events[n - 1]
      case Check(_) => before
      case SetThreshold(key, threshold, _) => before[key := threshold]
  }

  /** The limiter as written, after the first `n` events. */
  function StateAt(cfg: Config, thresholds: map<Key, real>, start: real, events: seq<Event>, n: nat): State
    requires n <= |events|
  {
    if n == 0 then State(map[], start) else
      var before := StateAt(cfg, thresholds, start, events, n - 1);
      match events[n - 1]
      case Check(c) => CheckRate(cfg, ThresholdsAt(thresholds, events, n - 1), before, c).0
      case SetThreshold(_, _, _) => before
  }

  function DecisionAt(cfg: Config, thresholds: map<Key, real>, start: real, events: seq<Event>, n: nat): Decision
    requires n < |events| && events[n].Check?
  {
    CheckRate(cfg, ThresholdsAt(thresholds, events, n), StateAt(cfg, thresholds, start, events, n), events[n].call).1
  }

  /** The cache of a limiter that never evicts. */
  function FullCacheAt(cfg: Config, thresholds: map<Key, real>, events: seq<Event>, n: nat): Cache
    requires n <= |events|
  {
    if n == 0 then map[] else
      var before := FullCacheAt(cfg, thresholds, events, n - 1);
      match events[n - 1]
      case Check(c) => Gates(cfg, ThresholdsAt(thresholds, events, n - 1), before, KeysOf(c), c.now).0
      case SetThreshold(_, _, _) => before
  }

  function DecisionKeepingAll(cfg: Config, thresholds: map<Key, real>, events: seq<Event>, n: nat): Decision
    requires n < |events| && events[n].Check?
  {
    var c := events[n].call;
    Gates(cfg, ThresholdsAt(thresholds, events, n), FullCacheAt(cfg, thresholds, events, n), KeysOf(c), c.now).1
  }
}
