/** How many requests the caching limiter can let through under one key, evictions and threshold changes
    included. */
module LocalAdmissions {
  import opened Common
  import opened RateLimiting
  import opened LocalLimiter

  /** What every entry of a key keeps while its limits never resolve above `ceiling`. */
  predicate Within(e: Entry, ceiling: real, now: real) {
    0.0 <= e.tokens <= e.capacity <= ceiling && 0.0 <= e.refillRate <= ceiling && e.lastRefill <= now
  }

  /** The most tokens the key could have by `now`; a missing entry would be created full. */
  function Potential(cache: Cache, key: Key, ceiling: real, now: real): real {
    if key in cache
    then Min(cache[key].tokens + Accrued(ceiling, Elapsed(cache[key].lastRefill, now)), ceiling)
    else ceiling
  }

  ghost predicate Inv(cache: Cache, key: Key, ceiling: real, now: real) {
    0.0 <= ceiling && (key in cache ==> Within(cache[key], ceiling, now))
  }

  /** One entry: an admission takes one token out of the potential, a refusal adds none to it. */
  lemma TakeDraws(e: Entry, ceiling: real, now: real)
    requires Within(e, ceiling, now)
    ensures var (after, granted) := LocalTake(e, COST, now);
            && Within(after, ceiling, now) && after.lastRefill == now
            && after.tokens + CountIf(granted) as real
               <= Min(e.tokens + Accrued(ceiling, Elapsed(e.lastRefill, now)), ceiling)
  {
    var elapsed := Elapsed(e.lastRefill, now);
    AccruedGrows(e.refillRate, elapsed);
    AccruedMonotone(e.refillRate, ceiling, elapsed);
    hide Accrued;
  }

  lemma GateDraws(cfg: Config, thresholds: map<Key, real>, cache: Cache, k: Key, key: Key, ceiling: real, now: real)
    requires Inv(cache, key, ceiling, now) && ResolveLimits(cfg, thresholds, key).0 <= ceiling
    ensures var (after, d) := Gate(cfg, thresholds, cache, k, now);
            && Inv(after, key, ceiling, now)
            && Potential(after, key, ceiling, now) + CountIf(d == Allowed && k == key) as real
               <= Potential(cache, key, ceiling, now)
  {
    LimitsNonNegative(cfg, thresholds, key);
    AccruedZero(ceiling);
    hide ResolveLimits, Accrued;
    if k == key {
      var e := EntryFor(cfg, thresholds, cache, key, now);
      TakeDraws(e, ceiling, now);
      hide LocalTake, Degradation;
    }
  }

  lemma {:induction false} GatesDraw(
    cfg: Config, thresholds: map<Key, real>, cache: Cache, keys: seq<Key>, key: Key, ceiling: real, now: real)
    requires Inv(cache, key, ceiling, now) && ResolveLimits(cfg, thresholds, key).0 <= ceiling
    ensures var (after, d) := Gates(cfg, thresholds, cache, keys, now);
            && Inv(after, key, ceiling, now)
            && Potential(after, key, ceiling, now) + CountIf(d == Allowed && key in keys) as real
               <= Potential(cache, key, ceiling, now)
    decreases |keys|
  {
    hide Gate, Inv, Potential, ResolveLimits;
    if keys != [] {
      GateDraws(cfg, thresholds, cache, keys[0], key, ceiling, now);
      var (after, d) := Gate(cfg, thresholds, cache, keys[0], now);
      if d == Allowed {
        GatesDraw(cfg, thresholds, after, keys[1..], key, ceiling, now);
        assert key in keys ==> key == keys[0] || key in keys[1..];
      }
    }
  }

  /** An idle entry has refilled, so dropping it gives the key nothing. */
  lemma CleanupDraws(st: State, key: Key, ceiling: real, now: real)
    requires Inv(st.cache, key, ceiling, now)
    ensures Inv(CleanedUp(st, now).cache, key, ceiling, now)
    ensures Potential(CleanedUp(st, now).cache, key, ceiling, now) <= Potential(st.cache, key, ceiling, now)
  {
    if key in st.cache && key !in CleanedUp(st, now).cache {
      var surplus := Elapsed(st.cache[key].lastRefill, now) - 1.0;
      AccruedGrows(ceiling, surplus);
      AccruedAdds(ceiling, 1.0, surplus);
      assert Accrued(ceiling, 1.0) == ceiling;
    }
  }

  lemma PotentialAccrues(cache: Cache, key: Key, ceiling: real, first: real, second: real)
    requires Inv(cache, key, ceiling, first) && first <= second
    ensures Inv(cache, key, ceiling, second)
    ensures Potential(cache, key, ceiling, second)
         <= Potential(cache, key, ceiling, first) + Accrued(ceiling, second - first)
  {
    AccruedGrows(ceiling, second - first);
    if key in cache {
      var since := cache[key].lastRefill;
      AccruedZero(ceiling);
      AccruedAdds(ceiling, first - since, second - first);
      assert (first - since) + (second - first) == second - since;
    }
  }

  /** The call, if the event is one, draws on the key. */
  predicate Draws(e: Event, key: Key) {
    e.Check? && key in KeysOf(e.call)
  }

  /** Calls among events `i` up to but not including `n` that drew on the key and were allowed. */
  function AllowedBetween(
    cfg: Config, thresholds: map<Key, real>, start: real, events: seq<Event>, key: Key, i: nat, n: nat): nat
    requires i <= n <= |events|
  {
    if n == i then 0 else
      AllowedBetween(cfg, thresholds, start, events, key, i, n - 1)
      + CountIf(Draws(events[n - 1], key) && DecisionAt(cfg, thresholds, start, events, n - 1) == Allowed)
  }

  /** At no point of the run does the key resolve to a limit above `ceiling`. */
  ghost predicate ResolvesUnder(
    cfg: Config, thresholds: map<Key, real>, events: seq<Event>, key: Key, ceiling: real)
  {
    forall n: nat {:trigger ThresholdsAt(thresholds, events, n)} :: n <= |events| ==>
      ResolveLimits(cfg, ThresholdsAt(thresholds, events, n), key).0 <= ceiling
  }

  lemma EventDraws(
    cfg: Config, thresholds: map<Key, real>, start: real, events: seq<Event>, key: Key, ceiling: real, n: nat)
    requires n < |events| && ResolvesUnder(cfg, thresholds, events, key, ceiling)
    requires Inv(StateAt(cfg, thresholds, start, events, n).cache, key, ceiling, At(events[n]))
    ensures var before := StateAt(cfg, thresholds, start, events, n).cache;
            var after := StateAt(cfg, thresholds, start, events, n + 1).cache;
            && Inv(after, key, ceiling, At(events[n]))
            && Potential(after, key, ceiling, At(events[n]))
                 + AllowedBetween(cfg, thresholds, start, events, key, n, n + 1) as real
               <= Potential(before, key, ceiling, At(events[n]))
  {
    var st := StateAt(cfg, thresholds, start, events, n);
    var now := At(events[n]);
    assert AllowedBetween(cfg, thresholds, start, events, key, n, n) == 0;
    if events[n].Check? {
      var limits := ThresholdsAt(thresholds, events, n);
      GatesDraw(cfg, limits, st.cache, KeysOf(events[n].call), key, ceiling, now);
      var after := Gates(cfg, limits, st.cache, KeysOf(events[n].call), now).0;
      CleanupDraws(st.(cache := after), key, ceiling, now);
      hide Gates, CleanedUp, Inv, Potential;
    }
  }

  lemma {:induction false} DrawnSince(
    cfg: Config, thresholds: map<Key, real>, start: real, events: seq<Event>, key: Key, ceiling: real, i: nat, n: nat)
    requires i < n <= |events| && Chronological(start, events, At)
    requires ResolvesUnder(cfg, thresholds, events, key, ceiling)
    requires Inv(StateAt(cfg, thresholds, start, events, i).cache, key, ceiling, At(events[i]))
    ensures Inv(StateAt(cfg, thresholds, start, events, n).cache, key, ceiling, At(events[n - 1]))
    ensures Potential(StateAt(cfg, thresholds, start, events, n).cache, key, ceiling, At(events[n - 1]))
              + AllowedBetween(cfg, thresholds, start, events, key, i, n) as real
         <= Potential(StateAt(cfg, thresholds, start, events, i).cache, key, ceiling, At(events[i]))
              + Accrued(ceiling, At(events[n - 1]) - At(events[i]))
    decreases n
  {
    hide Accrued, Inv, Potential, StateAt, ResolvesUnder;
    var now := At(events[n - 1]);
    if i == n - 1 {
      AccruedZero(ceiling);
    } else {
      var previous := At(events[n - 2]);
      assert previous <= now;
      DrawnSince(cfg, thresholds, start, events, key, ceiling, i, n - 1);
      PotentialAccrues(StateAt(cfg, thresholds, start, events, n - 1).cache, key, ceiling, previous, now);
      AccruedAdds(ceiling, previous - At(events[i]), now - previous);
      assert (previous - At(events[i])) + (now - previous) == now - At(events[i]);
    }
    EventDraws(cfg, thresholds, start, events, key, ceiling, n - 1);
    assert AllowedBetween(cfg, thresholds, start, events, key, n - 1, n - 1) == 0;
  }

  lemma {:induction false} RunKeepsInv(
    cfg: Config, thresholds: map<Key, real>, start: real, events: seq<Event>, key: Key, ceiling: real, n: nat)
    requires n < |events| && Chronological(start, events, At)
    requires ResolvesUnder(cfg, thresholds, events, key, ceiling)
    ensures Inv(StateAt(cfg, thresholds, start, events, n).cache, key, ceiling, At(events[n]))
  {
    LimitsNonNegative(cfg, ThresholdsAt(thresholds, events, 0), key);
    if n > 0 {
      hide Inv, StateAt, ResolvesUnder;
      assert At(events[n - 1]) <= At(events[n]);
      RunKeepsInv(cfg, thresholds, start, events, key, ceiling, n - 1);
      EventDraws(cfg, thresholds, start, events, key, ceiling, n - 1);
      PotentialAccrues(StateAt(cfg, thresholds, start, events, n).cache, key, ceiling, At(events[n - 1]), At(events[n]));
    }
  }

  /** The admission bound of every key, in every window of every run: between any two events the calls
      allowed under the key number at most its highest limit plus that rate times the time between them. */
  lemma KeyAdmissionBound(
    cfg: Config, thresholds: map<Key, real>, start: real, events: seq<Event>, key: Key, ceiling: real, i: nat, j: nat)
    requires i <= j < |events| && Chronological(start, events, At)
    requires ResolvesUnder(cfg, thresholds, events, key, ceiling)
    ensures AllowedBetween(cfg, thresholds, start, events, key, i, j + 1) as real
         <= ceiling + Accrued(ceiling, At(events[j]) - At(events[i]))
  {
    RunKeepsInv(cfg, thresholds, start, events, key, ceiling, i);
    DrawnSince(cfg, thresholds, start, events, key, ceiling, i, j + 1);
    var after := StateAt(cfg, thresholds, start, events, j + 1).cache;
    hide StateAt, AllowedBetween;
    AccruedGrows(ceiling, Elapsed(if key in after then after[key].lastRefill else 0.0, At(events[j])));
  }

  /** Thresholds only tighten: whatever is set in the course of a run, the bound of the untightened limit
      holds. */
  lemma ThresholdsOnlyTighten(
    cfg: Config, thresholds: map<Key, real>, start: real, events: seq<Event>, key: Key, i: nat, j: nat)
    requires i <= j < |events| && Chronological(start, events, At)
    ensures var limit := ResolveLimits(cfg, map[], key).0;
            (AllowedBetween(cfg, thresholds, start, events, key, i, j + 1) as real
             <= limit + Accrued(limit, At(events[j]) - At(events[i])))
  {
    assert ResolvesUnder(cfg, thresholds, events, key, ResolveLimits(cfg, map[], key).0);
    KeyAdmissionBound(cfg, thresholds, start, events, key, ResolveLimits(cfg, map[], key).0, i, j);
  }

  // ---- the bounds in terms of the calls themselves ----

  /** The call is one of the tier's. */
  predicate Concerns(tier: Tier, c: Call) {
    match tier
    case Everyone => true
    case OneIp(ip) => c.ip == ip
    case OneSession(id) => c.session == Some(id)
    case OneEndpoint(path) => c.endpoint == Some(path)
  }

  /** Calls of the tier among events `i` up to but not including `n` that were allowed. */
  function TierAllowed(
    cfg: Config, thresholds: map<Key, real>, start: real, events: seq<Event>, tier: Tier, i: nat, n: nat): nat
    requires i <= n <= |events|
  {
    if n == i then 0 else
      TierAllowed(cfg, thresholds, start, events, tier, i, n - 1)
      + CountIf(&& events[n - 1].Check? && Concerns(tier, events[n - 1].call)
                && DecisionAt(cfg, thresholds, start, events, n - 1) == Allowed)
  }

  function TierKey(tier: Tier): Key {
    match tier
    case Everyone => Global
    case OneIp(ip) => Ip(ip)
    case OneSession(id) => Session(id)
    case OneEndpoint(path) => Endpoint(path)
  }

  lemma ConcernsIffDraws(tier: Tier, e: Event)
    requires e.Check?
    ensures Concerns(tier, e.call) <==> Draws(e, TierKey(tier))
  {
  }

  lemma {:induction false} TierDrawsOnKey(
    cfg: Config, thresholds: map<Key, real>, start: real, events: seq<Event>, tier: Tier, i: nat, n: nat)
    requires i <= n <= |events|
    ensures TierAllowed(cfg, thresholds, start, events, tier, i, n)
         == AllowedBetween(cfg, thresholds, start, events, TierKey(tier), i, n)
    decreases n
  {
    hide DecisionAt, Concerns;
    if i < n {
      TierDrawsOnKey(cfg, thresholds, start, events, tier, i, n - 1);
      if events[n - 1].Check? {
        ConcernsIffDraws(tier, events[n - 1]);
      }
      hide Draws, TierKey;
    }
  }

  /** The configured limit of the tier; an address has at least a tenth of the server's. */
  function TierLimit(cfg: Config, tier: Tier): real {
    match tier
    case Everyone => cfg.defaultRps as real
    case OneIp(_) => Max(cfg.perIpLimit as real, cfg.defaultRps as real / 10.0)
    case OneSession(_) => cfg.perSessionLimit as real
    case OneEndpoint(_) => cfg.perEndpointLimit as real
  }

  lemma TierResolves(cfg: Config, tier: Tier)
    ensures ResolveLimits(cfg, map[], TierKey(tier)).0 == TierLimit(cfg, tier)
  {
  }

  lemma AccruedIsProduct(rate: real, seconds: real)
    ensures Accrued(rate, seconds) == rate * seconds
  {
  }

  /** In every window of every run, whatever entries are evicted and whatever thresholds are set: of all
      calls, of the calls of one address, of one session and of one endpoint, at most the configured limit
      plus that many a second are allowed. */
  lemma TierAdmissionBound(
    cfg: Config, thresholds: map<Key, real>, start: real, events: seq<Event>, tier: Tier, i: nat, j: nat)
    requires i <= j < |events| && Chronological(start, events, At)
    ensures TierAllowed(cfg, thresholds, start, events, tier, i, j + 1) as real
         <= TierLimit(cfg, tier) + TierLimit(cfg, tier) * (At(events[j]) - At(events[i]))
  {
    hide TierAllowed, AllowedBetween, At, TierLimit, TierKey, ResolveLimits;
    TierDrawsOnKey(cfg, thresholds, start, events, tier, i, j + 1);
    ThresholdsOnlyTighten(cfg, thresholds, start, events, TierKey(tier), i, j);
    TierResolves(cfg, tier);
    AccruedIsProduct(TierLimit(cfg, tier), At(events[j]) - At(events[i]));
  }

  // ---- the bounds are attained ----

  /** The tokens the key has to offer. */
  function Level(cfg: Config, thresholds: map<Key, real>, cache: Cache, key: Key, now: real): real {
    RefilledEntry(EntryFor(cfg, thresholds, cache, key, now), now).tokens
  }

  lemma GateTakesOne(cfg: Config, thresholds: map<Key, real>, cache: Cache, key: Key, now: real)
    ensures var (after, d) := Gate(cfg, thresholds, cache, key, now);
            && (d == Allowed <==> Level(cfg, thresholds, cache, key, now) >= 1.0)
            && (d == Allowed ==> Level(cfg, thresholds, after, key, now) == Level(cfg, thresholds, cache, key, now) - 1.0)
            && (forall other :: other != key ==>
                  Level(cfg, thresholds, after, other, now) == Level(cfg, thresholds, cache, other, now))
  {
    hide ResolveLimits;
  }

  ghost predicate Distinct(keys: seq<Key>) {
    forall i, j :: 0 <= i < j < |keys| ==> keys[i] != keys[j]
  }

  lemma {:induction false} GatesTakeOneEach(
    cfg: Config, thresholds: map<Key, real>, cache: Cache, keys: seq<Key>, now: real)
    requires Distinct(keys)
    ensures var (after, d) := Gates(cfg, thresholds, cache, keys, now);
            && (d == Allowed <==> forall key :: key in keys ==> Level(cfg, thresholds, cache, key, now) >= 1.0)
            && (d == Allowed ==> forall key ::
                  Level(cfg, thresholds, after, key, now)
                  == Level(cfg, thresholds, cache, key, now) - if key in keys then 1.0 else 0.0)
    decreases |keys|
  {
    hide Gate, Level;
    if keys != [] {
      GateTakesOne(cfg, thresholds, cache, keys[0], now);
      var (after, d) := Gate(cfg, thresholds, cache, keys[0], now);
      assert keys == [keys[0]] + keys[1..];
      assert keys[0] !in keys[1..];
      if d == Allowed {
        GatesTakeOneEach(cfg, thresholds, after, keys[1..], now);
      }
    }
  }

  /** So many copies of one call. */
  function Copies(c: Call, n: nat): seq<Event> {
    seq(n, i => Check(c))
  }

  /** Every limit the call is subject to is at least `n`. */
  predicate LimitsAtLeast(cfg: Config, c: Call, n: nat) {
    && (n <= cfg.perIpLimit || 10 * n <= cfg.defaultRps)
    && (c.session.Some? ==> n <= cfg.perSessionLimit)
    && (c.endpoint.Some? ==> n <= cfg.perEndpointLimit)
    && n <= cfg.defaultRps
  }

  lemma KeysAtLeast(cfg: Config, c: Call, n: nat)
    ensures Distinct(KeysOf(c))
    ensures LimitsAtLeast(cfg, c, n)
       <==> forall key :: key in KeysOf(c) ==> ResolveLimits(cfg, map[], key).0 >= n as real
  {
    var keys := KeysOf(c);
    assert Ip(c.ip) in keys && Global in keys;
    assert c.session.Some? ==> Session(c.session.value) in keys;
    assert c.endpoint.Some? ==> Endpoint(c.endpoint.value) in keys;
    assert ResolveLimits(cfg, map[], Ip(c.ip)).0 >= n as real <==> n <= cfg.perIpLimit || 10 * n <= cfg.defaultRps;
  }

  lemma {:induction false} CopiesDrain(cfg: Config, c: Call, n: nat, k: nat)
    requires k <= n && LimitsAtLeast(cfg, c, k)
    ensures var st := StateAt(cfg, map[], c.now, Copies(c, n), k);
            && st.lastCleanup == c.now
            && forall key :: key in KeysOf(c) ==>
                 Level(cfg, map[], st.cache, key, c.now) == ResolveLimits(cfg, map[], key).0 - k as real
    ensures ThresholdsAt(map[], Copies(c, n), k) == map[]
  {
    hide Gates, ResolveLimits, KeysOf, LimitsAtLeast;
    if k > 0 {
      assert LimitsAtLeast(cfg, c, k - 1) by {
        KeysAtLeast(cfg, c, k);
        KeysAtLeast(cfg, c, k - 1);
      }
      CopiesDrain(cfg, c, n, k - 1);
      var st := StateAt(cfg, map[], c.now, Copies(c, n), k - 1);
      KeysAtLeast(cfg, c, k);
      GatesTakeOneEach(cfg, map[], st.cache, KeysOf(c), c.now);
    }
  }

  /** A new limiter allows as many calls of one kind at one moment as its lowest limit says, and not one
      more. */
  lemma NewLimiterAllowsLimit(cfg: Config, c: Call, n: nat, k: nat)
    requires k < n && LimitsAtLeast(cfg, c, k)
    ensures DecisionAt(cfg, map[], c.now, Copies(c, n), k) == Allowed <==> LimitsAtLeast(cfg, c, k + 1)
  {
    CopiesDrain(cfg, c, n, k);
    KeysAtLeast(cfg, c, k + 1);
    hide StateAt, Gates, ResolveLimits, KeysOf, LimitsAtLeast, Level;
    var st := StateAt(cfg, map[], c.now, Copies(c, n), k);
    GatesTakeOneEach(cfg, map[], st.cache, KeysOf(c), c.now);
  }

  // ---- the order of the keys ----

  lemma GateTouchesOne(cfg: Config, thresholds: map<Key, real>, cache: Cache, key: Key, now: real, other: Key)
    requires other != key
    ensures var after := Gate(cfg, thresholds, cache, key, now).0;
            && (other in after <==> other in cache) && (other in cache ==> after[other] == cache[other])
  {
    hide ResolveLimits, LocalTake;
  }

  lemma {:induction false} GatesStop(
    cfg: Config, thresholds: map<Key, real>, cache: Cache, keys: seq<Key>, now: real, i: nat, other: Key)
    requires Distinct(keys) && i < |keys|
    requires forall j :: 0 <= j < i ==> Level(cfg, thresholds, cache, keys[j], now) >= 1.0
    requires Level(cfg, thresholds, cache, keys[i], now) < 1.0
    ensures var (after, d) := Gates(cfg, thresholds, cache, keys, now);
            && d != Allowed
            && (other !in keys[..i + 1] ==>
                  (other in after <==> other in cache) && (other in cache ==> after[other] == cache[other]))
    decreases i
  {
    hide Gate, Level;
    GateTakesOne(cfg, thresholds, cache, keys[0], now);
    assert keys[..i + 1] == [keys[0]] + keys[1..][..i];
    if other != keys[0] {
      GateTouchesOne(cfg, thresholds, cache, keys[0], now, other);
    }
    if i > 0 {
      GatesStop(cfg, thresholds, Gate(cfg, thresholds, cache, keys[0], now).0, keys[1..], now, i - 1, other);
    }
  }

  lemma KeysInOrder(c: Call, other: Key)
    ensures var keys := KeysOf(c);
            var e := if c.session.Some? then 2 else 1;
            && Distinct(keys) && |keys| > 0 && keys[0] == Ip(c.ip) && (other != Ip(c.ip) ==> other !in keys[..1])
            && (c.session.Some? ==>
                  |keys| > 1 && keys[1] == Session(c.session.value)
                  && (other.Endpoint? || other.Global? ==> other !in keys[..2]))
            && (c.endpoint.Some? ==>
                  |keys| > e && keys[e] == Endpoint(c.endpoint.value) && (other.Global? ==> other !in keys[..e + 1]))
  {
  }

  /** A call refused for its address costs no other key anything; refused for its session, neither its
      endpoint nor the server; and refused for its endpoint, not the server. */
  lemma RefusalSparesTheRest(cfg: Config, thresholds: map<Key, real>, cache: Cache, c: Call, other: Key)
    ensures var (after, d) := Gates(cfg, thresholds, cache, KeysOf(c), c.now);
            var untouched := (other in after <==> other in cache) && (other in cache ==> after[other] == cache[other]);
            var address := Level(cfg, thresholds, cache, Ip(c.ip), c.now);
            && (address < 1.0 && other != Ip(c.ip) ==> d != Allowed && untouched)
            && (address >= 1.0 && c.session.Some? ==>
                  var session := Level(cfg, thresholds, cache, Session(c.session.value), c.now);
                  session < 1.0 && (other.Endpoint? || other.Global?) ==> d != Allowed && untouched)
            && (address >= 1.0 && c.endpoint.Some?
                && (c.session.Some? ==> Level(cfg, thresholds, cache, Session(c.session.value), c.now) >= 1.0) ==>
                  var endpoint := Level(cfg, thresholds, cache, Endpoint(c.endpoint.value), c.now);
                  endpoint < 1.0 && other.Global? ==> d != Allowed && untouched)
  {
    var keys := KeysOf(c);
    KeysInOrder(c, other);
    hide Gates, Level, KeysOf, Distinct;
    if Level(cfg, thresholds, cache, Ip(c.ip), c.now) < 1.0 {
      GatesStop(cfg, thresholds, cache, keys, c.now, 0, other);
    } else if c.session.Some? && Level(cfg, thresholds, cache, Session(c.session.value), c.now) < 1.0 {
      GatesStop(cfg, thresholds, cache, keys, c.now, 1, other);
    } else if c.endpoint.Some? && Level(cfg, thresholds, cache, Endpoint(c.endpoint.value), c.now) < 1.0 {
      GatesStop(cfg, thresholds, cache, keys, c.now, if c.session.Some? then 2 else 1, other);
    }
  }
}
