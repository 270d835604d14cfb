/** Evicting idle entries from the cache of the limiter cannot be observed, unless a threshold has moved the
    limits of the key in the meantime. */
module Eviction {
  import opened Common
  import opened RateLimiting
  import opened LocalLimiter

  /** Both caches agree on every entry still in the smaller one; the rest have stood idle. */
  ghost predicate Matches(cfg: Config, thresholds: map<Key, real>, evicting: Cache, keeping: Cache, now: real) {
    && (forall k :: k in keeping ==> Sound(keeping[k], ResolveLimits(cfg, thresholds, k).0, now))
    && (forall k :: k in evicting ==>
          && Sound(evicting[k], ResolveLimits(cfg, thresholds, k).0, now)
          && k in keeping && evicting[k].tokens == keeping[k].tokens && evicting[k].lastRefill == keeping[k].lastRefill)
    && (forall k :: k in keeping && k !in evicting ==> keeping[k].lastRefill + IDLE_LIMIT <= now)
  }

  /** An entry idle for the whole limit has refilled, and so behaves like the fresh one replacing it. */
  lemma IdleEntryIsFull(e: Entry, capacity: real, now: real)
    requires capacity >= 0.0 && Sound(e, capacity, e.lastRefill) && e.lastRefill + IDLE_LIMIT <= now
    ensures RefilledEntry(e, now).tokens == capacity
  {
    var surplus := Elapsed(e.lastRefill, now) - 1.0;
    AccruedGrows(capacity, surplus);
    AccruedAdds(capacity, 1.0, surplus);
    assert Accrued(capacity, 1.0) == capacity;
  }

  lemma TakesAgree(a: Entry, b: Entry, capacity: real, now: real)
    requires capacity >= 0.0 && Sound(a, capacity, now) && Sound(b, capacity, now)
    requires RefilledEntry(a, now).tokens == RefilledEntry(b, now).tokens
    ensures var (a', grantedA) := LocalTake(a, COST, now);
            var (b', grantedB) := LocalTake(b, COST, now);
            && grantedA == grantedB && a'.tokens == b'.tokens && a'.lastRefill == b'.lastRefill == now
            && (!grantedA ==> Degradation(a') == Degradation(b'))
            && Sound(a', capacity, now) && Sound(b', capacity, now)
  {
    TakeKeepsSound(a, capacity, now, now);
    TakeKeepsSound(b, capacity, now, now);
    if !LocalTake(a, COST, now).1 {
      DegradationExact(LocalTake(a, COST, now).0, capacity, now);
      DegradationExact(LocalTake(b, COST, now).0, capacity, now);
    }
  }

  lemma EntriesMatch(cfg: Config, thresholds: map<Key, real>, evicting: Cache, keeping: Cache, key: Key, now: real)
    requires Matches(cfg, thresholds, evicting, keeping, now)
    ensures var capacity := ResolveLimits(cfg, thresholds, key).0;
            var a := EntryFor(cfg, thresholds, evicting, key, now);
            var b := EntryFor(cfg, thresholds, keeping, key, now);
            && Sound(a, capacity, now) && Sound(b, capacity, now)
            && RefilledEntry(a, now).tokens == RefilledEntry(b, now).tokens
  {
    LimitsNonNegative(cfg, thresholds, key);
    hide ResolveLimits;
    if key in keeping && key !in evicting {
      IdleEntryIsFull(keeping[key], ResolveLimits(cfg, thresholds, key).0, now);
    }
  }

  lemma UpdateMatches(
    cfg: Config, thresholds: map<Key, real>, evicting: Cache, keeping: Cache, key: Key, a: Entry, b: Entry, now: real)
    requires Matches(cfg, thresholds, evicting, keeping, now)
    requires Sound(a, ResolveLimits(cfg, thresholds, key).0, now) && Sound(b, ResolveLimits(cfg, thresholds, key).0, now)
    requires a.tokens == b.tokens && a.lastRefill == b.lastRefill
    ensures Matches(cfg, thresholds, evicting[key := a], keeping[key := b], now)
  {
    hide ResolveLimits;
  }

  lemma GateMatches(cfg: Config, thresholds: map<Key, real>, evicting: Cache, keeping: Cache, key: Key, now: real)
    requires Matches(cfg, thresholds, evicting, keeping, now)
    ensures var (e', de) := Gate(cfg, thresholds, evicting, key, now);
            var (k', dk) := Gate(cfg, thresholds, keeping, key, now);
            de == dk && Matches(cfg, thresholds, e', k', now)
  {
    hide Matches, LocalTake, ResolveLimits, Sound, Degradation, RefilledEntry;
    LimitsNonNegative(cfg, thresholds, key);
    EntriesMatch(cfg, thresholds, evicting, keeping, key, now);
    var a := EntryFor(cfg, thresholds, evicting, key, now);
    var b := EntryFor(cfg, thresholds, keeping, key, now);
    TakesAgree(a, b, ResolveLimits(cfg, thresholds, key).0, now);
    UpdateMatches(cfg, thresholds, evicting, keeping, key, LocalTake(a, COST, now).0, LocalTake(b, COST, now).0, now);
  }

  lemma {:induction false} GatesMatch(
    cfg: Config, thresholds: map<Key, real>, evicting: Cache, keeping: Cache, keys: seq<Key>, now: real)
    requires Matches(cfg, thresholds, evicting, keeping, now)
    ensures var (e', de) := Gates(cfg, thresholds, evicting, keys, now);
            var (k', dk) := Gates(cfg, thresholds, keeping, keys, now);
            de == dk && Matches(cfg, thresholds, e', k', now)
    decreases |keys|
  {
    hide Gate, Matches;
    if keys != [] {
      GateMatches(cfg, thresholds, evicting, keeping, keys[0], now);
      var (e', de) := Gate(cfg, thresholds, evicting, keys[0], now);
      var (k', _) := Gate(cfg, thresholds, keeping, keys[0], now);
      if de == Allowed {
        GatesMatch(cfg, thresholds, e', k', keys[1..], now);
      }
    }
  }

  lemma MatchesLater(cfg: Config, thresholds: map<Key, real>, evicting: Cache, keeping: Cache, before: real, now: real)
    requires Matches(cfg, thresholds, evicting, keeping, before) && before <= now
    ensures Matches(cfg, thresholds, evicting, keeping, now)
  {
    hide ResolveLimits;
  }

  lemma CleanupMatches(cfg: Config, thresholds: map<Key, real>, st: State, keeping: Cache, now: real)
    requires Matches(cfg, thresholds, st.cache, keeping, now)
    ensures Matches(cfg, thresholds, CleanedUp(st, now).cache, keeping, now)
  {
    hide ResolveLimits;
  }

  /** No change of a threshold moves the limits it resolves to. */
  ghost predicate LimitsSteady(cfg: Config, thresholds: map<Key, real>, events: seq<Event>) {
    forall n: nat {:trigger events[n]} :: n < |events| && events[n].SetThreshold? ==>
      ResolveLimits(cfg, ThresholdsAt(thresholds, events, n + 1), events[n].key)
      == ResolveLimits(cfg, ThresholdsAt(thresholds, events, n), events[n].key)
  }

  /** Without adaptive learning no threshold moves a limit, and none ever moves those of a session, an
      endpoint or the whole server. */
  lemma SteadyWithoutLearning(cfg: Config, thresholds: map<Key, real>, events: seq<Event>)
    requires forall e :: e in events && e.SetThreshold? ==> !cfg.adaptiveLearning || !e.key.Ip?
    ensures LimitsSteady(cfg, thresholds, events)
  {
    forall n: nat | n < |events| && events[n].SetThreshold?
      ensures ResolveLimits(cfg, ThresholdsAt(thresholds, events, n + 1), events[n].key)
           == ResolveLimits(cfg, ThresholdsAt(thresholds, events, n), events[n].key)
    {
      assert events[n] in events;
    }
  }

  lemma SetThresholdMatches(
    cfg: Config, thresholds: map<Key, real>, key: Key, threshold: real, evicting: Cache, keeping: Cache, now: real)
    requires Matches(cfg, thresholds, evicting, keeping, now)
    requires ResolveLimits(cfg, thresholds[key := threshold], key) == ResolveLimits(cfg, thresholds, key)
    ensures Matches(cfg, thresholds[key := threshold], evicting, keeping, now)
  {
    assert forall k :: ResolveLimits(cfg, thresholds[key := threshold], k) == ResolveLimits(cfg, thresholds, k);
    hide ResolveLimits, Sound;
  }

  lemma CheckMatches(cfg: Config, thresholds: map<Key, real>, st: State, keeping: Cache, c: Call, before: real)
    requires Matches(cfg, thresholds, st.cache, keeping, before) && before <= c.now
    ensures Matches(cfg, thresholds, CheckRate(cfg, thresholds, st, c).0.cache,
                    Gates(cfg, thresholds, keeping, KeysOf(c), c.now).0, c.now)
    ensures CheckRate(cfg, thresholds, st, c).1 == Gates(cfg, thresholds, keeping, KeysOf(c), c.now).1
  {
    hide Matches, Gates, CleanedUp;
    MatchesLater(cfg, thresholds, st.cache, keeping, before, c.now);
    GatesMatch(cfg, thresholds, st.cache, keeping, KeysOf(c), c.now);
    var evicting := Gates(cfg, thresholds, st.cache, KeysOf(c), c.now).0;
    CleanupMatches(cfg, thresholds, st.(cache := evicting), Gates(cfg, thresholds, keeping, KeysOf(c), c.now).0, c.now);
  }

  lemma {:induction false} RunsMatch(cfg: Config, thresholds: map<Key, real>, start: real, events: seq<Event>, n: nat)
    requires n <= |events| && Chronological(start, events, At) && LimitsSteady(cfg, thresholds, events)
    ensures Matches(cfg, ThresholdsAt(thresholds, events, n), StateAt(cfg, thresholds, start, events, n).cache,
                    FullCacheAt(cfg, thresholds, events, n), ClockAt(start, events, n))
  {
    if n > 0 {
      RunsMatch(cfg, thresholds, start, events, n - 1);
      var before := ThresholdsAt(thresholds, events, n - 1);
      var st := StateAt(cfg, thresholds, start, events, n - 1);
      var keeping := FullCacheAt(cfg, thresholds, events, n - 1);
      var clock := ClockAt(start, events, n - 1);
      assert clock <= At(events[n - 1]);
      match events[n - 1] {
        case Check(c) =>
          hide Matches, CheckRate;
          CheckMatches(cfg, before, st, keeping, c, clock);
        case SetThreshold(key, threshold, now) =>
          hide Matches;
          MatchesLater(cfg, before, st.cache, keeping, clock, now);
          SetThresholdMatches(cfg, before, key, threshold, st.cache, keeping, now);
      }
    } else {
      hide ResolveLimits, Sound;
    }
  }

  /** Eviction is unobservable: whatever the limits (zero included), as long as no threshold moves them the
      limiter answers every call of every run exactly as one that never evicts. */
  lemma EvictionUnobservable(cfg: Config, thresholds: map<Key, real>, start: real, events: seq<Event>, n: nat)
    requires Chronological(start, events, At) && LimitsSteady(cfg, thresholds, events)
    requires n < |events| && events[n].Check?
    ensures DecisionAt(cfg, thresholds, start, events, n) == DecisionKeepingAll(cfg, thresholds, events, n)
  {
    RunsMatch(cfg, thresholds, start, events, n);
    assert ClockAt(start, events, n) <= At(events[n]);
    hide Matches, StateAt, FullCacheAt, CheckRate;
    CheckMatches(cfg, ThresholdsAt(thresholds, events, n), StateAt(cfg, thresholds, start, events, n),
                 FullCacheAt(cfg, thresholds, events, n), events[n].call, ClockAt(start, events, n));
  }

  // ---- how long an entry stays ----

  /** No entry is dated in the future or was idle already when the cache was last cleaned up. */
  ghost predicate Dated(st: State, clock: real) {
    && st.lastCleanup <= clock
    && forall k :: k in st.cache ==> st.lastCleanup - 180.0 < st.cache[k].lastRefill <= clock
  }

  lemma {:induction false} GatesTouch(
    cfg: Config, thresholds: map<Key, real>, cache: Cache, keys: seq<Key>, now: real, k: Key)
    ensures var after := Gates(cfg, thresholds, cache, keys, now).0;
            && (k in cache ==> k in after)
            && (k in after ==> after[k].lastRefill == now || (k in cache && after[k] == cache[k]))
    decreases |keys|
  {
    hide ResolveLimits, Degradation;
    if keys != [] {
      GatesTouch(cfg, thresholds, Gate(cfg, thresholds, cache, keys[0], now).0, keys[1..], now, k);
    }
  }

  lemma CheckDates(cfg: Config, thresholds: map<Key, real>, st: State, c: Call, clock: real)
    requires Dated(st, clock) && clock <= c.now
    ensures Dated(CheckRate(cfg, thresholds, st, c).0, c.now)
    ensures forall k :: k in CheckRate(cfg, thresholds, st, c).0.cache ==>
              c.now - CheckRate(cfg, thresholds, st, c).0.cache[k].lastRefill < 210.0
    ensures forall k :: k in st.cache && c.now - st.cache[k].lastRefill < 180.0 ==>
              && k in CheckRate(cfg, thresholds, st, c).0.cache
              && CheckRate(cfg, thresholds, st, c).0.cache[k].lastRefill >= st.cache[k].lastRefill
  {
    var after := Gates(cfg, thresholds, st.cache, KeysOf(c), c.now).0;
    forall k
      ensures k in st.cache ==> k in after
      ensures k in after ==> after[k].lastRefill == c.now || (k in st.cache && after[k] == st.cache[k])
    {
      GatesTouch(cfg, thresholds, st.cache, KeysOf(c), c.now, k);
    }
    hide Gates;
  }

  lemma {:induction false} RunDates(cfg: Config, thresholds: map<Key, real>, start: real, events: seq<Event>, n: nat)
    requires n <= |events| && Chronological(start, events, At)
    ensures Dated(StateAt(cfg, thresholds, start, events, n), ClockAt(start, events, n))
  {
    hide CheckRate;
    if n > 0 {
      RunDates(cfg, thresholds, start, events, n - 1);
      assert ClockAt(start, events, n - 1) <= At(events[n - 1]);
      if events[n - 1].Check? {
        CheckDates(cfg, ThresholdsAt(thresholds, events, n - 1), StateAt(cfg, thresholds, start, events, n - 1),
                   events[n - 1].call, ClockAt(start, events, n - 1));
      }
    }
  }

  /** In every run the cache is free of entries idle for 210 seconds after each call. */
  lemma IdleEntriesGo(cfg: Config, thresholds: map<Key, real>, start: real, events: seq<Event>, n: nat, k: Key)
    requires n < |events| && Chronological(start, events, At) && events[n].Check?
    requires k in StateAt(cfg, thresholds, start, events, n + 1).cache
    ensures At(events[n]) - StateAt(cfg, thresholds, start, events, n + 1).cache[k].lastRefill < 210.0
  {
    hide CheckRate;
    RunDates(cfg, thresholds, start, events, n);
    assert ClockAt(start, events, n) <= At(events[n]);
    CheckDates(cfg, ThresholdsAt(thresholds, events, n), StateAt(cfg, thresholds, start, events, n),
               events[n].call, ClockAt(start, events, n));
  }

  /** And an entry stays for at least 180 seconds after its last use. */
  lemma {:induction false} RecentEntriesStay(
    cfg: Config, thresholds: map<Key, real>, start: real, events: seq<Event>, i: nat, n: nat, k: Key)
    requires i < n <= |events| && Chronological(start, events, At)
    requires k in StateAt(cfg, thresholds, start, events, i).cache
    requires At(events[n - 1]) - StateAt(cfg, thresholds, start, events, i).cache[k].lastRefill < 180.0
    ensures k in StateAt(cfg, thresholds, start, events, n).cache
    ensures StateAt(cfg, thresholds, start, events, n).cache[k].lastRefill
         >= StateAt(cfg, thresholds, start, events, i).cache[k].lastRefill
    decreases n
  {
    hide CheckRate;
    if i < n - 1 {
      assert At(events[n - 2]) <= At(events[n - 1]);
      RecentEntriesStay(cfg, thresholds, start, events, i, n - 1, k);
    }
    if events[n - 1].Check? {
      RunDates(cfg, thresholds, start, events, n - 1);
      assert ClockAt(start, events, n - 1) <= At(events[n - 1]);
      CheckDates(cfg, ThresholdsAt(thresholds, events, n - 1), StateAt(cfg, thresholds, start, events, n - 1),
                 events[n - 1].call, ClockAt(start, events, n - 1));
    }
  }

  /** A call cleans up exactly if the last cleanup is 30 seconds ago or more, and then leaves no entry that
      has been idle for 180. */
  lemma CleanupWhenDue(cfg: Config, thresholds: map<Key, real>, st: State, c: Call)
    requires st.lastCleanup <= c.now
    ensures var after := CheckRate(cfg, thresholds, st, c).0;
            if c.now - st.lastCleanup >= 30.0 then
              && after.lastCleanup == c.now
              && forall k :: k in after.cache ==> c.now - after.cache[k].lastRefill < 180.0
            else
              after.lastCleanup == st.lastCleanup && forall k :: k in st.cache ==> k in after.cache
  {
    forall k
      ensures k in st.cache ==> k in Gates(cfg, thresholds, st.cache, KeysOf(c), c.now).0
    {
      GatesTouch(cfg, thresholds, st.cache, KeysOf(c), c.now, k);
    }
    hide Gates;
  }

  lemma {:induction false} CleanupsAdvance(
    cfg: Config, thresholds: map<Key, real>, start: real, events: seq<Event>, i: nat, n: nat)
    requires i <= n <= |events| && Chronological(start, events, At)
    ensures StateAt(cfg, thresholds, start, events, i).lastCleanup
         <= StateAt(cfg, thresholds, start, events, n).lastCleanup
    decreases n
  {
    hide CheckRate;
    if i < n {
      CleanupsAdvance(cfg, thresholds, start, events, i, n - 1);
      RunDates(cfg, thresholds, start, events, n - 1);
      assert ClockAt(start, events, n - 1) <= At(events[n - 1]);
      if events[n - 1].Check? {
        CleanupWhenDue(cfg, ThresholdsAt(thresholds, events, n - 1), StateAt(cfg, thresholds, start, events, n - 1),
                       events[n - 1].call);
      }
    }
  }

  /** The event drops an entry from the cache. */
  ghost predicate Drops(cfg: Config, thresholds: map<Key, real>, start: real, events: seq<Event>, n: nat)
    requires n < |events|
  {
    exists k :: k in StateAt(cfg, thresholds, start, events, n).cache
                && k !in StateAt(cfg, thresholds, start, events, n + 1).cache
  }

  lemma DropCleansUp(cfg: Config, thresholds: map<Key, real>, start: real, events: seq<Event>, n: nat)
    requires n < |events| && Chronological(start, events, At) && Drops(cfg, thresholds, start, events, n)
    ensures At(events[n]) - StateAt(cfg, thresholds, start, events, n).lastCleanup >= 30.0
    ensures StateAt(cfg, thresholds, start, events, n + 1).lastCleanup == At(events[n])
  {
    hide CheckRate;
    RunDates(cfg, thresholds, start, events, n);
    assert ClockAt(start, events, n) <= At(events[n]);
    if events[n].Check? {
      CleanupWhenDue(cfg, ThresholdsAt(thresholds, events, n), StateAt(cfg, thresholds, start, events, n), events[n].call);
    }
  }

  /** In every run, events that drop entries are 30 seconds apart at least. */
  lemma DropsAreApart(cfg: Config, thresholds: map<Key, real>, start: real, events: seq<Event>, i: nat, j: nat)
    requires i < j < |events| && Chronological(start, events, At)
    requires Drops(cfg, thresholds, start, events, i) && Drops(cfg, thresholds, start, events, j)
    ensures At(events[j]) - At(events[i]) >= 30.0
  {
    DropCleansUp(cfg, thresholds, start, events, i);
    CleanupsAdvance(cfg, thresholds, start, events, i + 1, j);
    DropCleansUp(cfg, thresholds, start, events, j);
    hide StateAt, Drops;
  }

  // ---- a threshold that moves a limit shows ----

  /** The verdicts of one key's entry on requests at the given times. */
  function EntryVerdicts(e: Entry, times: seq<real>): seq<Decision>
    decreases |times|
  {
    if times == [] then [] else
      var (after, granted) := LocalTake(e, COST, times[0]);
      [if granted then Allowed else Degradation(after)] + EntryVerdicts(after, times[1..])
  }

  lemma LevelLater(e: Entry, capacity: real, now: real, later: real)
    requires capacity >= 0.0 && Sound(e, capacity, now) && now <= later
    ensures RefilledEntry(e, later).tokens
         == Min(RefilledEntry(e, now).tokens + Accrued(capacity, later - now), capacity)
  {
    AccruedGrows(capacity, Elapsed(e.lastRefill, now));
    AccruedGrows(capacity, later - now);
    AccruedAdds(capacity, now - e.lastRefill, later - now);
    AccruedZero(capacity);
    assert (now - e.lastRefill) + (later - now) == later - e.lastRefill;
  }

  lemma RefilledAlready(e: Entry, now: real)
    requires e.lastRefill == now
    ensures RefilledEntry(e, now) == e
  {
  }

  lemma {:induction false} LevelEntriesAgree(a: Entry, b: Entry, capacity: real, now: real, times: seq<real>)
    requires capacity >= 0.0 && Sound(a, capacity, now) && Sound(b, capacity, now)
    requires times != [] && Chronological(now, times, Moment)
    requires RefilledEntry(a, times[0]).tokens == RefilledEntry(b, times[0]).tokens
    ensures EntryVerdicts(a, times) == EntryVerdicts(b, times)
    decreases |times|
  {
    hide Degradation, RefilledEntry;
    var t := times[0];
    TakesAgree(a, b, capacity, t);
    var a', b' := LocalTake(a, COST, t).0, LocalTake(b, COST, t).0;
    if |times| > 1 {
      RefilledAlready(a', t);
      RefilledAlready(b', t);
      LevelLater(a', capacity, t, times[1]);
      LevelLater(b', capacity, t, times[1]);
      hide LocalTake, Sound;
      LevelEntriesAgree(a', b', capacity, t, times[1..]);
    }
  }

  lemma {:induction false} SmallEntriesQueue(e: Entry, capacity: real, now: real, times: seq<real>)
    requires 0.0 < capacity < 1.0 && Sound(e, capacity, now) && Chronological(now, times, Moment)
    ensures EntryVerdicts(e, times) == seq(|times|, i => Queued)
    decreases |times|
  {
    if times != [] {
      TakeKeepsSound(e, capacity, now, times[0]);
      SmallEntriesQueue(LocalTake(e, COST, times[0]).0, capacity, times[0], times[1..]);
    }
  }

  /** So many requests at once, and one more. */
  function BurstThen(now: real, n: nat, last: real): seq<real> {
    if n == 0 then [last] else [now] + BurstThen(now, n - 1, last)
  }

  lemma {:induction false} BurstChronological(now: real, n: nat, last: real)
    requires now <= last
    ensures Chronological(now, BurstThen(now, n, last), Moment)
  {
    if n > 0 {
      BurstChronological(now, n - 1, last);
    }
  }

  /** Both entries can serve the burst, and only the second the last request. */
  lemma {:induction false} BurstTellsApart(a: Entry, b: Entry, ca: real, cb: real, now: real, n: nat, last: real)
    requires 0.0 <= ca && 0.0 <= cb && now <= last && Sound(a, ca, now) && Sound(b, cb, now)
    requires RefilledEntry(a, now).tokens >= n as real && RefilledEntry(b, now).tokens >= n as real
    requires Min(RefilledEntry(a, now).tokens - n as real + Accrued(ca, last - now), ca) < 1.0
    requires Min(RefilledEntry(b, now).tokens - n as real + Accrued(cb, last - now), cb) >= 1.0
    ensures EntryVerdicts(a, BurstThen(now, n, last)) != EntryVerdicts(b, BurstThen(now, n, last))
    decreases n
  {
    hide Accrued;
    if n == 0 {
      LevelLater(a, ca, now, last);
      LevelLater(b, cb, now, last);
      assert EntryVerdicts(a, [last])[0] != Allowed && EntryVerdicts(b, [last])[0] == Allowed;
    } else {
      TakeKeepsSound(a, ca, now, now);
      TakeKeepsSound(b, cb, now, now);
      var a', b' := LocalTake(a, COST, now).0, LocalTake(b, COST, now).0;
      RefilledAlready(a', now);
      RefilledAlready(b', now);
      BurstTellsApart(a', b', ca, cb, now, n - 1, last);
      var times := BurstThen(now, n, last);
      assert times[1..] == BurstThen(now, n - 1, last);
      assert EntryVerdicts(a, times)[1..] == EntryVerdicts(a', times[1..]);
      assert EntryVerdicts(b, times)[1..] == EntryVerdicts(b', times[1..]);
    }
  }

  lemma DivisionInverts(x: real, y: real)
    requires y != 0.0
    ensures Accrued(y, x / y) == x
  {
  }

  /** Full entries of different capacities answer some run of requests differently, unless both queue
      every request. */
  lemma CapacitiesTellApart(a: Entry, b: Entry, ca: real, cb: real, now: real) returns (n: nat, last: real)
    requires 0.0 <= ca < cb && (1.0 <= cb || ca == 0.0) && Sound(a, ca, now) && Sound(b, cb, now)
    requires RefilledEntry(a, now).tokens == ca && RefilledEntry(b, now).tokens == cb
    ensures now <= last && BurstThen(now, n, last)[0] == now
    ensures EntryVerdicts(a, BurstThen(now, n, last)) != EntryVerdicts(b, BurstThen(now, n, last))
  {
    AccruedZero(ca);
    AccruedZero(cb);
    if cb < 1.0 {
      n, last := 0, now;
      SmallEntriesQueue(b, cb, now, [now]);
      TakeKeepsSound(a, ca, now, now);
      DegradationExact(LocalTake(a, COST, now).0, ca, now);
      assert EntryVerdicts(a, [now])[0] == Challenged && EntryVerdicts(b, [now])[0] == Queued;
    } else {
      n := ca.Floor;
      var wait := if cb >= n as real + 1.0 then 0.0 else (n as real + 1.0 - cb) / cb;
      last := now + wait;
      DivisionInverts(n as real + 1.0 - cb, cb);
      AccruedMonotone(ca, cb, wait);
      hide Accrued;
      assert last - now == wait;
      BurstTellsApart(a, b, ca, cb, now, n, last);
    }
  }

  /** An entry idle for the whole limit, and the fresh one of whatever capacity that may replace it. */
  ghost predicate Replaceable(e: Entry, now: real) {
    0.0 <= e.capacity && Sound(e, e.capacity, now) && e.lastRefill + IDLE_LIMIT <= now
  }

  /** No requests from `now` on tell the entry from its replacement. */
  ghost predicate Unnoticed(e: Entry, capacity: real, now: real) {
    forall times :: times != [] && Chronological(now, times, Moment) ==>
      EntryVerdicts(e, times) == EntryVerdicts(FreshEntry((capacity, capacity), times[0]), times)
  }

  lemma ReplacementAgrees(e: Entry, capacity: real, now: real, times: seq<real>)
    requires Replaceable(e, now) && times != [] && Chronological(now, times, Moment)
    requires e.capacity == capacity || (0.0 < e.capacity < 1.0 && 0.0 < capacity < 1.0)
    ensures EntryVerdicts(e, times) == EntryVerdicts(FreshEntry((capacity, capacity), times[0]), times)
  {
    var t := times[0];
    var replacement := FreshEntry((capacity, capacity), t);
    if e.capacity == capacity {
      IdleEntryIsFull(e, capacity, t);
      LevelEntriesAgree(e, replacement, capacity, t, times);
    } else {
      SmallEntriesQueue(e, e.capacity, t, times);
      SmallEntriesQueue(replacement, capacity, t, times);
    }
  }

  lemma ReplacementDiffers(e: Entry, capacity: real, now: real)
    requires Replaceable(e, now) && 0.0 <= capacity
    requires e.capacity != capacity && !(0.0 < e.capacity < 1.0 && 0.0 < capacity < 1.0)
    ensures !Unnoticed(e, capacity, now)
  {
    var replacement := FreshEntry((capacity, capacity), now);
    IdleEntryIsFull(e, e.capacity, now);
    var n, last;
    if e.capacity < capacity {
      n, last := CapacitiesTellApart(e, replacement, e.capacity, capacity, now);
    } else {
      n, last := CapacitiesTellApart(replacement, e, capacity, e.capacity, now);
    }
    BurstChronological(now, n, last);
    var times := BurstThen(now, n, last);
    assert times != [] && Chronological(now, times, Moment) && times[0] == now;
  }

  /** Replacing an idle entry goes unnoticed exactly when the limits of its key have not moved, or when
      neither entry can ever serve a request and both queue them all. */
  lemma ReplacementUnnoticedIff(e: Entry, capacity: real, now: real)
    requires Replaceable(e, now) && 0.0 <= capacity
    ensures Unnoticed(e, capacity, now)
       <==> e.capacity == capacity || (0.0 < e.capacity < 1.0 && 0.0 < capacity < 1.0)
  {
    if e.capacity == capacity || (0.0 < e.capacity < 1.0 && 0.0 < capacity < 1.0) {
      forall times | times != [] && Chronological(now, times, Moment)
        ensures EntryVerdicts(e, times) == EntryVerdicts(FreshEntry((capacity, capacity), times[0]), times)
      {
        ReplacementAgrees(e, capacity, now, times);
      }
    } else {
      ReplacementDiffers(e, capacity, now);
    }
  }

  lemma AddressThenGlobal(cfg: Config, thresholds: map<Key, real>, cache: Cache, ip: IpAddr, now: real)
    ensures KeysOf(Call(ip, None, None, now)) == [Ip(ip), Global]
    ensures var (first, d) := Gate(cfg, thresholds, cache, Ip(ip), now);
            Gates(cfg, thresholds, cache, [Ip(ip), Global], now)
            == if d == Allowed then Gate(cfg, thresholds, first, Global, now) else (first, d)
  {
    hide Gate;
    var first := Gate(cfg, thresholds, cache, Ip(ip), now).0;
    assert [Ip(ip), Global][1..] == [Global];
    assert [Global][1..] == [];
    var second := Gate(cfg, thresholds, first, Global, now).0;
    assert Gates(cfg, thresholds, second, [], now) == (second, Allowed);
  }

  /** An address of limit one has its threshold set while its entry stands idle, and comes back after the
      entry was evicted. */
  function ThresholdRun(a: IpAddr, b: IpAddr): seq<Event> {
    [Check(Call(a, None, None, 0.0)), SetThreshold(Ip(a), 1.0, 1.0),
     Check(Call(b, None, None, 200.0)), Check(Call(a, None, None, 201.0))]
  }

  const OneEach := Config(2, 1, 1, 1, true)

  /** The cache after the first call. */
  function Opened(a: IpAddr): Cache {
    map[Ip(a) := Entry(0.0, 1.0, 1.0, 0.0, true, 0.125), Global := Entry(1.0, 2.0, 2.0, 0.0, true, 0.125)]
  }

  lemma FirstCall(a: IpAddr, b: IpAddr)
    ensures StateAt(OneEach, map[], 0.0, ThresholdRun(a, b), 2) == State(Opened(a), 0.0)
    ensures FullCacheAt(OneEach, map[], ThresholdRun(a, b), 2) == Opened(a)
    ensures ThresholdsAt(map[], ThresholdRun(a, b), 2) == map[Ip(a) := 1.0]
  {
    var c := Call(a, None, None, 0.0);
    var events := ThresholdRun(a, b);
    AddressThenGlobal(OneEach, map[], map[], a, 0.0);
    assert Gates(OneEach, map[], map[], [Ip(a), Global], 0.0) == (Opened(a), Allowed);
    hide Gates, KeysOf;
    assert events[0] == Check(c) && events[1] == SetThreshold(Ip(a), 1.0, 1.0);
    assert CheckRate(OneEach, map[], State(map[], 0.0), c).0 == State(Opened(a), 0.0);
    assert StateAt(OneEach, map[], 0.0, events, 1) == State(Opened(a), 0.0);
    assert FullCacheAt(OneEach, map[], events, 1) == Opened(a);
  }

  /** The second call evicts the address of the first and leaves a fresh global entry. */
  lemma SecondCall(a: IpAddr, b: IpAddr)
    requires a != b
    ensures var evicting := StateAt(OneEach, map[], 0.0, ThresholdRun(a, b), 3).cache;
            var keeping := FullCacheAt(OneEach, map[], ThresholdRun(a, b), 3);
            && Ip(a) !in evicting
            && Ip(a) in keeping && keeping[Ip(a)] == Opened(a)[Ip(a)]
            && Global in keeping && keeping[Global].capacity == keeping[Global].refillRate == 2.0
            && keeping[Global].tokens >= 0.0 && keeping[Global].lastRefill == 200.0
  {
    FirstCall(a, b);
    var events := ThresholdRun(a, b);
    var c := Call(b, None, None, 200.0);
    var thresholds := map[Ip(a) := 1.0];
    AddressThenGlobal(OneEach, thresholds, Opened(a), b, 200.0);
    var full := Gates(OneEach, thresholds, Opened(a), [Ip(b), Global], 200.0).0;
    assert Ip(a) in full && full[Ip(a)] == Opened(a)[Ip(a)];
    assert Global in full && full[Global].capacity == full[Global].refillRate == 2.0;
    assert full[Global].tokens >= 0.0 && full[Global].lastRefill == 200.0;
    hide Gates, KeysOf, Opened;
    assert events[2] == Check(c);
    assert StateAt(OneEach, map[], 0.0, events, 3).cache == Retained(full, 200.0);
    assert FullCacheAt(OneEach, map[], events, 3) == full;
  }

  /** The replacement has half the capacity and lets nothing through; the entry kept would have. */
  lemma ThresholdChangeShows(a: IpAddr, b: IpAddr)
    requires a != b
    ensures DecisionAt(OneEach, map[], 0.0, ThresholdRun(a, b), 3) == Queued
    ensures DecisionKeepingAll(OneEach, map[], ThresholdRun(a, b), 3) == Allowed
  {
    SecondCall(a, b);
    FirstCall(a, b);
    var events := ThresholdRun(a, b);
    assert events[2].Check? && events[3] == Check(Call(a, None, None, 201.0));
    var thresholds := map[Ip(a) := 1.0];
    assert ThresholdsAt(map[], events, 3) == thresholds;
    AddressThenGlobal(OneEach, thresholds, StateAt(OneEach, map[], 0.0, events, 3).cache, a, 201.0);
    AddressThenGlobal(OneEach, thresholds, FullCacheAt(OneEach, map[], events, 3), a, 201.0);
    hide StateAt, FullCacheAt, Gates, KeysOf, ThresholdsAt;
  }
}
