/** The bursting bucket never falls behind the caching limiter's entry. */
module Dominance {
  import opened Common
  import opened RateLimiting
  import T = TokenBucket
  import L = LocalLimiter

  /** Requests granted by a bursting bucket to arrivals at the given times. */
  function Bursting(b: T.Bucket, arrivals: seq<real>): nat
    decreases |arrivals|
  {
    if arrivals == [] then 0 else
      var (after, granted) := T.Consumed(b, COST, arrivals[0]);
      (if granted then 1 else 0) + Bursting(after, arrivals[1..])
  }

  /** Requests granted by a cache entry to the same arrivals. */
  function Capped(e: L.Entry, arrivals: seq<real>): nat
    decreases |arrivals|
  {
    if arrivals == [] then 0 else
      var (after, granted) := L.LocalTake(e, COST, arrivals[0]);
      (if granted then 1 else 0) + Capped(after, arrivals[1..])
  }

  /** The same limit and rate, brought up to date at the same moment. */
  predicate Paired(b: T.Bucket, e: L.Entry, now: real) {
    && b.Valid() && b.burstAllowed && b.lastRefill == e.lastRefill == now
    && b.refillRate == e.refillRate && b.capacity == e.capacity && 0.0 <= e.tokens <= e.capacity
  }

  /** Time passing keeps a lead of less than one token, in either direction. */
  lemma LeadSurvivesRefill(b: T.Bucket, e: L.Entry, before: real, now: real)
    requires Paired(b, e, before) && before <= now
    ensures var b' := T.Refilled(b, now);
            var e' := L.RefilledEntry(e, now);
            && Paired(b', e', now)
            && (b.tokens >= e.tokens ==> b'.tokens >= e'.tokens)
            && (b.tokens > e.tokens - 1.0 ==> b'.tokens > e'.tokens - 1.0)
  {
    AccruedGrows(b.refillRate, Elapsed(before, now));
    T.RefillKeepsValid(b, now);
  }

  /** The invariant of the race, in its two cases: level in admissions with no fewer tokens, or one
      admission ahead and less than one token behind. */
  lemma {:induction false} RaceInvariant(b: T.Bucket, e: L.Entry, start: real, arrivals: seq<real>)
    requires Paired(b, e, start) && Chronological(start, arrivals, Moment)
    ensures b.tokens >= e.tokens ==> Bursting(b, arrivals) >= Capped(e, arrivals)
    ensures b.tokens > e.tokens - 1.0 ==> Bursting(b, arrivals) + 1 >= Capped(e, arrivals)
    decreases |arrivals|
  {
    if arrivals != [] {
      var now := arrivals[0];
      LeadSurvivesRefill(b, e, start, now);
      var (b', granted) := T.Consumed(b, COST, now);
      var (e', alsoGranted) := L.LocalTake(e, COST, now);
      hide Accrued;
      RaceInvariant(b', e', now, arrivals[1..]);
    }
  }

  /** Dominance: for any session or endpoint, with the first arrival creating the bucket in either
      limiter, the bursting bucket has admitted at least as many requests after every prefix of every
      run of arrivals. */
  lemma BurstingDominates(cfg: Config, thresholds: map<L.Key, real>, key: L.Key, arrivals: seq<real>, prefix: nat)
    requires key.Session? || key.Endpoint?
    requires prefix <= |arrivals| && arrivals != [] && Ordered(arrivals, Moment)
    ensures var limit := (if key.Session? then cfg.perSessionLimit else cfg.perEndpointLimit) as real;
            (Bursting(T.Fresh(limit, limit, arrivals[0]), arrivals[..prefix])
             >= Capped(L.EntryFor(cfg, thresholds, map[], key, arrivals[0]), arrivals[..prefix]))
  {
    var limit := (if key.Session? then cfg.perSessionLimit else cfg.perEndpointLimit) as real;
    RaceInvariant(T.Fresh(limit, limit, arrivals[0]), L.EntryFor(cfg, thresholds, map[], key, arrivals[0]),
                  arrivals[0], arrivals[..prefix]);
  }
}
