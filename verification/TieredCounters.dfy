/** Conservation of the counters kept by the four tiers of `RateLimiter`. */
module TieredCounters {
  import opened Common
  import opened RateLimiting
  import opened TokenBucket
  import opened TieredLimiter

  /** The tier that stopped a call, if any. */
  datatype Reach = StoppedGlobal | StoppedIp | StoppedSession | StoppedEndpoint | Admitted

  function ReachOf(cfg: Config, s: Limiter, c: Call): Reach {
    if !Consumed(s.global, COST, c.now).1 then StoppedGlobal
    else if !Charge(s.ips, c.ip, cfg.perIpLimit, c.now).1 then StoppedIp
    else if c.session.Some? && !Charge(s.sessions, c.session.value, cfg.perSessionLimit, c.now).1 then StoppedSession
    else if c.endpoint.Some? && !Charge(s.endpoints, c.endpoint.value, cfg.perEndpointLimit, c.now).1 then StoppedEndpoint
    else Admitted
  }

  /** What a call does to each tier, told by how far it got. */
  lemma ReachDecides(cfg: Config, s: Limiter, c: Call)
    ensures var (s', d) := CheckRate(cfg, s, c);
            var reach := ReachOf(cfg, s, c);
            var pastIp := !reach.StoppedGlobal? && !reach.StoppedIp?;
            var pastSession := pastIp && !reach.StoppedSession?;
            && s'.global.totalAllowed == Consumed(s.global, COST, c.now).0.totalAllowed
            && s'.global.totalDropped == Consumed(s.global, COST, c.now).0.totalDropped
            && s'.ips == (if reach.StoppedGlobal? then s.ips else Charge(s.ips, c.ip, cfg.perIpLimit, c.now).0)
            && s'.sessions == (if pastIp && c.session.Some?
                               then Charge(s.sessions, c.session.value, cfg.perSessionLimit, c.now).0 else s.sessions)
            && s'.endpoints == (if pastSession && c.endpoint.Some?
                                then Charge(s.endpoints, c.endpoint.value, cfg.perEndpointLimit, c.now).0 else s.endpoints)
            && (d == Allowed <==> reach.Admitted?)
  {
    hide Consumed;
  }

  ghost function AllowedOf<K>(m: map<K, Bucket>): map<K, nat> {
    map k | k in m :: m[k].totalAllowed
  }

  ghost function DroppedOf<K>(m: map<K, Bucket>): map<K, nat> {
    map k | k in m :: m[k].totalDropped
  }

  ghost function Grants<K>(m: map<K, Bucket>): nat {
    Sum(AllowedOf(m))
  }

  ghost function Drops<K>(m: map<K, Bucket>): nat {
    Sum(DroppedOf(m))
  }

  /** No counter of the map has reached `n` yet. */
  ghost predicate Below<K>(m: map<K, Bucket>, n: nat) {
    forall k :: k in m ==> m[k].totalAllowed < n && m[k].totalDropped < n
  }

  lemma ConsumeCounts(b: Bucket, now: real)
    requires b.totalAllowed < U64_MAX && b.totalDropped < U64_MAX
    ensures var (b', granted) := Consumed(b, COST, now);
            && b'.totalAllowed == b.totalAllowed + CountIf(granted)
            && b'.totalDropped == b.totalDropped + CountIf(!granted)
  {
  }

  lemma GrantsUpdate<K>(m: map<K, Bucket>, k: K, b: Bucket)
    ensures Grants(m[k := b]) + (if k in m then m[k].totalAllowed else 0) == Grants(m) + b.totalAllowed
  {
    assert AllowedOf(m[k := b]) == AllowedOf(m)[k := b.totalAllowed];
    SumUpdate(AllowedOf(m), k, b.totalAllowed);
  }

  lemma DropsUpdate<K>(m: map<K, Bucket>, k: K, b: Bucket)
    ensures Drops(m[k := b]) + (if k in m then m[k].totalDropped else 0) == Drops(m) + b.totalDropped
  {
    assert DroppedOf(m[k := b]) == DroppedOf(m)[k := b.totalDropped];
    SumUpdate(DroppedOf(m), k, b.totalDropped);
  }

  lemma ChargeCounts<K>(m: map<K, Bucket>, k: K, limit: nat, now: real)
    requires Below(m, U64_MAX)
    ensures var (m', granted) := Charge(m, k, limit, now);
            && Grants(m') == Grants(m) + CountIf(granted)
            && Drops(m') == Drops(m) + CountIf(!granted)
  {
    hide Consumed, Grants, Drops;
    var b := if k in m then m[k] else Fresh(limit as real, limit as real, now);
    ConsumeCounts(b, now);
    GrantsUpdate(m, k, Consumed(b, COST, now).0);
    DropsUpdate(m, k, Consumed(b, COST, now).0);
  }

  lemma SumsBound<K>(m: map<K, Bucket>, n: nat)
    requires Grants(m) < n && Drops(m) < n
    ensures Below(m, n)
  {
    forall k | k in m
      ensures m[k].totalAllowed < n && m[k].totalDropped < n
    {
      SumWithout(AllowedOf(m), k);
      SumWithout(DroppedOf(m), k);
    }
  }

  datatype Kind = PastIpWithoutSession | PastSessionWithoutEndpoint | AllowedCalls

  predicate Counts(kind: Kind, c: Call, reach: Reach, d: Decision) {
    match kind
    case PastIpWithoutSession => c.session.None? && !reach.StoppedGlobal? && !reach.StoppedIp?
    case PastSessionWithoutEndpoint => c.endpoint.None? && reach.Admitted?
    case AllowedCalls => d == Allowed
  }

  /** How many of the first `n` calls of the run are of that kind. */
  function Tally(cfg: Config, s: Limiter, calls: seq<Call>, n: nat, kind: Kind): nat
    requires n <= |calls|
  {
    if n == 0 then 0 else
      var before := StateAt(cfg, s, calls, n - 1);
      Tally(cfg, s, calls, n - 1, kind)
      + CountIf(Counts(kind, calls[n - 1], ReachOf(cfg, before, calls[n - 1]), DecisionAt(cfg, s, calls, n - 1)))
  }

  /** Every request that passes a tier is counted by the next one, or had nothing to present there. */
  ghost predicate Conserved(st: Limiter, n: nat, noSession: nat, noEndpoint: nat, allowed: nat) {
    && st.global.totalAllowed + st.global.totalDropped == n
    && Grants(st.ips) + Drops(st.ips) == st.global.totalAllowed
    && Grants(st.sessions) + Drops(st.sessions) + noSession == Grants(st.ips)
    && Grants(st.endpoints) + Drops(st.endpoints) + noEndpoint == Grants(st.sessions) + noSession
    && allowed == Grants(st.endpoints) + noEndpoint
  }

  lemma CallConserves(cfg: Config, s: Limiter, c: Call, n: nat, noSession: nat, noEndpoint: nat, allowed: nat)
    requires Conserved(s, n, noSession, noEndpoint, allowed) && n < U64_MAX
    ensures var (s', d) := CheckRate(cfg, s, c);
            var reach := ReachOf(cfg, s, c);
            Conserved(s', n + 1,
                      noSession + CountIf(Counts(PastIpWithoutSession, c, reach, d)),
                      noEndpoint + CountIf(Counts(PastSessionWithoutEndpoint, c, reach, d)),
                      allowed + CountIf(Counts(AllowedCalls, c, reach, d)))
  {
    hide Charge, Grants, Drops, CheckRate;
    ReachDecides(cfg, s, c);
    SumsBound(s.ips, U64_MAX);
    SumsBound(s.sessions, U64_MAX);
    SumsBound(s.endpoints, U64_MAX);
    ChargeCounts(s.ips, c.ip, cfg.perIpLimit, c.now);
    if c.session.Some? {
      ChargeCounts(s.sessions, c.session.value, cfg.perSessionLimit, c.now);
    }
    if c.endpoint.Some? {
      ChargeCounts(s.endpoints, c.endpoint.value, cfg.perEndpointLimit, c.now);
    }
  }

  lemma NothingCounted<K>()
    ensures Grants<K>(map[]) == 0 && Drops<K>(map[]) == 0
  {
    assert AllowedOf<K>(map[]) == map[] && DroppedOf<K>(map[]) == map[];
  }

  lemma StartConserves(cfg: Config, start: real)
    ensures Conserved(Start(cfg, start), 0, 0, 0, 0)
  {
    NothingCounted<IpAddr>();
    NothingCounted<string>();
  }

  /** The conservation law after every prefix of every run that is too short to saturate a counter. */
  lemma {:induction false} CountersConserved(cfg: Config, start: real, calls: seq<Call>, n: nat)
    requires n <= |calls| && n <= U64_MAX
    ensures Conserved(StateAt(cfg, Start(cfg, start), calls, n), n,
                      Tally(cfg, Start(cfg, start), calls, n, PastIpWithoutSession),
                      Tally(cfg, Start(cfg, start), calls, n, PastSessionWithoutEndpoint),
                      Tally(cfg, Start(cfg, start), calls, n, AllowedCalls))
  {
    hide CheckRate, ReachOf, Counts, Conserved, Start;
    if n == 0 {
      StartConserves(cfg, start);
    } else {
      CountersConserved(cfg, start, calls, n - 1);
      CallConserves(cfg, StateAt(cfg, Start(cfg, start), calls, n - 1), calls[n - 1], n - 1,
                    Tally(cfg, Start(cfg, start), calls, n - 1, PastIpWithoutSession),
                    Tally(cfg, Start(cfg, start), calls, n - 1, PastSessionWithoutEndpoint),
                    Tally(cfg, Start(cfg, start), calls, n - 1, AllowedCalls));
    }
  }

  /** What the global bucket let in is either allowed in the end or dropped by exactly one lower tier. */
  lemma GlobalAdmissionsAccountedFor(cfg: Config, start: real, calls: seq<Call>)
    requires |calls| <= U64_MAX
    ensures var st := StateAt(cfg, Start(cfg, start), calls, |calls|);
            (st.global.totalAllowed
             == Tally(cfg, Start(cfg, start), calls, |calls|, AllowedCalls)
                + Drops(st.ips) + Drops(st.sessions) + Drops(st.endpoints))
  {
    CountersConserved(cfg, start, calls, |calls|);
  }
}
