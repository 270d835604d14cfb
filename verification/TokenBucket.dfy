/** The bursting token bucket (`RateLimitBucket`).
    Tokens and seconds are reals; every operation takes the clock reading it uses. */
module TokenBucket {
  import opened Common

  const BURST_MULTIPLIER := 5.0
  const EMA_ALPHA := 0.125

  datatype Bucket = Bucket(
    tokens: real,
    capacity: real,
    burstCapacity: real,
    refillRate: real,
    lastRefill: real,
    burstAllowed: bool,
    consecutiveDrops: nat,
    totalAllowed: nat,
    totalDropped: nat,
    trafficEma: real)
  {
    /** The most tokens the bucket may hold at present. */
    function Ceiling(): real {
      if burstAllowed then burstCapacity else capacity
    }

    predicate Valid() {
      0.0 <= capacity <= burstCapacity && 0.0 <= refillRate && 0.0 <= tokens <= Ceiling()
    }

    /** The settings no refill, take or peek ever changes. */
    predicate SameSettings(that: Bucket) {
      && capacity == that.capacity && burstCapacity == that.burstCapacity
      && refillRate == that.refillRate && burstAllowed == that.burstAllowed
    }
  }

  function Fresh(capacity: real, refillRate: real, now: real): Bucket {
    Bucket(capacity, capacity, capacity * BURST_MULTIPLIER, refillRate, now, true, 0, 0, 0, 0.0)
  }

  function Ema(consumed: real, ema: real): real {
    EMA_ALPHA * consumed + (1.0 - EMA_ALPHA) * ema
  }

  /** A clock reading that is not later than the last refill counts as no time at all. */
  function Refilled(b: Bucket, now: real): Bucket {
    if now <= b.lastRefill then b
    else b.(tokens := Min(b.tokens + Accrued(b.refillRate, now - b.lastRefill), b.Ceiling()), lastRefill := now)
  }

  function Consumed(b: Bucket, cost: real, now: real): (Bucket, bool) {
    var r := Refilled(b, now);
    if r.tokens >= cost then
      (r.(tokens := r.tokens - cost,
          consecutiveDrops := 0,
          totalAllowed := SaturatingInc(r.totalAllowed),
          trafficEma := Ema(cost, r.trafficEma)), true)
    else
      (r.(consecutiveDrops := (r.consecutiveDrops + 1) % (U64_MAX + 1),
          totalDropped := SaturatingInc(r.totalDropped)), false)
  }

  /** Tokens handed back are clamped to the plain capacity, not to the burst capacity. */
  function Refunded(b: Bucket, amount: real): Bucket {
    b.(tokens := Min(b.tokens + amount, b.capacity))
  }

  function WithoutBurst(b: Bucket): Bucket {
    b.(burstAllowed := false, tokens := Min(b.tokens, b.capacity))
  }

  class RateLimitBucket {
    var tokens: real
    var capacity: real
    var burstCapacity: real
    var refillRate: real
    var lastRefill: real
    var burstAllowed: bool
    var consecutiveDrops: nat
    var totalAllowed: nat
    var totalDropped: nat
    var trafficEma: real

    ghost function State(): Bucket
      reads this
    {
      Bucket(tokens, capacity, burstCapacity, refillRate, lastRefill, burstAllowed,
             consecutiveDrops, totalAllowed, totalDropped, trafficEma)
    }

    constructor (capacity: real, refillRate: real, now: real)
      ensures State() == Fresh(capacity, refillRate, now)
    {
      this.tokens := capacity;
      this.capacity := capacity;
      this.burstCapacity := capacity * BURST_MULTIPLIER;
      this.refillRate := refillRate;
      this.lastRefill := now;
      this.burstAllowed := true;
      this.consecutiveDrops, this.totalAllowed, this.totalDropped := 0, 0, 0;
      this.trafficEma := 0.0;
    }

    method Refill(now: real)
      modifies this
      ensures State() == Refilled(old(State()), now)
    {
      if now <= lastRefill {
        return;
      }
      var refillAmount := (now - lastRefill) * refillRate;
      var effectiveCapacity := if burstAllowed then burstCapacity else capacity;
      tokens := Min(tokens + refillAmount, effectiveCapacity);
      lastRefill := now;
    }

    method TryConsume(cost: real, now: real) returns (granted: bool)
      modifies this
      ensures (State(), granted) == Consumed(old(State()), cost, now)
      ensures granted ==> tokens == Refilled(old(State()), now).tokens - cost
      ensures !granted ==> tokens == Refilled(old(State()), now).tokens < cost
    {
      Refill(now);
      if tokens >= cost {
        tokens := tokens - cost;
        consecutiveDrops := 0;
        totalAllowed := SaturatingInc(totalAllowed);
        trafficEma := EMA_ALPHA * cost + (1.0 - EMA_ALPHA) * trafficEma;
        granted := true;
      } else {
        consecutiveDrops := (consecutiveDrops + 1) % (U64_MAX + 1);
        totalDropped := SaturatingInc(totalDropped);
        granted := false;
      }
    }

    method AvailableTokens(now: real) returns (available: real)
      modifies this
      ensures State() == Refilled(old(State()), now)
      ensures available == tokens
    {
      Refill(now);
      available := tokens;
    }

    method RefillBucket(amount: real)
      modifies this
      ensures State() == Refunded(old(State()), amount)
    {
      tokens := Min(tokens + amount, capacity);
    }

    method ResetBurst()
      modifies this
      ensures State() == WithoutBurst(old(State()))
    {
      burstAllowed := false;
      if tokens > capacity {
        tokens := capacity;
      }
    }

    method EnableBurst()
      modifies this
      ensures State() == old(State()).(burstAllowed := true)
    {
      burstAllowed := true;
    }
  }

  // ---- one step ----

  lemma RefillKeepsValid(b: Bucket, now: real)
    requires b.Valid()
    ensures Refilled(b, now).Valid() && Refilled(b, now).SameSettings(b)
    ensures Refilled(b, now).tokens >= b.tokens
  {
    if now > b.lastRefill {
      AccruedGrows(b.refillRate, now - b.lastRefill);
    }
  }

  /** Refilling in two steps is the same as refilling once. */
  lemma RefillComposes(b: Bucket, first: real, second: real)
    requires b.refillRate >= 0.0 && first <= second
    ensures Refilled(Refilled(b, first), second) == Refilled(b, second)
  {
    if b.lastRefill < first < second {
      AccruedGrows(b.refillRate, second - first);
      AccruedAdds(b.refillRate, first - b.lastRefill, second - first);
      assert (first - b.lastRefill) + (second - first) == second - b.lastRefill;
    }
  }

  /** Waiting gains at most `rate` tokens a second. */
  lemma RefillRateBound(b: Bucket, first: real, second: real)
    requires b.Valid() && first <= second
    ensures Refilled(b, second).tokens <= Refilled(b, first).tokens + Accrued(b.refillRate, second - first)
  {
    RefillComposes(b, first, second);
    var r := Refilled(b, first);
    RefillKeepsValid(b, first);
    AccruedGrows(b.refillRate, second - first);
    if r.lastRefill < second {
      AccruedGrows(b.refillRate, r.lastRefill - first);
      AccruedAdds(b.refillRate, r.lastRefill - first, second - r.lastRefill);
      assert (r.lastRefill - first) + (second - r.lastRefill) == second - first;
    }
  }

  // ---- whole runs ----

  datatype Op =
    | Peek(now: real)
    | Take(now: real, cost: real)
    | Refund(now: real, amount: real)
    | StopBurst(now: real)
    | StartBurst(now: real)

  datatype Outcome = Level(tokens: real) | Granted | Refused | Done

  function At(op: Op): real {
    op.now
  }

  function Step(b: Bucket, op: Op): (Bucket, Outcome) {
    match op
    case Peek(now) => (Refilled(b, now), Level(Refilled(b, now).tokens))
    case Take(now, cost) =>
      var (after, granted) := Consumed(b, cost, now);
      (after, if granted then Granted else Refused)
    case Refund(_, amount) => (Refunded(b, amount), Done)
    case StopBurst(_) => (WithoutBurst(b), Done)
    case StartBurst(_) => (b.(burstAllowed := true), Done)
  }

  function Outcomes(b: Bucket, ops: seq<Op>): (os: seq<Outcome>)
    ensures |os| == |ops|
    decreases |ops|
  {
    if ops == [] then [] else
      var (after, o) := Step(b, ops[0]);
      [o] + Outcomes(after, ops[1..])
  }

  lemma OutcomesCons(b: Bucket, ops: seq<Op>)
    requires ops != []
    ensures Outcomes(b, ops)[0] == Step(b, ops[0]).1
    ensures Outcomes(b, ops)[1..] == Outcomes(Step(b, ops[0]).0, ops[1..])
    ensures forall i :: 0 <= i < |ops| - 1 ==> Outcomes(b, ops)[i + 1] == Outcomes(Step(b, ops[0]).0, ops[1..])[i]
  {
  }

  // ---- peeking and failing are invisible ----

  /** The elements of `xs` that are marked to be kept, in order. */
  function Kept<T>(xs: seq<T>, keep: seq<bool>): seq<T>
    requires |xs| == |keep|
  {
    if xs == [] then [] else (if keep[0] then [xs[0]] else []) + Kept(xs[1..], keep[1..])
  }

  /** Only peeks and refused takes are dropped. */
  ghost predicate DropsSilentOnly(b: Bucket, ops: seq<Op>, keep: seq<bool>)
    requires |ops| == |keep|
  {
    forall i :: 0 <= i < |ops| && !keep[i] ==> ops[i].Peek? || Outcomes(b, ops)[i] == Refused
  }

  /** `r` is an earlier view of `s`: letting time pass turns one into the other. */
  predicate Lags(r: Bucket, s: Bucket) {
    && r.SameSettings(s) && r.capacity <= r.burstCapacity && 0.0 <= r.refillRate && r.lastRefill <= s.lastRefill
    && Refilled(r, s.lastRefill).tokens == s.tokens
  }

  lemma LagsAlike(r: Bucket, s: Bucket, now: real)
    requires Lags(r, s) && s.lastRefill <= now
    ensures Refilled(r, now).tokens == Refilled(s, now).tokens
    ensures Refilled(r, now).lastRefill == Refilled(s, now).lastRefill
  {
    RefillComposes(r, s.lastRefill, now);
  }

  lemma LagsWithoutBurst(r: Bucket, s: Bucket)
    requires Lags(r, s)
    ensures Lags(WithoutBurst(r), WithoutBurst(s))
  {
    AccruedGrows(r.refillRate, s.lastRefill - r.lastRefill);
  }

  lemma LagsAfterStep(r: Bucket, s: Bucket, op: Op, keep: bool)
    requires Lags(r, s) && s.lastRefill <= op.now && !op.Refund? && !op.StartBurst?
    requires !keep ==> op.Peek? || Step(s, op).1 == Refused
    ensures Lags(if keep then Step(r, op).0 else r, Step(s, op).0)
    ensures keep ==> Step(r, op).1 == Step(s, op).1
    ensures Step(s, op).0.lastRefill <= op.now
  {
    hide Accrued;
    LagsAlike(r, s, op.now);
    if op.StopBurst? {
      LagsWithoutBurst(r, s);
    }
  }

  /** Dropping any peeks and any refused takes from a run changes no outcome of the others. */
  lemma {:induction false} SilentStepsInvisible(r: Bucket, s: Bucket, ops: seq<Op>, keep: seq<bool>)
    requires |ops| == |keep| && Lags(r, s) && Chronological(s.lastRefill, ops, At)
    requires forall op :: op in ops ==> !op.Refund? && !op.StartBurst?
    requires DropsSilentOnly(s, ops, keep)
    ensures Kept(Outcomes(s, ops), keep) == Outcomes(r, Kept(ops, keep))
    decreases |ops|
  {
    hide Lags, Step;
    if ops != [] {
      OutcomesCons(s, ops);
      assert ops[0] in ops;
      var s' := Step(s, ops[0]).0;
      var r' := if keep[0] then Step(r, ops[0]).0 else r;
      LagsAfterStep(r, s, ops[0], keep[0]);
      SilentStepsInvisible(r', s', ops[1..], keep[1..]);
      if keep[0] {
        assert Kept(ops, keep)[1..] == Kept(ops[1..], keep[1..]);
      } else {
        assert Kept(ops, keep) == Kept(ops[1..], keep[1..]);
        assert Kept(Outcomes(s, ops), keep) == Kept(Outcomes(s', ops[1..]), keep[1..]);
      }
    }
  }

  /** Peeking and failing are invisible: as long as nothing is refunded and bursting is not allowed anew,
      the outcomes of the kept operations are those of a run that never had the others. */
  lemma PeekingAndFailingInvisible(b: Bucket, ops: seq<Op>, keep: seq<bool>)
    requires 0.0 <= b.refillRate && b.capacity <= b.burstCapacity
    requires |ops| == |keep| && Chronological(b.lastRefill, ops, At)
    requires forall op :: op in ops ==> !op.Refund? && !op.StartBurst?
    requires DropsSilentOnly(b, ops, keep)
    ensures Kept(Outcomes(b, ops), keep) == Outcomes(b, Kept(ops, keep))
  {
    SilentStepsInvisible(b, b, ops, keep);
  }

  /** A refund clamps to the plain capacity what a refill may raise above it: a peek just before the refund
      leaves no trace exactly when the bucket may not burst, nothing has accrued, or everything fits the
      plain capacity. */
  lemma PeekBeforeRefundIff(b: Bucket, now: real, amount: real)
    requires b.Valid() && b.lastRefill <= now && amount >= 0.0
    ensures var accrued := Accrued(b.refillRate, now - b.lastRefill);
            (Refunded(Refilled(b, now), amount) == Refilled(Refunded(b, amount), now)
             <==> b.Ceiling() == b.capacity || accrued == 0.0 || b.tokens + accrued + amount <= b.capacity)
  {
    AccruedGrows(b.refillRate, now - b.lastRefill);
  }

  /** Likewise for a peek just before bursting is allowed: it leaves no trace exactly when bursting was
      allowed already, adds nothing, or what has accrued fits the plain capacity. */
  lemma PeekBeforeBurstIff(b: Bucket, now: real)
    requires b.Valid() && b.lastRefill <= now
    ensures (Refilled(b, now).(burstAllowed := true) == Refilled(b.(burstAllowed := true), now)
             <==> || b.burstAllowed || b.burstCapacity == b.capacity
                  || b.tokens + Accrued(b.refillRate, now - b.lastRefill) <= b.capacity)
  {
    AccruedGrows(b.refillRate, now - b.lastRefill);
  }

  // ---- what a run can spend ----

  /** Total cost of the takes a run granted. */
  function Spent(ops: seq<Op>, os: seq<Outcome>): real
    requires |ops| == |os|
  {
    if ops == [] then 0.0 else
      (if ops[0].Take? && os[0] == Granted then ops[0].cost else 0.0) + Spent(ops[1..], os[1..])
  }

  function TotalRefunds(ops: seq<Op>): real {
    if ops == [] then 0.0 else (if ops[0].Refund? then ops[0].amount else 0.0) + TotalRefunds(ops[1..])
  }

  ghost predicate NothingNegative(ops: seq<Op>) {
    forall op :: op in ops ==> (op.Take? ==> op.cost >= 0.0) && (op.Refund? ==> op.amount >= 0.0)
  }

  /** The highest ceiling the bucket has in the course of a run. */
  ghost function HighestCeiling(b: Bucket, ops: seq<Op>): real {
    if exists op :: op in ops && op.StartBurst? then b.burstCapacity else b.Ceiling()
  }

  /** What the bucket could hold by `now` under the given ceiling. */
  function Potential(b: Bucket, now: real, ceiling: real): real {
    Min(b.tokens + Accrued(b.refillRate, Elapsed(b.lastRefill, now)), ceiling)
  }

  lemma PotentialAccrues(b: Bucket, first: real, second: real, ceiling: real)
    requires b.refillRate >= 0.0 && b.lastRefill <= first <= second
    ensures Potential(b, second, ceiling) <= Potential(b, first, ceiling) + Accrued(b.refillRate, second - first)
  {
    AccruedGrows(b.refillRate, second - first);
    AccruedAdds(b.refillRate, first - b.lastRefill, second - first);
    assert (first - b.lastRefill) + (second - first) == second - b.lastRefill;
  }

  /** One operation: what it spends comes out of the potential, and only a refund adds to that. */
  lemma OpDraws(b: Bucket, op: Op, ceiling: real)
    requires b.Valid() && b.lastRefill <= op.now && NothingNegative([op])
    requires HighestCeiling(b, [op]) <= ceiling
    ensures var (b', o) := Step(b, op);
            && b'.Valid() && b'.lastRefill <= op.now
            && b'.refillRate == b.refillRate && b'.burstCapacity == b.burstCapacity && b'.Ceiling() <= ceiling
            && (b'.Ceiling() <= b.Ceiling() || op.StartBurst?)
            && Potential(b', op.now, ceiling) >= 0.0
            && Potential(b', op.now, ceiling) + Spent([op], [o])
               <= Potential(b, op.now, ceiling) + TotalRefunds([op])
  {
    assert op in [op];
    AccruedGrows(b.refillRate, Elapsed(b.lastRefill, op.now));
    AccruedZero(b.refillRate);
    hide Accrued;
  }

  lemma {:induction false} SpendingUnderCeiling(b: Bucket, ops: seq<Op>, ceiling: real)
    requires b.Valid() && ops != [] && Chronological(b.lastRefill, ops, At) && NothingNegative(ops)
    requires HighestCeiling(b, ops) <= ceiling
    ensures Spent(ops, Outcomes(b, ops))
         <= Potential(b, ops[0].now, ceiling) + TotalRefunds(ops)
            + Accrued(b.refillRate, ops[|ops| - 1].now - ops[0].now)
    decreases |ops|
  {
    hide Accrued, Potential, Step;
    var op, rest := ops[0], ops[1..];
    assert op in ops;
    OutcomesCons(b, ops);
    OpDraws(b, op, ceiling);
    var b' := Step(b, op).0;
    assert Outcomes(b', rest) == Outcomes(b, ops)[1..];
    assert Spent(ops, Outcomes(b, ops)) == Spent([op], [Step(b, op).1]) + Spent(rest, Outcomes(b', rest));
    assert TotalRefunds(ops) == TotalRefunds([op]) + TotalRefunds(rest);
    if rest == [] {
      AccruedZero(b.refillRate);
    } else {
      SpendingUnderCeiling(b', rest, ceiling);
      PotentialAccrues(b', op.now, rest[0].now, ceiling);
      AccruedAdds(b.refillRate, rest[0].now - op.now, rest[|rest| - 1].now - rest[0].now);
      assert (rest[0].now - op.now) + (rest[|rest| - 1].now - rest[0].now) == ops[|ops| - 1].now - op.now;
    }
  }

  /** In any run of any operations, the granted costs are at most the bucket's highest ceiling, plus what
      accrues while the run lasts, plus what is refunded. */
  lemma SpendingBound(b: Bucket, ops: seq<Op>)
    requires b.Valid() && ops != [] && Chronological(b.lastRefill, ops, At) && NothingNegative(ops)
    ensures Spent(ops, Outcomes(b, ops))
         <= HighestCeiling(b, ops) + TotalRefunds(ops) + Accrued(b.refillRate, ops[|ops| - 1].now - ops[0].now)
  {
    SpendingUnderCeiling(b, ops, HighestCeiling(b, ops));
  }

  // ---- what a run attains, and what it leaves in the counters ----

  /** So many unit takes at one moment. */
  function UnitTakes(now: real, n: nat): seq<Op> {
    seq(n, i => Take(now, 1.0))
  }

  lemma {:induction false} UnitTakesDrain(b: Bucket, now: real, n: nat, k: nat)
    requires k < n
    ensures Outcomes(b, UnitTakes(now, n))[k]
         == if (k + 1) as real <= Refilled(b, now).tokens then Granted else Refused
    decreases n
  {
    var ops := UnitTakes(now, n);
    OutcomesCons(b, ops);
    assert ops[1..] == UnitTakes(now, n - 1);
    var after := Step(b, ops[0]).0;
    assert Refilled(after, now).tokens
        == Refilled(b, now).tokens - if Refilled(b, now).tokens >= 1.0 then 1.0 else 0.0;
    if k > 0 {
      UnitTakesDrain(after, now, n - 1, k - 1);
    }
  }

  /** The burst is five times the capacity: a new bucket of `n` tokens a second that has stood idle for four
      seconds or more grants exactly 5 * n unit takes at one moment. */
  lemma BurstAfterIdle(n: nat, since: real, now: real, takes: nat, k: nat)
    requires now - since >= 4.0 && k < takes
    ensures Outcomes(Fresh(n as real, n as real, since), UnitTakes(now, takes))[k]
         == if k < 5 * n then Granted else Refused
  {
    var b := Fresh(n as real, n as real, since);
    AccruedGrows(n as real, now - since - 4.0);
    AccruedAdds(n as real, 4.0, now - since - 4.0);
    assert 4.0 + (now - since - 4.0) == now - since;
    assert Accrued(n as real, 4.0) == 4.0 * n as real;
    assert Refilled(b, now).tokens == 5.0 * n as real;
    UnitTakesDrain(b, now, takes, k);
  }

  /** One that may not burst grants exactly its capacity. */
  lemma NoBurstAfterReset(n: nat, since: real, now: real, takes: nat, k: nat)
    requires since <= now && k < takes
    ensures Outcomes(WithoutBurst(Fresh(n as real, n as real, since)), UnitTakes(now, takes))[k]
         == if k < n then Granted else Refused
  {
    AccruedGrows(n as real, now - since);
    hide Accrued;
    UnitTakesDrain(WithoutBurst(Fresh(n as real, n as real, since)), now, takes, k);
  }

  /** The bucket after a run. */
  function After(b: Bucket, ops: seq<Op>): Bucket
    decreases |ops|
  {
    if ops == [] then b else After(Step(b, ops[0]).0, ops[1..])
  }

  function CountOf(os: seq<Outcome>, o: Outcome): nat {
    if os == [] then 0 else CountIf(os[0] == o) + CountOf(os[1..], o)
  }

  /** Refusals after the last grant, on top of `before` if nothing was granted. */
  function RefusedSinceGrant(os: seq<Outcome>, before: nat): nat
    decreases |os|
  {
    if os == [] then before
    else RefusedSinceGrant(os[1..], if os[0] == Granted then 0 else before + CountIf(os[0] == Refused))
  }

  lemma CountersAfterStep(b: Bucket, op: Op)
    requires b.totalAllowed < U64_MAX && b.totalDropped < U64_MAX && b.consecutiveDrops < U64_MAX
    ensures var (after, o) := Step(b, op);
            && after.totalAllowed == b.totalAllowed + CountIf(o == Granted)
            && after.totalDropped == b.totalDropped + CountIf(o == Refused)
            && after.consecutiveDrops == if o == Granted then 0 else b.consecutiveDrops + CountIf(o == Refused)
  {
    hide Accrued;
  }

  /** The counters tell what happened: grants, refusals, and refusals since the last grant. */
  lemma {:induction false} CountersTell(b: Bucket, ops: seq<Op>)
    requires b.totalAllowed + |ops| < U64_MAX && b.totalDropped + |ops| < U64_MAX
    requires b.consecutiveDrops + |ops| < U64_MAX
    ensures var after := After(b, ops);
            var os := Outcomes(b, ops);
            && after.totalAllowed == b.totalAllowed + CountOf(os, Granted)
            && after.totalDropped == b.totalDropped + CountOf(os, Refused)
            && after.consecutiveDrops == RefusedSinceGrant(os, b.consecutiveDrops)
    decreases |ops|
  {
    hide Step;
    if ops != [] {
      OutcomesCons(b, ops);
      CountersAfterStep(b, ops[0]);
      CountersTell(Step(b, ops[0]).0, ops[1..]);
    }
  }

  /** Each granted take brings the traffic average an eighth closer to its cost; nothing else moves it. */
  lemma AverageApproaches(b: Bucket, op: Op)
    ensures var (after, o) := Step(b, op);
            if o == Granted && op.Take?
            then 8.0 * (after.trafficEma - op.cost) == 7.0 * (b.trafficEma - op.cost)
            else after.trafficEma == b.trafficEma
  {
  }
}
