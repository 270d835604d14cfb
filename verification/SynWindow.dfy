/** What the flood check lets through and refuses, and the verdict on a packet check by check. */
module SynWindow {
  import opened Common
  import opened IngressFilter

  /** The operation presents a pure SYN from this source to the flood check. */
  predicate CountsSyn(op: Op, ip: IpAddr) {
    op.Validate? && op.p.key.srcIp == ip && OpensConnection(op.p)
  }

  predicate SameWindow(s: IpStats, t: IpStats) {
    s.synCount == t.synCount && s.synWindowStart == t.synWindowStart
  }

  /** What one operation does to the SYN window of one source: a SYN is counted whether or not it then
      passes, and nothing else touches the window. */
  lemma WindowStep(maxSize: nat, f: Filter, op: Op, ip: IpAddr)
    ensures var (f', v) := Step(maxSize, f, op);
            var s := StatsFor(f, ip, op.now);
            && (ip in f.stats ==> ip in f'.stats)
            && (CountsSyn(op, ip) ==>
                  && ip in f'.stats && SameWindow(f'.stats[ip], SynCounted(s, op.now))
                  && (v == SynFlood <==> SynCounted(s, op.now).synCount > SYN_THRESHOLD))
            && (!CountsSyn(op, ip) && ip in f'.stats ==> SameWindow(f'.stats[ip], s))
  {
    if op.Validate? {
      PureSynOpens(op.p);
    }
    hide SynCounted, PureSyn, OpensConnection, FlagsValid;
  }

  /** Pure SYNs from the source, among operations `i` up to but not including `n`, that the flood check
      let through. */
  function SynsPassed(maxSize: nat, start: real, ops: seq<Op>, ip: IpAddr, i: nat, n: nat): nat
    requires i <= n <= |ops|
  {
    if n == i then 0 else
      SynsPassed(maxSize, start, ops, ip, i, n - 1)
      + if CountsSyn(ops[n - 1], ip) && VerdictAt(maxSize, start, ops, n - 1) != SynFlood then 1 else 0
  }

  function AtMostThreshold(n: nat): nat {
    if n <= SYN_THRESHOLD then n else SYN_THRESHOLD
  }

  /** After `full` earlier windows, each with at most the threshold passed, the current one began later
      than `since + 5 * (full - 1)`. */
  predicate Windows(s: IpStats, passed: nat, full: nat, since: real) {
    && passed <= SYN_THRESHOLD * full + AtMostThreshold(s.synCount)
    && s.synWindowStart > since + SYN_WINDOW * (full as real - 1.0)
  }

  lemma CountedWindows(s: IpStats, now: real, passed: nat, full: nat, since: real) returns (full': nat)
    requires s.synWindowStart <= now && since <= now && (passed == 0 || Windows(s, passed, full, since))
    ensures var s' := SynCounted(s, now);
            && s'.synWindowStart <= now
            && Windows(s', passed + (if s'.synCount > SYN_THRESHOLD then 0 else 1), full', since)
  {
    full' := if passed == 0 then 0 else if Elapsed(s.synWindowStart, now) >= SYN_WINDOW then full + 1 else full;
  }

  lemma {:induction false} WindowStartsInPast(maxSize: nat, start: real, ops: seq<Op>, ip: IpAddr, n: nat)
    requires n <= |ops| && Chronological(start, ops, At)
    ensures ip in StateAt(maxSize, start, ops, n).stats ==>
              StateAt(maxSize, start, ops, n).stats[ip].synWindowStart <= ClockAt(start, ops, n)
  {
    hide Step;
    if n > 0 {
      WindowStartsInPast(maxSize, start, ops, ip, n - 1);
      assert ClockAt(start, ops, n - 1) <= ops[n - 1].now;
      WindowStep(maxSize, StateAt(maxSize, start, ops, n - 1), ops[n - 1], ip);
    }
  }

  lemma {:induction false} WindowsSince(maxSize: nat, start: real, ops: seq<Op>, ip: IpAddr, i: nat, n: nat)
    returns (full: nat)
    requires i <= n <= |ops| && i < |ops| && Chronological(start, ops, At)
    ensures var passed := SynsPassed(maxSize, start, ops, ip, i, n);
            passed > 0 ==>
              && ip in StateAt(maxSize, start, ops, n).stats
              && Windows(StateAt(maxSize, start, ops, n).stats[ip], passed, full, ops[i].now)
    decreases n
  {
    hide Step, SynCounted, CountsSyn;
    full := 0;
    if n > i {
      var before := StateAt(maxSize, start, ops, n - 1);
      var op := ops[n - 1];
      var s := StatsFor(before, ip, op.now);
      full := WindowsSince(maxSize, start, ops, ip, i, n - 1);
      WindowStartsInPast(maxSize, start, ops, ip, n - 1);
      assert ClockAt(start, ops, n - 1) <= op.now;
      WindowStep(maxSize, before, op, ip);
      if CountsSyn(op, ip) {
        full := CountedWindows(s, op.now, SynsPassed(maxSize, start, ops, ip, i, n - 1), full, ops[i].now);
      }
    }
  }

  function Ceiling(x: real): int {
    -((-x).Floor)
  }

  /** The sliding bound: although only a fixed window is kept, and blocked SYNs use it up too, between any
      two operations at most 100 * (ceil(L / 5) + 1) pure SYNs of one source pass the flood check, L being
      the seconds between them. */
  lemma SynSlidingBound(maxSize: nat, start: real, ops: seq<Op>, ip: IpAddr, i: nat, j: nat)
    requires i <= j < |ops| && Chronological(start, ops, At)
    ensures SynsPassed(maxSize, start, ops, ip, i, j + 1) <= 100 * (Ceiling((ops[j].now - ops[i].now) / 5.0) + 1)
    ensures ops[j].now - ops[i].now <= 5.0 ==> SynsPassed(maxSize, start, ops, ip, i, j + 1) <= 200
  {
    var full := WindowsSince(maxSize, start, ops, ip, i, j + 1);
    WindowStartsInPast(maxSize, start, ops, ip, j + 1);
    hide StateAt, SynsPassed;
    var span := (ops[j].now - ops[i].now) / 5.0;
    assert Ceiling(span) >= 0 && Ceiling(span) as real >= span;
    if SynsPassed(maxSize, start, ops, ip, i, j + 1) > 0 {
      assert full as real - 1.0 < span;
      assert full <= Ceiling(span);
    }
  }

  /** Pure SYNs from the source among operations `i` up to but not including `n`, passed or not. */
  function SynsPresented(ops: seq<Op>, ip: IpAddr, i: nat, n: nat): nat
    requires i <= n <= |ops|
  {
    if n == i then 0 else SynsPresented(ops, ip, i, n - 1) + CountIf(CountsSyn(ops[n - 1], ip))
  }

  /** A SYN opens a new window when its source is new or its last window began five seconds ago or more. */
  lemma WindowOpens(maxSize: nat, f: Filter, op: Op, ip: IpAddr)
    requires CountsSyn(op, ip) && (ip !in f.stats || f.stats[ip].synWindowStart + 5.0 <= op.now)
    ensures var (f', v) := Step(maxSize, f, op);
            && v != SynFlood && ip in f'.stats
            && f'.stats[ip].synCount == 1 && f'.stats[ip].synWindowStart == op.now
  {
    WindowStep(maxSize, f, op, ip);
    hide Step;
  }

  lemma {:induction false} WindowCounts(maxSize: nat, start: real, ops: seq<Op>, ip: IpAddr, w: nat, n: nat)
    requires w < n <= |ops| < U64_MAX && Chronological(start, ops, At)
    requires ip in StateAt(maxSize, start, ops, w + 1).stats
    requires StateAt(maxSize, start, ops, w + 1).stats[ip].synCount == SynsPresented(ops, ip, w, w + 1)
    requires StateAt(maxSize, start, ops, w + 1).stats[ip].synWindowStart == ops[w].now
    requires ops[n - 1].now < ops[w].now + 5.0
    ensures ip in StateAt(maxSize, start, ops, n).stats
    ensures StateAt(maxSize, start, ops, n).stats[ip].synCount == SynsPresented(ops, ip, w, n) <= n - w
    ensures StateAt(maxSize, start, ops, n).stats[ip].synWindowStart == ops[w].now
    decreases n
  {
    hide Step, CountsSyn;
    assert SynsPresented(ops, ip, w, w) == 0;
    if n > w + 1 {
      assert ops[n - 2].now <= ops[n - 1].now;
      WindowCounts(maxSize, start, ops, ip, w, n - 1);
      WindowStep(maxSize, StateAt(maxSize, start, ops, n - 1), ops[n - 1], ip);
    }
  }

  lemma OnlySynsFlood(maxSize: nat, f: Filter, op: Op)
    ensures Step(maxSize, f, op).1 == SynFlood ==> op.Validate? && OpensConnection(op.p)
  {
    if op.Validate? {
      PureSynOpens(op.p);
    }
    hide PureSyn, OpensConnection, SynStage, FlagsValid;
  }

  /** The flood check refuses exactly the pure SYNs from the hundred-and-first on in a window of less than
      five seconds, and no other packet. */
  lemma SynRefusedIff(maxSize: nat, start: real, ops: seq<Op>, ip: IpAddr, w: nat, n: nat)
    requires w < n < |ops| < U64_MAX && Chronological(start, ops, At)
    requires CountsSyn(ops[w], ip) && ops[n].Validate? && ops[n].p.key.srcIp == ip
    requires ip !in StateAt(maxSize, start, ops, w).stats
          || StateAt(maxSize, start, ops, w).stats[ip].synWindowStart + 5.0 <= ops[w].now
    requires ops[n].now < ops[w].now + 5.0
    ensures VerdictAt(maxSize, start, ops, n) == SynFlood
       <==> OpensConnection(ops[n].p) && SynsPresented(ops, ip, w, n + 1) >= 101
  {
    hide Step, OpensConnection;
    WindowOpens(maxSize, StateAt(maxSize, start, ops, w), ops[w], ip);
    assert SynsPresented(ops, ip, w, w) == 0;
    assert ops[n - 1].now <= ops[n].now;
    WindowCounts(maxSize, start, ops, ip, w, n);
    WindowStep(maxSize, StateAt(maxSize, start, ops, n), ops[n], ip);
    OnlySynsFlood(maxSize, StateAt(maxSize, start, ops, n), ops[n]);
  }

  /** The verdict on a packet, check by check. */
  lemma ValidationVerdict(maxSize: nat, f: Filter, p: Packet, now: real)
    ensures var v := Validated(maxSize, f, p, now).1;
            var ip := p.key.srcIp;
            var inWindow := if ip in f.stats && now < f.stats[ip].synWindowStart + 5.0 then f.stats[ip].synCount else 0;
            if p.payloadSize > maxSize then v == TooLarge
            else if OpensConnection(p) && inWindow >= 100 then v == SynFlood
            else if p.tcpFlags.Some? && !FlagsValid(p.tcpFlags.value) then v == BadFlags
            else if ip in f.stats && f.stats[ip].connectionCount >= 1000 then v == TooManyConnections
            else v == Allow
    ensures Validated(maxSize, f, p, now).1 != Allow ==>
              Validated(maxSize, f, p, now).0.connections == f.connections
  {
    PureSynOpens(p);
    hide PureSyn, OpensConnection, FlagsValid;
  }

  /** A packet from a blocked source is refused and leaves no trace; every other one is let through. */
  lemma ConnectionVerdict(f: Filter, p: Packet, malicious: bool, now: real)
    ensures Connected(f, p, malicious, now).1 == if malicious then BlockedRange else Allow
    ensures malicious ==> Connected(f, p, malicious, now).0 == f
  {
    hide SaturatingAdd;
  }
}
