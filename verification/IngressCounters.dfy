/** The per-address connection counters and the table they stand for. */
module IngressCounters {
  import opened Common
  import opened IngressFilter

  ghost function LiveFrom(f: Filter, ip: IpAddr): set<ConnectionKey> {
    set k | k in f.connections && k.srcIp == ip
  }

  /** The counter of every address covers its entries in the table. */
  ghost predicate Covered(f: Filter) {
    forall ip :: ConnectionCount(f, ip) >= |LiveFrom(f, ip)|
  }

  lemma ValidateEffect(maxSize: nat, f: Filter, p: Packet, now: real, ip: IpAddr)
    ensures var (f', v) := Validated(maxSize, f, p, now);
            && ConnectionCount(f', ip) == ConnectionCount(f, ip)
            && LiveFrom(f', ip) <= LiveFrom(f, ip)
            && |LiveFrom(f', ip)| <= |LiveFrom(f, ip)|
            && (f'.connections == f.connections ==> LiveFrom(f', ip) == LiveFrom(f, ip))
            && (v == Allow ==> ConnectionCount(f, p.key.srcIp) < CONNECTION_LIMIT)
  {
    SubsetCount(LiveFrom(Validated(maxSize, f, p, now).0, ip), LiveFrom(f, ip));
  }

  lemma ConnectEffect(f: Filter, p: Packet, malicious: bool, now: real, ip: IpAddr)
    requires ConnectionCount(f, ip) < U64_MAX
    ensures var f' := Connected(f, p, malicious, now).0;
            var added := if !malicious && p.key !in f.connections && p.key.srcIp == ip then 1 else 0;
            && ConnectionCount(f', ip) == ConnectionCount(f, ip) + added
            && |LiveFrom(f', ip)| == |LiveFrom(f, ip)| + added
  {
    var f' := Connected(f, p, malicious, now).0;
    if !malicious && p.key !in f.connections && p.key.srcIp == ip {
      assert LiveFrom(f', ip) == LiveFrom(f, ip) + {p.key};
    } else {
      assert LiveFrom(f', ip) == LiveFrom(f, ip);
    }
  }

  lemma RegisterEffect(f: Filter, p: Packet, now: real, ip: IpAddr)
    ensures var f' := Registered(f, p, now);
            var added := if p.key !in f.connections && p.key.srcIp == ip then 1 else 0;
            && ConnectionCount(f', ip) == ConnectionCount(f, ip)
            && |LiveFrom(f', ip)| == |LiveFrom(f, ip)| + added
  {
    var f' := Registered(f, p, now);
    if p.key !in f.connections && p.key.srcIp == ip {
      assert LiveFrom(f', ip) == LiveFrom(f, ip) + {p.key};
    } else {
      assert LiveFrom(f', ip) == LiveFrom(f, ip);
    }
  }

  lemma RemoveEffect(f: Filter, p: Packet, ip: IpAddr)
    ensures var f' := Removed(f, p);
            var c := ConnectionCount(f, ip);
            && ConnectionCount(f', ip) == (if p.key.srcIp == ip && c > 0 then c - 1 else c)
            && |LiveFrom(f', ip)| == |LiveFrom(f, ip)| - (if p.key in LiveFrom(f, ip) then 1 else 0)
  {
    var f' := Removed(f, p);
    if p.key in f.connections && p.key.srcIp == ip {
      assert LiveFrom(f', ip) == LiveFrom(f, ip) - {p.key};
    } else {
      assert LiveFrom(f', ip) == LiveFrom(f, ip);
    }
  }

  /** Removing keeps the counters covering exactly when the connection was tracked, or its address has
      a counter to spare or nothing left to cover. */
  lemma RemoveKeepsCoveredIff(f: Filter, p: Packet)
    requires Covered(f)
    ensures var ip := p.key.srcIp;
            (Covered(Removed(f, p))
             <==> p.key in f.connections || ConnectionCount(f, ip) > |LiveFrom(f, ip)| || LiveFrom(f, ip) == {})
  {
    var ip := p.key.srcIp;
    RemoveEffect(f, p, ip);
    forall other
      ensures other != ip ==> ConnectionCount(Removed(f, p), other) >= |LiveFrom(Removed(f, p), other)|
    {
      RemoveEffect(f, p, other);
    }
    assert p.key in f.connections ==> p.key in LiveFrom(f, ip);
    assert Covered(Removed(f, p)) ==> ConnectionCount(Removed(f, p), ip) >= |LiveFrom(Removed(f, p), ip)|;
  }

  /** Registering keeps the counters covering exactly when the connection was tracked already or its
      address has a counter to spare. */
  lemma RegisterKeepsCoveredIff(f: Filter, p: Packet, now: real)
    requires Covered(f)
    ensures var ip := p.key.srcIp;
            (Covered(Registered(f, p, now))
             <==> p.key in f.connections || ConnectionCount(f, ip) > |LiveFrom(f, ip)|)
  {
    var ip := p.key.srcIp;
    RegisterEffect(f, p, now, ip);
    forall other
      ensures other != ip ==> ConnectionCount(Registered(f, p, now), other) >= |LiveFrom(Registered(f, p, now), other)|
    {
      RegisterEffect(f, p, now, other);
    }
    assert Covered(Registered(f, p, now)) ==>
             ConnectionCount(Registered(f, p, now), ip) >= |LiveFrom(Registered(f, p, now), ip)|;
  }

  /** Removing a connection that was never tracked leaves its address undercounted. */
  lemma UntrackedRemovalUndercounts(tracked: Packet, other: Packet, now: real)
    requires tracked.key != other.key && tracked.key.srcIp == other.key.srcIp
    ensures var f := Connected(Filter(map[], map[], now), tracked, false, now).0;
            Covered(f) && !Covered(Removed(f, other))
  {
    var empty := Filter(map[], map[], now);
    var f := Connected(empty, tracked, false, now).0;
    forall ip
      ensures ConnectionCount(f, ip) == |LiveFrom(f, ip)| <= 1
    {
      assert LiveFrom(empty, ip) == {};
      ConnectEffect(empty, tracked, false, now, ip);
    }
    assert tracked.key in LiveFrom(f, other.key.srcIp);
    RemoveKeepsCoveredIff(f, other);
  }

  /** So does registering a connection before any other. */
  lemma RegistrationUndercounts(p: Packet, now: real)
    ensures var empty := Filter(map[], map[], now);
            Covered(empty) && !Covered(Registered(empty, p, now))
  {
    var empty := Filter(map[], map[], now);
    forall ip
      ensures ConnectionCount(empty, ip) == |LiveFrom(empty, ip)|
    {
      assert LiveFrom(empty, ip) == {};
    }
    RegisterKeepsCoveredIff(empty, p, now);
  }

  /** One operation of a run in which only tracked connections are removed and none is registered. */
  predicate Disciplined(f: Filter, op: Op) {
    !op.Register? && (op.Remove? ==> op.p.key in f.connections)
  }

  lemma StepCounts(maxSize: nat, f: Filter, op: Op, ip: IpAddr)
    requires Disciplined(f, op) && ConnectionCount(f, ip) < U64_MAX
    requires ConnectionCount(f, ip) >= |LiveFrom(f, ip)|
    ensures var f' := Step(maxSize, f, op).0;
            && ConnectionCount(f', ip) >= |LiveFrom(f', ip)|
            && ConnectionCount(f', ip) <= ConnectionCount(f, ip) + 1
            && (ConnectionCount(f, ip) == |LiveFrom(f, ip)| && (op.Validate? ==> f'.connections == f.connections) ==>
                  ConnectionCount(f', ip) == |LiveFrom(f', ip)|)
  {
    match op {
      case Validate(p, now) => ValidateEffect(maxSize, f, p, now, ip);
      case Connect(p, malicious, now) => ConnectEffect(f, p, malicious, now, ip);
      case Register(p, now) =>
      case Remove(p, _) => RemoveEffect(f, p, ip);
    }
  }

  /** Over connections, cleanups and removals of tracked connections the counter of every address covers
      its live entries. */
  lemma {:induction false} CountersCoverTable(maxSize: nat, start: real, ops: seq<Op>, n: nat, ip: IpAddr)
    requires n <= |ops| < U64_MAX
    requires forall k :: 0 <= k < n ==> Disciplined(StateAt(maxSize, start, ops, k), ops[k])
    ensures var f := StateAt(maxSize, start, ops, n);
            |LiveFrom(f, ip)| <= ConnectionCount(f, ip) <= n
  {
    hide Step;
    if n == 0 {
      assert LiveFrom(StateAt(maxSize, start, ops, 0), ip) == {};
    } else {
      hide LiveFrom, ConnectionCount;
      CountersCoverTable(maxSize, start, ops, n - 1, ip);
      StepCounts(maxSize, StateAt(maxSize, start, ops, n - 1), ops[n - 1], ip);
    }
  }

  /** No validation among the first `n` operations has dropped an entry from the table. */
  ghost predicate NothingExpired(maxSize: nat, start: real, ops: seq<Op>, n: nat)
    requires n <= |ops|
  {
    forall k {:trigger ops[k]} :: 0 <= k < n && ops[k].Validate? ==>
      StateAt(maxSize, start, ops, k + 1).connections == StateAt(maxSize, start, ops, k).connections
  }

  /** Until a cleanup expires an entry, the counters are exact. */
  lemma {:induction false} CountersExactUntilExpiry(maxSize: nat, start: real, ops: seq<Op>, n: nat, ip: IpAddr)
    requires n <= |ops| < U64_MAX && NothingExpired(maxSize, start, ops, n)
    requires forall k :: 0 <= k < n ==> Disciplined(StateAt(maxSize, start, ops, k), ops[k])
    ensures ConnectionCount(StateAt(maxSize, start, ops, n), ip) == |LiveFrom(StateAt(maxSize, start, ops, n), ip)|
  {
    hide Step;
    if n == 0 {
      assert LiveFrom(StateAt(maxSize, start, ops, 0), ip) == {};
    } else {
      hide LiveFrom, ConnectionCount;
      CountersExactUntilExpiry(maxSize, start, ops, n - 1, ip);
      CountersCoverTable(maxSize, start, ops, n - 1, ip);
      StepCounts(maxSize, StateAt(maxSize, start, ops, n - 1), ops[n - 1], ip);
    }
  }

  /** Every connection is admitted right after its packet was validated and allowed. */
  ghost predicate ValidatedFirst(maxSize: nat, start: real, ops: seq<Op>) {
    forall k :: 0 <= k < |ops| && ops[k].Connect? ==>
      k > 0 && ops[k - 1].Validate? && ops[k - 1].p == ops[k].p && VerdictAt(maxSize, start, ops, k - 1) == Allow
  }

  /** The connection limit: if each connection follows the validation of its packet, no source ever has
      more than 1000 live entries. */
  lemma {:induction false} ConnectionLimitHolds(maxSize: nat, start: real, ops: seq<Op>, n: nat, ip: IpAddr)
    requires n <= |ops| < U64_MAX && ValidatedFirst(maxSize, start, ops)
    requires forall k :: 0 <= k < n ==> Disciplined(StateAt(maxSize, start, ops, k), ops[k])
    ensures |LiveFrom(StateAt(maxSize, start, ops, n), ip)| <= 1000
  {
    if n == 0 {
      assert LiveFrom(StateAt(maxSize, start, ops, 0), ip) == {};
    } else {
      var f := StateAt(maxSize, start, ops, n - 1);
      CountersCoverTable(maxSize, start, ops, n - 1, ip);
      ConnectionLimitHolds(maxSize, start, ops, n - 1, ip);
      match ops[n - 1] {
        case Validate(p, now) => ValidateEffect(maxSize, f, p, now, ip);
        case Connect(p, malicious, now) =>
          ConnectEffect(f, p, malicious, now, ip);
          ValidateEffect(maxSize, StateAt(maxSize, start, ops, n - 2), p, ops[n - 2].now, ip);
        case Register(p, now) =>
        case Remove(p, _) => RemoveEffect(f, p, ip);
      }
    }
  }
}
