/** Ingress filtering: the SYN window and the connection counter kept per source address, and the table
    of connections they stand for. */
module IngressFilter {
  import opened Common

  const SYN_THRESHOLD: nat := 100
  const SYN_WINDOW := 5.0
  const CONNECTION_LIMIT: nat := 1000
  const CONNECTION_EXPIRY := 300.0
  const CLEANUP_INTERVAL := 60.0

  datatype ConnectionKey = ConnectionKey(srcIp: IpAddr, dstIp: IpAddr, srcPort: nat, dstPort: nat, protocol: nat)

  datatype TcpState =
    | SynSent | SynReceived | Established
    | FinWait1 | FinWait2 | CloseWait | Closing | LastAck | TimeWait
    | Closed

  datatype Connection = Connection(tcpState: TcpState, lastSeen: real, packetCount: nat, byteCount: nat)

  datatype Packet = Packet(key: ConnectionKey, tcpFlags: Option<bv8>, payloadSize: nat)

  datatype IpStats = IpStats(connectionCount: nat, synCount: nat, synWindowStart: real, lastSeen: real)

  datatype Filter = Filter(
    connections: map<ConnectionKey, Connection>,
    stats: map<IpAddr, IpStats>,
    lastCleanup: real)

  datatype Verdict = Allow | TooLarge | SynFlood | BadFlags | TooManyConnections | BlockedRange

  function NewStats(now: real): IpStats {
    IpStats(0, 0, now, now)
  }

  function StatsFor(f: Filter, ip: IpAddr, now: real): IpStats {
    if ip in f.stats then f.stats[ip] else NewStats(now)
  }

  /** An empty TCP segment that asks for a connection and acknowledges nothing. */
  predicate PureSyn(p: Packet) {
    p.payloadSize == 0 && p.key.protocol == 6
    && p.tcpFlags.Some? && p.tcpFlags.value & 0x02 != 0 && p.tcpFlags.value & 0x10 == 0
  }

  predicate FlagsValid(flags: bv8) {
    && !(flags & 0x01 != 0 && flags & 0x04 != 0)
    && !(flags & 0x02 != 0 && flags & 0x14 != 0)
    && flags != 0
    && !(flags & 0x02 != 0 && flags & 0x01 != 0)
  }

  /** Count one SYN in the current window, starting a new window if that one is over. */
  function SynCounted(s: IpStats, now: real): IpStats {
    var w := if Elapsed(s.synWindowStart, now) >= SYN_WINDOW then s.(synCount := 0, synWindowStart := now) else s;
    w.(synCount := SaturatingInc(w.synCount))
  }

  function Unexpired(cs: map<ConnectionKey, Connection>, now: real): map<ConnectionKey, Connection> {
    map k | k in cs && Elapsed(cs[k].lastSeen, now) < CONNECTION_EXPIRY :: cs[k]
  }

  function CleanedUp(f: Filter, now: real): Filter {
    if Elapsed(f.lastCleanup, now) < CLEANUP_INTERVAL then f
    else f.(connections := Unexpired(f.connections, now), lastCleanup := now)
  }

  function SynStage(f: Filter, p: Packet, now: real): Filter {
    if PureSyn(p) then
      f.(stats := f.stats[p.key.srcIp := SynCounted(StatsFor(f, p.key.srcIp, now), now)])
    else f
  }

  predicate FloodsAfter(f: Filter, p: Packet) {
    PureSyn(p) && p.key.srcIp in f.stats && f.stats[p.key.srcIp].synCount > SYN_THRESHOLD
  }

  function ConnectionCount(f: Filter, ip: IpAddr): nat {
    if ip in f.stats then f.stats[ip].connectionCount else 0
  }

  function Validated(maxPacketSize: nat, f: Filter, p: Packet, now: real): (Filter, Verdict) {
    if p.payloadSize > maxPacketSize then (f, TooLarge) else
      var counted := SynStage(f, p, now);
      if FloodsAfter(counted, p) then (counted, SynFlood)
      else if p.tcpFlags.Some? && !FlagsValid(p.tcpFlags.value) then (counted, BadFlags)
      else if ConnectionCount(counted, p.key.srcIp) >= CONNECTION_LIMIT then (counted, TooManyConnections)
      else (CleanedUp(counted, now), Allow)
  }

  function SaturatingAdd(n: nat, m: nat): nat {
    if n + m <= U64_MAX then n + m else U64_MAX
  }

  function InitialState(p: Packet): TcpState {
    if p.tcpFlags.Some? && p.tcpFlags.value & 0x02 != 0 then SynSent else Established
  }

  function Transition(current: TcpState, flags: bv8): TcpState {
    var syn, ack, fin := flags & 0x02 != 0, flags & 0x10 != 0, flags & 0x01 != 0;
    if flags & 0x04 != 0 then Closed
    else
      match current
      case SynSent => if syn && ack then SynReceived else if ack then Established else SynSent
      case SynReceived => if ack && !syn && !fin then Established else SynReceived
      case Established => if fin && ack then FinWait1 else Established
      case FinWait1 => if fin && ack then Closing else if ack then FinWait2 else FinWait1
      case FinWait2 => if fin then TimeWait else FinWait2
      case LastAck => if ack && !fin then Closed else LastAck
      case Closing => if ack && !fin then TimeWait else Closing
      case CloseWait => CloseWait
      case TimeWait => TimeWait
      case Closed => Closed
  }

  function Refreshed(c: Connection, p: Packet, now: real): Connection {
    Connection(if p.tcpFlags.Some? then Transition(c.tcpState, p.tcpFlags.value) else c.tcpState,
               now, SaturatingInc(c.packetCount), SaturatingAdd(c.byteCount, p.payloadSize))
  }

  function Connected(f: Filter, p: Packet, malicious: bool, now: real): (Filter, Verdict) {
    if malicious then (f, BlockedRange)
    else if p.key in f.connections then
      (f.(connections := f.connections[p.key := Refreshed(f.connections[p.key], p, now)]), Allow)
    else
      var s := StatsFor(f, p.key.srcIp, now);
      (f.(connections := f.connections[p.key := Connection(InitialState(p), now, 1, p.payloadSize)],
          stats := f.stats[p.key.srcIp := s.(connectionCount := SaturatingInc(s.connectionCount), lastSeen := now)]),
       Allow)
  }

  /** Tracking without counting. */
  function Registered(f: Filter, p: Packet, now: real): Filter {
    if p.key in f.connections then f else f.(connections := f.connections[p.key := Connection(InitialState(p), now, 0, 0)])
  }

  function Removed(f: Filter, p: Packet): Filter {
    var gone := f.(connections := f.connections - {p.key});
    if p.key.srcIp in f.stats then
      var s := f.stats[p.key.srcIp];
      gone.(stats := f.stats[p.key.srcIp :=
        s.(connectionCount := if s.connectionCount > 0 then s.connectionCount - 1 else 0)])
    else gone
  }

  class IngressGate {
    const maxPacketSize: nat
    var connections: map<ConnectionKey, Connection>
    var ipStats: map<IpAddr, IpStats>
    var blockedIps: set<IpAddr>
    var lastCleanup: real

    ghost function State(): Filter
      reads this
    {
      Filter(connections, ipStats, lastCleanup)
    }

    constructor (maxPacketSize: nat, blockedIps: set<IpAddr>, now: real)
      ensures State() == Filter(map[], map[], now)
      ensures this.maxPacketSize == maxPacketSize && this.blockedIps == blockedIps
    {
      this.maxPacketSize := maxPacketSize;
      this.blockedIps := blockedIps;
      connections, ipStats, lastCleanup := map[], map[], now;
    }

    method MaybeCleanup(now: real)
      modifies this`connections, this`lastCleanup
      ensures State() == CleanedUp(old(State()), now)
    {
      if Elapsed(lastCleanup, now) < CLEANUP_INTERVAL {
        return;
      }
      lastCleanup := now;
      connections := map k | k in connections && Elapsed(connections[k].lastSeen, now) < CONNECTION_EXPIRY
                           :: connections[k];
    }

    method ValidatePacket(p: Packet, now: real) returns (verdict: Verdict)
      modifies this`connections, this`ipStats, this`lastCleanup
      ensures (State(), verdict) == Validated(maxPacketSize, old(State()), p, now)
    {
      if p.payloadSize > maxPacketSize {
        return TooLarge;
      }
      var ip := p.key.srcIp;
      if p.payloadSize == 0 && p.key.protocol == 6 && p.tcpFlags.Some?
         && p.tcpFlags.value & 0x02 != 0 && p.tcpFlags.value & 0x10 == 0 {
        var entry := if ip in ipStats then ipStats[ip] else NewStats(now);
        if Elapsed(entry.synWindowStart, now) >= SYN_WINDOW {
          entry := entry.(synCount := 0, synWindowStart := now);
        }
        entry := entry.(synCount := SaturatingInc(entry.synCount));
        ipStats := ipStats[ip := entry];
        if entry.synCount > SYN_THRESHOLD {
          return SynFlood;
        }
      }
      if p.tcpFlags.Some? && !FlagsValid(p.tcpFlags.value) {
        return BadFlags;
      }
      var count := if ip in ipStats then ipStats[ip].connectionCount else 0;
      if count >= CONNECTION_LIMIT {
        return TooManyConnections;
      }
      MaybeCleanup(now);
      return Allow;
    }

    method IsConnectionAllowed(p: Packet, now: real) returns (verdict: Verdict)
      modifies this`connections, this`ipStats
      ensures (State(), verdict) == Connected(old(State()), p, p.key.srcIp in blockedIps, now)
    {
      if p.key.srcIp in blockedIps {
        return BlockedRange;
      }
      if p.key !in connections {
        connections := connections[p.key := Connection(InitialState(p), now, 1, p.payloadSize)];
        var entry := if p.key.srcIp in ipStats then ipStats[p.key.srcIp] else NewStats(now);
        entry := entry.(connectionCount := SaturatingInc(entry.connectionCount), lastSeen := now);
        ipStats := ipStats[p.key.srcIp := entry];
      } else {
        var c := connections[p.key];
        c := c.(lastSeen := now, packetCount := SaturatingInc(c.packetCount),
                byteCount := SaturatingAdd(c.byteCount, p.payloadSize));
        if p.tcpFlags.Some? {
          c := c.(tcpState := Transition(c.tcpState, p.tcpFlags.value));
        }
        connections := connections[p.key := c];
      }
      return Allow;
    }

    method RegisterConnection(p: Packet, now: real)
      modifies this`connections
      ensures State() == Registered(old(State()), p, now)
    {
      if p.key !in connections {
        connections := connections[p.key := Connection(InitialState(p), now, 0, 0)];
      }
    }

    method RemoveConnection(p: Packet)
      modifies this`connections, this`ipStats
      ensures State() == Removed(old(State()), p)
    {
      connections := connections - {p.key};
      if p.key.srcIp in ipStats {
        var entry := ipStats[p.key.srcIp];
        entry := entry.(connectionCount := if entry.connectionCount > 0 then entry.connectionCount - 1 else 0);
        ipStats := ipStats[p.key.srcIp := entry];
      }
    }
  }

  // ---- runs ----

  datatype Op =
    | Validate(p: Packet, now: real)
    | Connect(p: Packet, malicious: bool, now: real)
    | Register(p: Packet, now: real)
    | Remove(p: Packet, now: real)

  function Step(maxSize: nat, f: Filter, op: Op): (Filter, Verdict) {
    match op
    case Validate(p, now) => Validated(maxSize, f, p, now)
    case Connect(p, malicious, now) => Connected(f, p, malicious, now)
    case Register(p, now) => (Registered(f, p, now), Allow)
    case Remove(p, _) => (Removed(f, p), Allow)
  }

  function StateAt(maxSize: nat, start: real, ops: seq<Op>, n: nat): Filter
    requires n <= |ops|
  {
    if n == 0 then Filter(map[], map[], start) else Step(maxSize, StateAt(maxSize, start, ops, n - 1), ops[n - 1]).0
  }

  function VerdictAt(maxSize: nat, start: real, ops: seq<Op>, n: nat): Verdict
    requires n < |ops|
  {
    Step(maxSize, StateAt(maxSize, start, ops, n), ops[n]).1
  }

  function ClockAt(start: real, ops: seq<Op>, n: nat): real
    requires n <= |ops|
  {
    if n == 0 then start else ops[n - 1].now
  }

  function At(op: Op): real {
    op.now
  }

  // ---- the control bits of a TCP segment ----

  /** The lower six control bits, from the right: section 3.1 of RFC 9293. */
  datatype ControlBits = ControlBits(fin: bool, syn: bool, rst: bool, psh: bool, ack: bool, urg: bool)

  function BitsOf(flags: bv8): ControlBits {
    ControlBits(flags % 2 == 1, (flags >> 1) % 2 == 1, (flags >> 2) % 2 == 1,
                (flags >> 3) % 2 == 1, (flags >> 4) % 2 == 1, (flags >> 5) % 2 == 1)
  }

  /** A segment without payload whose SYN bit is set and whose ACK bit is not. */
  predicate OpensConnection(p: Packet) {
    p.payloadSize == 0 && p.key.protocol == 6
    && p.tcpFlags.Some? && BitsOf(p.tcpFlags.value).syn && !BitsOf(p.tcpFlags.value).ack
  }

  lemma PureSynOpens(p: Packet)
    ensures PureSyn(p) <==> OpensConnection(p)
    ensures PureSyn(p) ==> p.payloadSize == 0
  {
  }

  /** Segments with no bit set are invalid, and those that combine FIN with RST, or SYN with FIN, RST or
      ACK. */
  lemma FlagsValidIff(flags: bv8)
    ensures var b := BitsOf(flags);
            FlagsValid(flags) <==> flags != 0 && !(b.fin && b.rst) && !(b.syn && (b.fin || b.rst || b.ack))
  {
  }
}
