/** The entries of the connection table: their TCP state, their traffic, and how long they stay. */
module IngressTable {
  import opened Common
  import opened IngressFilter

  // ---- the TCP state of a tracked connection ----

  /** How far a connection has come. */
  function Stage(s: TcpState): nat {
    match s
    case SynSent => 0
    case SynReceived => 1
    case Established => 2
    case FinWait1 => 3
    case FinWait2 => 4
    case CloseWait => 4
    case Closing => 4
    case LastAck => 5
    case TimeWait => 5
    case Closed => 6
  }

  lemma TransitionAdvances(current: TcpState, flags: bv8)
    ensures Stage(Transition(current, flags)) >= Stage(current)
    ensures Transition(current, flags) in {CloseWait, LastAck} ==> Transition(current, flags) == current
  {
  }

  lemma StepAdvances(maxSize: nat, f: Filter, op: Op, key: ConnectionKey)
    requires key in Step(maxSize, f, op).0.connections
    ensures var s' := Step(maxSize, f, op).0.connections[key].tcpState;
            if key in f.connections then
              && Stage(s') >= Stage(f.connections[key].tcpState)
              && (s' in {CloseWait, LastAck} ==> s' == f.connections[key].tcpState)
            else s' in {SynSent, Established}
  {
    hide Transition, SynCounted, FlagsValid, PureSyn;
    if op.Connect? && op.p.key == key && key in f.connections && op.p.tcpFlags.Some? {
      TransitionAdvances(f.connections[key].tcpState, op.p.tcpFlags.value);
    }
  }

  /** In every run a connection that stays in the table never goes back to an earlier stage, so a closed
      one stays closed. */
  lemma {:induction false} TcpStateAdvances(
    maxSize: nat, start: real, ops: seq<Op>, key: ConnectionKey, i: nat, n: nat)
    requires i <= n <= |ops|
    requires forall m :: i <= m <= n ==> key in StateAt(maxSize, start, ops, m).connections
    ensures Stage(StateAt(maxSize, start, ops, i).connections[key].tcpState)
         <= Stage(StateAt(maxSize, start, ops, n).connections[key].tcpState)
    decreases n
  {
    hide Step;
    assert key in StateAt(maxSize, start, ops, n).connections;
    if i < n {
      TcpStateAdvances(maxSize, start, ops, key, i, n - 1);
      StepAdvances(maxSize, StateAt(maxSize, start, ops, n - 1), ops[n - 1], key);
    }
  }

  /** The states of a passive close are never reached. */
  lemma {:induction false} NoPassiveClose(maxSize: nat, start: real, ops: seq<Op>, key: ConnectionKey, n: nat)
    requires n <= |ops| && key in StateAt(maxSize, start, ops, n).connections
    ensures StateAt(maxSize, start, ops, n).connections[key].tcpState !in {CloseWait, LastAck}
  {
    hide Step;
    if n > 0 {
      var before := StateAt(maxSize, start, ops, n - 1);
      StepAdvances(maxSize, before, ops[n - 1], key);
      if key in before.connections {
        NoPassiveClose(maxSize, start, ops, key, n - 1);
      }
    }
  }

  /** The walk of an orderly connection, by its control bits: SYN opens it, SYN and ACK answer, ACK
      establishes it; FIN with ACK and the two ways of its answer close it, data does not move it, and RST
      closes it from anywhere. */
  lemma TcpWalk(current: TcpState, flags: bv8)
    ensures BitsOf(flags).rst ==> Transition(current, flags) == Closed
    ensures !BitsOf(flags).rst ==>
              var b := BitsOf(flags);
              Transition(current, flags) ==
              if current == SynSent && b.ack then (if b.syn then SynReceived else Established)
              else if current == SynReceived && b.ack && !b.syn && !b.fin then Established
              else if current == Established && b.ack && b.fin then FinWait1
              else if current == FinWait1 && b.ack then (if b.fin then Closing else FinWait2)
              else if current == FinWait2 && b.fin then TimeWait
              else if current == Closing && b.ack && !b.fin then TimeWait
              else if current == LastAck && b.ack && !b.fin then Closed
              else current
  {
  }

  // ---- the entries of the table ----

  predicate CountsPacket(op: Op, key: ConnectionKey) {
    op.Connect? && !op.malicious && op.p.key == key
  }

  /** Packets of the connection among operations `i` up to but not including `n`, and their payload. */
  function Packets(ops: seq<Op>, key: ConnectionKey, i: nat, n: nat): nat
    requires i <= n <= |ops|
  {
    if n == i then 0 else Packets(ops, key, i, n - 1) + CountIf(CountsPacket(ops[n - 1], key))
  }

  function Bytes(ops: seq<Op>, key: ConnectionKey, i: nat, n: nat): nat
    requires i <= n <= |ops|
  {
    if n == i then 0 else
      Bytes(ops, key, i, n - 1) + if CountsPacket(ops[n - 1], key) then ops[n - 1].p.payloadSize else 0
  }

  /** The first segment of a connection is a SYN, or comes from one established before. */
  function StateOfFirst(p: Packet): TcpState {
    if p.tcpFlags.Some? && BitsOf(p.tcpFlags.value).syn then SynSent else Established
  }

  lemma InitialStateIsFirst(p: Packet)
    ensures InitialState(p) == StateOfFirst(p)
  {
  }

  lemma StepTraffic(maxSize: nat, f: Filter, op: Op, key: ConnectionKey)
    requires key in Step(maxSize, f, op).0.connections
    ensures var after := Step(maxSize, f, op).0.connections[key];
            if !CountsPacket(op, key) then
              if key in f.connections then after == f.connections[key]
              else op.Register? && op.p.key == key && after == Connection(StateOfFirst(op.p), op.now, 0, 0)
            else
              && after.lastSeen == op.now
              && (key !in f.connections ==>
                    && after == Connection(StateOfFirst(op.p), op.now, 1, op.p.payloadSize)
                    && Step(maxSize, f, op).0.stats[key.srcIp].lastSeen == op.now)
              && (key in f.connections && f.connections[key].packetCount < U64_MAX ==>
                    after.packetCount == f.connections[key].packetCount + 1)
              && (key in f.connections && f.connections[key].byteCount + op.p.payloadSize <= U64_MAX ==>
                    after.byteCount == f.connections[key].byteCount + op.p.payloadSize)
  {
    InitialStateIsFirst(op.p);
    hide SynCounted, PureSyn, FlagsValid, Transition, InitialState, StateOfFirst;
  }

  /** In every run below saturation, the counters of a connection that stays in the table are the packets
      and bytes seen since. */
  lemma {:induction false} TrafficCounted(
    maxSize: nat, start: real, ops: seq<Op>, key: ConnectionKey, i: nat, n: nat)
    requires i <= n <= |ops|
    requires forall m :: i <= m <= n ==> key in StateAt(maxSize, start, ops, m).connections
    requires var c := StateAt(maxSize, start, ops, i).connections[key];
             c.packetCount + Packets(ops, key, i, n) <= U64_MAX && c.byteCount + Bytes(ops, key, i, n) <= U64_MAX
    ensures var c := StateAt(maxSize, start, ops, i).connections[key];
            var c' := StateAt(maxSize, start, ops, n).connections[key];
            && c'.packetCount == c.packetCount + Packets(ops, key, i, n)
            && c'.byteCount == c.byteCount + Bytes(ops, key, i, n)
    decreases n
  {
    hide Step;
    assert key in StateAt(maxSize, start, ops, n).connections;
    if i < n {
      TrafficCounted(maxSize, start, ops, key, i, n - 1);
      StepTraffic(maxSize, StateAt(maxSize, start, ops, n - 1), ops[n - 1], key);
    }
  }

  /** No entry is dated in the future or was idle already when the table was last cleaned up. */
  ghost predicate Dated(f: Filter, clock: real) {
    && f.lastCleanup <= clock
    && forall k :: k in f.connections ==> f.lastCleanup - 300.0 < f.connections[k].lastSeen <= clock
  }

  lemma StepDates(maxSize: nat, f: Filter, op: Op, clock: real)
    requires Dated(f, clock) && clock <= op.now
    ensures var (f', v) := Step(maxSize, f, op);
            && Dated(f', op.now)
            && (op.Validate? && v == Allow ==>
                  forall k :: k in f'.connections ==> op.now - f'.connections[k].lastSeen < 360.0)
            && (forall k :: k in f.connections && op.now - f.connections[k].lastSeen < 300.0
                            && !(op.Remove? && op.p.key == k) ==>
                  k in f'.connections && f'.connections[k].lastSeen >= f.connections[k].lastSeen)
  {
    hide SynCounted, PureSyn, FlagsValid, Transition, InitialState;
  }

  lemma {:induction false} RunDates(maxSize: nat, start: real, ops: seq<Op>, n: nat)
    requires n <= |ops| && Chronological(start, ops, At)
    ensures Dated(StateAt(maxSize, start, ops, n), ClockAt(start, ops, n))
  {
    hide Step;
    if n > 0 {
      RunDates(maxSize, start, ops, n - 1);
      assert ClockAt(start, ops, n - 1) <= ops[n - 1].now;
      StepDates(maxSize, StateAt(maxSize, start, ops, n - 1), ops[n - 1], ClockAt(start, ops, n - 1));
    }
  }

  /** In every run, no connection idle for 360 seconds is in the table after a packet was allowed. */
  lemma IdleConnectionsGo(maxSize: nat, start: real, ops: seq<Op>, n: nat, k: ConnectionKey)
    requires n < |ops| && Chronological(start, ops, At)
    requires ops[n].Validate? && VerdictAt(maxSize, start, ops, n) == Allow
    requires k in StateAt(maxSize, start, ops, n + 1).connections
    ensures ops[n].now - StateAt(maxSize, start, ops, n + 1).connections[k].lastSeen < 360.0
  {
    hide Step;
    RunDates(maxSize, start, ops, n);
    assert ClockAt(start, ops, n) <= ops[n].now;
    StepDates(maxSize, StateAt(maxSize, start, ops, n), ops[n], ClockAt(start, ops, n));
  }

  /** And a connection that is not removed stays for at least 300 seconds after its last packet. */
  lemma {:induction false} RecentConnectionsStay(
    maxSize: nat, start: real, ops: seq<Op>, i: nat, n: nat, k: ConnectionKey)
    requires i < n <= |ops| && Chronological(start, ops, At)
    requires k in StateAt(maxSize, start, ops, i).connections
    requires ops[n - 1].now - StateAt(maxSize, start, ops, i).connections[k].lastSeen < 300.0
    requires forall j {:trigger ops[j]} :: i <= j < n ==> !(ops[j].Remove? && ops[j].p.key == k)
    ensures k in StateAt(maxSize, start, ops, n).connections
    ensures StateAt(maxSize, start, ops, n).connections[k].lastSeen
         >= StateAt(maxSize, start, ops, i).connections[k].lastSeen
    decreases n
  {
    hide Step;
    if i < n - 1 {
      assert ops[n - 2].now <= ops[n - 1].now;
      RecentConnectionsStay(maxSize, start, ops, i, n - 1, k);
    }
    RunDates(maxSize, start, ops, n - 1);
    assert ClockAt(start, ops, n - 1) <= ops[n - 1].now;
    StepDates(maxSize, StateAt(maxSize, start, ops, n - 1), ops[n - 1], ClockAt(start, ops, n - 1));
  }

  /** An allowed packet cleans up exactly if the last cleanup is 60 seconds ago or more, and then leaves no
      connection that has been idle for 300. */
  lemma CleanupWhenDue(maxSize: nat, f: Filter, op: Op)
    requires f.lastCleanup <= op.now
    ensures var (f', v) := Step(maxSize, f, op);
            if op.Validate? && v == Allow && op.now - f.lastCleanup >= 60.0 then
              && f'.lastCleanup == op.now
              && forall k :: k in f'.connections ==> op.now - f'.connections[k].lastSeen < 300.0
            else
              && f'.lastCleanup == f.lastCleanup
              && forall k :: k in f.connections && !(op.Remove? && op.p.key == k) ==> k in f'.connections
  {
    hide SynCounted, PureSyn, FlagsValid, Transition, InitialState;
  }

  lemma {:induction false} CleanupsAdvance(maxSize: nat, start: real, ops: seq<Op>, i: nat, n: nat)
    requires i <= n <= |ops| && Chronological(start, ops, At)
    ensures StateAt(maxSize, start, ops, i).lastCleanup <= StateAt(maxSize, start, ops, n).lastCleanup
    decreases n
  {
    hide Step;
    if i < n {
      CleanupsAdvance(maxSize, start, ops, i, n - 1);
      RunDates(maxSize, start, ops, n - 1);
      assert ClockAt(start, ops, n - 1) <= ops[n - 1].now;
      CleanupWhenDue(maxSize, StateAt(maxSize, start, ops, n - 1), ops[n - 1]);
    }
  }

  /** The operation drops a connection that it was not asked to remove. */
  ghost predicate Drops(maxSize: nat, start: real, ops: seq<Op>, n: nat)
    requires n < |ops|
  {
    exists k :: k in StateAt(maxSize, start, ops, n).connections
                && k !in StateAt(maxSize, start, ops, n + 1).connections && !(ops[n].Remove? && ops[n].p.key == k)
  }

  lemma DropCleansUp(maxSize: nat, start: real, ops: seq<Op>, n: nat)
    requires n < |ops| && Chronological(start, ops, At) && Drops(maxSize, start, ops, n)
    ensures ops[n].now - StateAt(maxSize, start, ops, n).lastCleanup >= 60.0
    ensures StateAt(maxSize, start, ops, n + 1).lastCleanup == ops[n].now
  {
    hide Step;
    RunDates(maxSize, start, ops, n);
    assert ClockAt(start, ops, n) <= ops[n].now;
    CleanupWhenDue(maxSize, StateAt(maxSize, start, ops, n), ops[n]);
  }

  /** In every run, operations that drop connections by themselves are 60 seconds apart at least. */
  lemma DropsAreApart(maxSize: nat, start: real, ops: seq<Op>, i: nat, j: nat)
    requires i < j < |ops| && Chronological(start, ops, At)
    requires Drops(maxSize, start, ops, i) && Drops(maxSize, start, ops, j)
    ensures ops[j].now - ops[i].now >= 60.0
  {
    DropCleansUp(maxSize, start, ops, i);
    CleanupsAdvance(maxSize, start, ops, i + 1, j);
    DropCleansUp(maxSize, start, ops, j);
    hide StateAt, Drops;
  }
}
