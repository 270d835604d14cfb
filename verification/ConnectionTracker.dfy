/** The connection table shared by all accepting tasks (`ConnectionTracker`), as atomic steps of any
    number of threads over one map, one lock and one atomic counter. */
module ConnectionTracker {
  import opened Common

  datatype FiveTuple = FiveTuple(srcIp: IpAddr, srcPort: nat, dstIp: IpAddr, dstPort: nat, protocol: nat)

  type Tid = nat

  /** Where a thread stands inside `try_add` or `remove`. */
  datatype Pc =
    | AddWaiting(tuple: FiveTuple)    // the counter was below the maximum; waiting for the lock
    | AddLocked(tuple: FiveTuple)     // holding the lock
    | AddInserted(tuple: FiveTuple)   // holding the lock, entry inserted, counter not yet raised
    | RollingBack(tuple: FiveTuple)   // the counter passed the maximum; asking for the lock it still holds
    | RemoveWaiting(tuple: FiveTuple)
    | RemoveLocked(tuple: FiveTuple)
    | RemoveErased(tuple: FiveTuple)  // holding the lock, entry erased, counter not yet lowered
  {
    predicate Holding() {
      AddLocked? || AddInserted? || RollingBack? || RemoveLocked? || RemoveErased?
    }

    predicate Adding() {
      AddWaiting? || AddLocked? || AddInserted? || RollingBack?
    }
  }

  datatype Tracker = Tracker(
    active: set<FiveTuple>,
    count: nat,
    lock: Option<Tid>,
    pcs: map<Tid, Pc>)

  datatype Move = BeginAdd(tid: Tid, tuple: FiveTuple) | BeginRemove(tid: Tid, tuple: FiveTuple) | Proceed(tid: Tid)

  /** What a move tells its caller; most moves finish nothing. */
  datatype Reply = Pending | Added | Refused | Removed

  predicate Enabled(s: Tracker, m: Move) {
    match m
    case BeginAdd(tid, _) => tid !in s.pcs
    case BeginRemove(tid, _) => tid !in s.pcs
    case Proceed(tid) =>
      && tid in s.pcs
      && (s.pcs[tid].AddWaiting? || s.pcs[tid].RemoveWaiting? || s.pcs[tid].RollingBack? ==> s.lock.None?)
  }

  function Finish(s: Tracker, tid: Tid): Tracker {
    s.(lock := None, pcs := s.pcs - {tid})
  }

  function Next(max: nat, s: Tracker, m: Move): (Tracker, Reply)
    requires Enabled(s, m)
  {
    match m
    case BeginAdd(tid, tuple) =>
      if s.count >= max then (s, Refused) else (s.(pcs := s.pcs[tid := AddWaiting(tuple)]), Pending)
    case BeginRemove(tid, tuple) => (s.(pcs := s.pcs[tid := RemoveWaiting(tuple)]), Pending)
    case Proceed(tid) =>
      match s.pcs[tid]
      case AddWaiting(tuple) => (s.(lock := Some(tid), pcs := s.pcs[tid := AddLocked(tuple)]), Pending)
      case AddLocked(tuple) =>
        if tuple in s.active then (Finish(s, tid), Added)
        else (s.(active := s.active + {tuple}, pcs := s.pcs[tid := AddInserted(tuple)]), Pending)
      case AddInserted(tuple) =>
        var counted := s.(count := s.count + 1);
        if counted.count > max then (counted.(pcs := s.pcs[tid := RollingBack(tuple)]), Pending)
        else (Finish(counted, tid), Added)
      case RollingBack(tuple) => (s.(lock := Some(tid), pcs := s.pcs[tid := RemoveLocked(tuple)]), Pending)
      case RemoveWaiting(tuple) => (s.(lock := Some(tid), pcs := s.pcs[tid := RemoveLocked(tuple)]), Pending)
      case RemoveLocked(tuple) =>
        if tuple in s.active
        then (s.(active := s.active - {tuple}, pcs := s.pcs[tid := RemoveErased(tuple)]), Pending)
        else (Finish(s, tid), Removed)
      case RemoveErased(_) => (Finish(s.(count := if s.count > 0 then s.count - 1 else U64_MAX), tid), Removed)
  }

  function Start(): Tracker {
    Tracker({}, 0, None, map[])
  }

  predicate Runs(max: nat, s: Tracker, moves: seq<Move>)
    decreases |moves|
  {
    moves == [] || (Enabled(s, moves[0]) && Runs(max, Next(max, s, moves[0]).0, moves[1..]))
  }

  function After(max: nat, s: Tracker, moves: seq<Move>): Tracker
    requires Runs(max, s, moves)
    decreases |moves|
  {
    if moves == [] then s else After(max, Next(max, s, moves[0]).0, moves[1..])
  }

  // ---- safety under every interleaving ----

  /** What holds while the thread with this program counter is inside the lock. */
  predicate Inside(max: nat, s: Tracker, pc: Pc) {
    match pc
    case AddLocked(_) => s.count == |s.active| <= max
    case AddInserted(tuple) => tuple in s.active && s.count + 1 == |s.active| && s.count <= max
    case RollingBack(tuple) => tuple in s.active && s.count == |s.active| == max + 1
    case RemoveLocked(_) => s.count == |s.active| <= max
    case RemoveErased(_) => s.count == |s.active| + 1 <= max
    case AddWaiting(_) => false
    case RemoveWaiting(_) => false
  }

  ghost predicate Inv(max: nat, s: Tracker) {
    && (forall tid :: tid in s.pcs && s.pcs[tid].Holding() ==> s.lock == Some(tid))
    && (match s.lock
        case None => s.count == |s.active| <= max
        case Some(tid) => tid in s.pcs && Inside(max, s, s.pcs[tid]))
  }

  lemma MoveKeepsInv(max: nat, s: Tracker, m: Move)
    requires Inv(max, s) && Enabled(s, m)
    ensures Inv(max, Next(max, s, m).0)
  {
  }

  lemma {:induction false} RunKeepsInv(max: nat, s: Tracker, moves: seq<Move>)
    requires Inv(max, s) && Runs(max, s, moves)
    ensures Inv(max, After(max, s, moves))
    decreases |moves|
  {
    if moves != [] {
      MoveKeepsInv(max, s, moves[0]);
      RunKeepsInv(max, Next(max, s, moves[0]).0, moves[1..]);
    }
  }

  /** In every interleaving of any number of threads: whenever the lock is free the counter equals the
      number of entries and respects the maximum, and it never exceeds the maximum by more than one. */
  lemma CountTracksTable(max: nat, moves: seq<Move>)
    requires Runs(max, Start(), moves)
    ensures var s := After(max, Start(), moves);
            && (s.lock.None? ==> s.count == |s.active| <= max)
            && s.count <= max + 1
            && (s.count == max + 1 ==> s.lock.Some? && s.lock.value in s.pcs && s.pcs[s.lock.value].RollingBack?)
  {
    RunKeepsInv(max, Start(), moves);
  }

  // ---- the rollback branch ----

  /** The counter passes the maximum exactly when a thread that saw room finds the table full. */
  lemma RollbackIff(max: nat, s: Tracker, tid: Tid)
    requires Inv(max, s) && tid in s.pcs && s.pcs[tid].AddInserted?
    ensures var s' := Next(max, s, Proceed(tid)).0;
            (tid in s'.pcs && s'.pcs[tid].RollingBack?) <==> |s.active| > max
  {
  }

  /** At most one thread is inside `try_add`, and the room it saw is still there. */
  ghost predicate Serial(max: nat, s: Tracker) {
    && Inv(max, s)
    && (forall a, b :: a in s.pcs && b in s.pcs && s.pcs[a].Adding() && s.pcs[b].Adding() ==> a == b)
    && (forall tid :: tid in s.pcs && s.pcs[tid].Adding() ==> s.count < max && !s.pcs[tid].RollingBack?)
  }

  /** No call to `try_add` begins while another is under way. */
  ghost predicate AddsDoNotOverlap(max: nat, s: Tracker, moves: seq<Move>)
    requires Runs(max, s, moves)
    decreases |moves|
  {
    moves == [] ||
    (&& (moves[0].BeginAdd? ==> forall tid :: tid in s.pcs ==> !s.pcs[tid].Adding())
     && AddsDoNotOverlap(max, Next(max, s, moves[0]).0, moves[1..]))
  }

  lemma {:induction false} SerialRunsStaySerial(max: nat, s: Tracker, moves: seq<Move>)
    requires Serial(max, s) && Runs(max, s, moves) && AddsDoNotOverlap(max, s, moves)
    ensures Serial(max, After(max, s, moves))
    decreases |moves|
  {
    if moves != [] {
      MoveKeepsInv(max, s, moves[0]);
      SerialRunsStaySerial(max, Next(max, s, moves[0]).0, moves[1..]);
    }
  }

  /** The rollback branch is unreachable when calls to `try_add` do not overlap, however many removals
      run beside them. */
  lemma NoRollbackWithoutOverlap(max: nat, moves: seq<Move>)
    requires Runs(max, Start(), moves) && AddsDoNotOverlap(max, Start(), moves)
    ensures forall tid :: tid in After(max, Start(), moves).pcs ==> !After(max, Start(), moves).pcs[tid].RollingBack?
    ensures After(max, Start(), moves).count <= max
  {
    SerialRunsStaySerial(max, Start(), moves);
  }

  lemma RunsCons(max: nat, s: Tracker, m: Move, rest: seq<Move>)
    requires Enabled(s, m) && Runs(max, Next(max, s, m).0, rest)
    ensures Runs(max, s, [m] + rest)
    ensures After(max, s, [m] + rest) == After(max, Next(max, s, m).0, rest)
  {
    assert ([m] + rest)[1..] == rest;
  }

  /** Two overlapping calls do reach it: both see room for one connection, both insert. */
  lemma OverlapReachesRollback(a: FiveTuple, b: FiveTuple)
    requires a != b
    ensures var moves := [BeginAdd(0, a), BeginAdd(1, b), Proceed(0), Proceed(0), Proceed(0),
                          Proceed(1), Proceed(1), Proceed(1)];
            && Runs(1, Start(), moves)
            && After(1, Start(), moves).pcs == map[1 := RollingBack(b)]
  {
    var s0 := Start();
    var s1 := Next(1, s0, BeginAdd(0, a)).0;
    var s2 := Next(1, s1, BeginAdd(1, b)).0;
    var s3 := Next(1, s2, Proceed(0)).0;
    var s4 := Next(1, s3, Proceed(0)).0;
    var s5 := Next(1, s4, Proceed(0)).0;
    assert s5 == Tracker({a}, 1, None, map[1 := AddWaiting(b)]);
    var s6 := Next(1, s5, Proceed(1)).0;
    var s7 := Next(1, s6, Proceed(1)).0;
    var s8 := Next(1, s7, Proceed(1)).0;
    assert s8.pcs == map[1 := RollingBack(b)];
    RunsCons(1, s7, Proceed(1), []);
    RunsCons(1, s6, Proceed(1), [Proceed(1)]);
    RunsCons(1, s5, Proceed(1), [Proceed(1), Proceed(1)]);
    RunsCons(1, s4, Proceed(0), [Proceed(1), Proceed(1), Proceed(1)]);
    RunsCons(1, s3, Proceed(0), [Proceed(0), Proceed(1), Proceed(1), Proceed(1)]);
    RunsCons(1, s2, Proceed(0), [Proceed(0), Proceed(0), Proceed(1), Proceed(1), Proceed(1)]);
    RunsCons(1, s1, BeginAdd(1, b), [Proceed(0), Proceed(0), Proceed(0), Proceed(1), Proceed(1), Proceed(1)]);
    RunsCons(1, s0, BeginAdd(0, a),
             [BeginAdd(1, b), Proceed(0), Proceed(0), Proceed(0), Proceed(1), Proceed(1), Proceed(1)]);
  }

  /** Once a thread rolls back it waits for a lock it holds itself: in every continuation the table, the
      counter and the lock stay as they are. */
  lemma {:induction false} RollbackNeverEnds(max: nat, s: Tracker, tid: Tid, moves: seq<Move>)
    requires Inv(max, s) && tid in s.pcs && s.pcs[tid].RollingBack? && Runs(max, s, moves)
    ensures var s' := After(max, s, moves);
            && s'.lock == Some(tid) && tid in s'.pcs && s'.pcs[tid] == s.pcs[tid]
            && s'.active == s.active && s'.count == s.count == max + 1
    decreases |moves|
  {
    if moves != [] {
      MoveKeepsInv(max, s, moves[0]);
      RollbackNeverEnds(max, Next(max, s, moves[0]).0, tid, moves[1..]);
    }
  }

  // ---- the operations with nothing interleaved ----

  /** An add on its own: the table it leaves, and its answer. */
  function Tried(max: nat, active: set<FiveTuple>, tuple: FiveTuple): (set<FiveTuple>, Reply) {
    if |active| >= max then (active, Refused) else (active + {tuple}, Added)
  }

  /** The moves of an add that runs through: refused at once, or stopping short at a tuple already there. */
  function SoloAdd(max: nat, s: Tracker, tid: Tid, tuple: FiveTuple): seq<Move> {
    if s.count >= max then [BeginAdd(tid, tuple)]
    else if tuple in s.active then [BeginAdd(tid, tuple), Proceed(tid), Proceed(tid)]
    else [BeginAdd(tid, tuple), Proceed(tid), Proceed(tid), Proceed(tid)]
  }

  function SoloRemove(s: Tracker, tid: Tid, tuple: FiveTuple): seq<Move> {
    if tuple in s.active then [BeginRemove(tid, tuple), Proceed(tid), Proceed(tid), Proceed(tid)]
    else [BeginRemove(tid, tuple), Proceed(tid), Proceed(tid)]
  }

  /** The answer of a run's last move. */
  function Answer(max: nat, s: Tracker, moves: seq<Move>): Reply
    requires Runs(max, s, moves) && moves != []
    decreases |moves|
  {
    if |moves| == 1 then Next(max, s, moves[0]).1 else Answer(max, Next(max, s, moves[0]).0, moves[1..])
  }

  lemma AnswerCons(max: nat, s: Tracker, m: Move, rest: seq<Move>)
    requires Enabled(s, m) && Runs(max, Next(max, s, m).0, rest)
    ensures Runs(max, s, [m] + rest)
    ensures After(max, s, [m] + rest) == After(max, Next(max, s, m).0, rest)
    ensures Answer(max, s, [m] + rest)
         == if rest == [] then Next(max, s, m).1 else Answer(max, Next(max, s, m).0, rest)
  {
    RunsCons(max, s, m, rest);
    assert ([m] + rest)[1..] == rest;
  }

  /** Run without interference, an add amounts to the plain operation of the class below. */
  lemma SoloAddCall(max: nat, s: Tracker, tid: Tid, tuple: FiveTuple)
    requires Inv(max, s) && s.lock.None? && tid !in s.pcs
    ensures var moves := SoloAdd(max, s, tid, tuple);
            var (active, reply) := Tried(max, s.active, tuple);
            && Runs(max, s, moves) && Answer(max, s, moves) == reply
            && After(max, s, moves) == s.(active := active, count := |active|)
  {
    if s.count >= max {
      AnswerCons(max, s, BeginAdd(tid, tuple), []);
    } else {
      var s1 := Next(max, s, BeginAdd(tid, tuple)).0;
      var s2 := Next(max, s1, Proceed(tid)).0;
      if tuple in s.active {
        assert s2.pcs - {tid} == s.pcs && s.active + {tuple} == s.active;
        AnswerCons(max, s2, Proceed(tid), []);
        AnswerCons(max, s1, Proceed(tid), [Proceed(tid)]);
        AnswerCons(max, s, BeginAdd(tid, tuple), [Proceed(tid), Proceed(tid)]);
      } else {
        var s3 := Next(max, s2, Proceed(tid)).0;
        assert s3.pcs - {tid} == s.pcs;
        AnswerCons(max, s3, Proceed(tid), []);
        AnswerCons(max, s2, Proceed(tid), [Proceed(tid)]);
        AnswerCons(max, s1, Proceed(tid), [Proceed(tid), Proceed(tid)]);
        AnswerCons(max, s, BeginAdd(tid, tuple), [Proceed(tid), Proceed(tid), Proceed(tid)]);
      }
    }
  }

  /** So does a removal, of a tuple in the table or not. */
  lemma SoloRemoveCall(max: nat, s: Tracker, tid: Tid, tuple: FiveTuple)
    requires Inv(max, s) && s.lock.None? && tid !in s.pcs
    ensures var moves := SoloRemove(s, tid, tuple);
            && Runs(max, s, moves) && Answer(max, s, moves) == Removed
            && After(max, s, moves) == s.(active := s.active - {tuple}, count := |s.active - {tuple}|)
  {
    var s1 := Next(max, s, BeginRemove(tid, tuple)).0;
    var s2 := Next(max, s1, Proceed(tid)).0;
    if tuple in s.active {
      var s3 := Next(max, s2, Proceed(tid)).0;
      assert s3.pcs - {tid} == s.pcs;
      AnswerCons(max, s3, Proceed(tid), []);
      AnswerCons(max, s2, Proceed(tid), [Proceed(tid)]);
      AnswerCons(max, s1, Proceed(tid), [Proceed(tid), Proceed(tid)]);
      AnswerCons(max, s, BeginRemove(tid, tuple), [Proceed(tid), Proceed(tid), Proceed(tid)]);
    } else {
      assert s2.pcs - {tid} == s.pcs && s.active - {tuple} == s.active;
      AnswerCons(max, s2, Proceed(tid), []);
      AnswerCons(max, s1, Proceed(tid), [Proceed(tid)]);
      AnswerCons(max, s, BeginRemove(tid, tuple), [Proceed(tid), Proceed(tid)]);
    }
  }

  /** The table after so many adds, one after the other, to an empty one. */
  function Filled(max: nat, tuples: seq<FiveTuple>, n: nat): set<FiveTuple>
    requires n <= |tuples|
  {
    if n == 0 then {} else Tried(max, Filled(max, tuples, n - 1), tuples[n - 1]).0
  }

  /** The first of the tuples. */
  function FirstOf(tuples: seq<FiveTuple>, n: nat): set<FiveTuple>
    requires n <= |tuples|
  {
    if n == 0 then {} else FirstOf(tuples, n - 1) + {tuples[n - 1]}
  }

  lemma {:induction false} FirstOfCount(tuples: seq<FiveTuple>, n: nat)
    requires n <= |tuples| && forall i, j :: 0 <= i < j < |tuples| ==> tuples[i] != tuples[j]
    ensures |FirstOf(tuples, n)| == n && forall k :: n <= k < |tuples| ==> tuples[k] !in FirstOf(tuples, n)
  {
    if n > 0 {
      FirstOfCount(tuples, n - 1);
    }
  }

  /** Of different tuples added one after the other, as many get in as the maximum says, and the others are
      refused. */
  lemma {:induction false} FillsToMaximum(max: nat, tuples: seq<FiveTuple>, n: nat)
    requires n < |tuples| && forall i, j :: 0 <= i < j < |tuples| ==> tuples[i] != tuples[j]
    ensures Filled(max, tuples, n) == FirstOf(tuples, if n < max then n else max)
    ensures Tried(max, Filled(max, tuples, n), tuples[n]).1 == if n < max then Added else Refused
  {
    FirstOfCount(tuples, if n < max then n else max);
    if n > 0 {
      FillsToMaximum(max, tuples, n - 1);
    }
  }

  class ConnectionTable {
    const maxConnections: nat
    var active: set<FiveTuple>
    var count: nat

    ghost predicate Valid()
      reads this
    {
      count == |active| <= maxConnections
    }

    constructor (maxConnections: nat)
      ensures Valid() && this.maxConnections == maxConnections && active == {}
    {
      this.maxConnections := maxConnections;
      active, count := {}, 0;
    }

    method TryAdd(tuple: FiveTuple) returns (reply: Reply)
      requires Valid()
      modifies this
      ensures Valid()
      ensures (active, reply) == Tried(maxConnections, old(active), tuple)
      ensures reply == Refused <==> |old(active)| >= maxConnections
      ensures active == if reply == Refused then old(active) else old(active) + {tuple}
    {
      if count >= maxConnections {
        return Refused;
      }
      if tuple in active {
        assert active + {tuple} == active;
        return Added;
      }
      active := active + {tuple};
      count := count + 1;
      assert count <= maxConnections;  // so the rollback is not needed here
      return Added;
    }

    method Remove(tuple: FiveTuple)
      requires Valid()
      modifies this
      ensures Valid() && active == old(active) - {tuple}
    {
      if tuple in active {
        active := active - {tuple};
        count := count - 1;
      }
    }
  }
}
