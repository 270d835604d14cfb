/** Permits for concurrent QUIC handshakes (`HandshakeRateLimiter`), as atomic steps of any number of
    tasks on one 64-bit counter. */
module HandshakeLimiter {
  import opened Common

  const MODULUS: nat := U64_MAX + 1

  type Task = nat

  /** `fetch_add(1)` and `fetch_sub(1)` wrap around. */
  function Added(n: U64): U64 {
    (n + 1) % MODULUS
  }

  function Subtracted(n: U64): U64 {
    if n == 0 then U64_MAX else n - 1
  }

  /** Tasks between a successful acquire and its release, and tasks that added one too many and have
      not yet taken it back. */
  datatype Limiter = Limiter(active: U64, holders: set<Task>, overshot: set<Task>)

  datatype Move = Acquire(task: Task) | Undo(task: Task) | Release(task: Task)

  predicate Enabled(s: Limiter, m: Move) {
    match m
    case Acquire(t) => t !in s.holders && t !in s.overshot
    case Undo(t) => t in s.overshot
    case Release(t) => t in s.holders
  }

  function Next(max: nat, s: Limiter, m: Move): Limiter
    requires Enabled(s, m)
  {
    match m
    case Acquire(t) =>
      if s.active >= max then Limiter(Added(s.active), s.holders, s.overshot + {t})
      else Limiter(Added(s.active), s.holders + {t}, s.overshot)
    case Undo(t) => Limiter(Subtracted(s.active), s.holders, s.overshot - {t})
    case Release(t) => Limiter(Subtracted(s.active), s.holders - {t}, s.overshot)
  }

  predicate Runs(max: nat, s: Limiter, moves: seq<Move>)
    decreases |moves|
  {
    moves == [] || (Enabled(s, moves[0]) && Runs(max, Next(max, s, moves[0]), moves[1..]))
  }

  function After(max: nat, s: Limiter, moves: seq<Move>): Limiter
    requires Runs(max, s, moves)
    decreases |moves|
  {
    if moves == [] then s else After(max, Next(max, s, moves[0]), moves[1..])
  }

  /** The tasks that make the moves; there are fewer of them than the counter can count. */
  ghost predicate MadeBy(tasks: set<Task>, moves: seq<Move>) {
    |tasks| <= U64_MAX && forall m :: m in moves ==> m.task in tasks
  }

  ghost predicate Inv(max: nat, tasks: set<Task>, s: Limiter) {
    && s.holders !! s.overshot && s.holders + s.overshot <= tasks
    && s.active == |s.holders| + |s.overshot|
    && |s.holders| <= max
  }

  lemma CountBound(tasks: set<Task>, s: Limiter)
    requires s.holders !! s.overshot && s.holders + s.overshot <= tasks
    ensures |s.holders| + |s.overshot| <= |tasks|
  {
    var busy := s.holders + s.overshot;
    assert |busy| == |s.holders| + |s.overshot|;
    assert tasks == busy + (tasks - busy);
  }

  lemma StrictCountBound(tasks: set<Task>, s: Limiter, t: Task)
    requires s.holders !! s.overshot && s.holders + s.overshot <= tasks
    requires t in tasks && t !in s.holders && t !in s.overshot
    ensures |s.holders| + |s.overshot| < |tasks|
  {
    CountBound(tasks, s.(holders := s.holders + {t}));
  }

  lemma AddedExact(n: U64)
    requires n < U64_MAX
    ensures Added(n) == n + 1
  {
  }

  lemma AcquireKeepsInv(max: nat, tasks: set<Task>, s: Limiter, t: Task)
    requires Inv(max, tasks, s) && Enabled(s, Acquire(t)) && t in tasks && |tasks| <= U64_MAX
    ensures Inv(max, tasks, Next(max, s, Acquire(t)))
  {
    StrictCountBound(tasks, s, t);
    AddedExact(s.active);
    hide Added;
    assert |s.holders + {t}| == |s.holders| + 1 && |s.overshot + {t}| == |s.overshot| + 1;
  }

  lemma MoveKeepsInv(max: nat, tasks: set<Task>, s: Limiter, m: Move)
    requires Inv(max, tasks, s) && Enabled(s, m) && m.task in tasks && |tasks| <= U64_MAX
    ensures Inv(max, tasks, Next(max, s, m))
  {
    hide Added;
    match m
    case Acquire(t) => AcquireKeepsInv(max, tasks, s, t);
    case Undo(t) => assert |s.overshot - {t}| == |s.overshot| - 1;
    case Release(t) => assert |s.holders - {t}| == |s.holders| - 1;
  }

  lemma {:induction false} RunKeepsInv(max: nat, tasks: set<Task>, s: Limiter, moves: seq<Move>)
    requires Inv(max, tasks, s) && Runs(max, s, moves) && MadeBy(tasks, moves)
    ensures Inv(max, tasks, After(max, s, moves))
    decreases |moves|
  {
    if moves != [] {
      assert moves[0] in moves;
      MoveKeepsInv(max, tasks, s, moves[0]);
      RunKeepsInv(max, tasks, Next(max, s, moves[0]), moves[1..]);
    }
  }

  /** In every interleaving the counter is the number of permit holders plus the tasks yet to undo an
      overshoot; so the holders never exceed the maximum, and no undo or release meets a zero counter. */
  lemma PermitsConserved(max: nat, tasks: set<Task>, moves: seq<Move>)
    requires Runs(max, Limiter(0, {}, {}), moves) && MadeBy(tasks, moves)
    ensures var s := After(max, Limiter(0, {}, {}), moves);
            && s.active == |s.holders| + |s.overshot|
            && |s.holders| <= max
            && (s.holders + s.overshot != {} ==> s.active > 0)
            && s.active <= |tasks|
  {
    var s := After(max, Limiter(0, {}, {}), moves);
    RunKeepsInv(max, tasks, Limiter(0, {}, {}), moves);
    CountBound(tasks, s);
    if t :| t in s.holders {
      assert s.holders != {};
    } else if t :| t in s.overshot {
      assert s.overshot != {};
    }
  }

  /** A request for a permit is refused exactly when holders and tasks still undoing an overshoot
      together reach the maximum. */
  lemma RefusedIff(max: nat, tasks: set<Task>, s: Limiter, t: Task)
    requires Inv(max, tasks, s) && Enabled(s, Acquire(t))
    ensures t in Next(max, s, Acquire(t)).overshot <==> |s.holders| + |s.overshot| >= max
  {
  }

  lemma RunsCons(max: nat, s: Limiter, m: Move, rest: seq<Move>)
    requires Enabled(s, m) && Runs(max, Next(max, s, m), rest)
    ensures Runs(max, s, [m] + rest)
    ensures After(max, s, [m] + rest) == After(max, Next(max, s, m), rest)
  {
    assert ([m] + rest)[1..] == rest;
  }

  /** So a task can be refused while every permit is free: another's overshoot still counts. */
  lemma RefusedWithEveryPermitFree()
    ensures var moves := [Acquire(0), Acquire(1), Release(0), Acquire(2)];
            && Runs(1, Limiter(0, {}, {}), moves)
            && After(1, Limiter(0, {}, {}), moves) == Limiter(2, {}, {1, 2})
  {
    var s1 := Next(1, Limiter(0, {}, {}), Acquire(0));
    var s2 := Next(1, s1, Acquire(1));
    var s3 := Next(1, s2, Release(0));
    assert s3 == Limiter(1, {}, {1});
    var s4 := Next(1, s3, Acquire(2));
    assert s4 == Limiter(2, {}, {1, 2});
    RunsCons(1, s3, Acquire(2), []);
    RunsCons(1, s2, Release(0), [Acquire(2)]);
    RunsCons(1, s1, Acquire(1), [Release(0), Acquire(2)]);
    RunsCons(1, Limiter(0, {}, {}), Acquire(0), [Acquire(1), Release(0), Acquire(2)]);
  }

  // ---- the operations with nothing interleaved ----

  /** A request for a permit on its own: the counter it leaves, and whether it is granted. */
  function Tried(max: nat, active: U64): (U64, bool) {
    if active < max then (Added(active), true) else (active, false)
  }

  /** The moves of a request that runs through: an overshoot is undone at once. */
  function SoloAcquire(max: nat, s: Limiter, t: Task): seq<Move> {
    if s.active >= max then [Acquire(t), Undo(t)] else [Acquire(t)]
  }

  /** Run without interference, the atomic steps of a request and of a release amount to the plain
      operations of the class below: a refused request leaves everything as it was. */
  lemma SoloCalls(max: nat, s: Limiter, t: Task)
    ensures Enabled(s, Acquire(t)) ==>
              var (active, granted) := Tried(max, s.active);
              && Runs(max, s, SoloAcquire(max, s, t))
              && After(max, s, SoloAcquire(max, s, t))
                 == Limiter(active, if granted then s.holders + {t} else s.holders, s.overshot)
    ensures Enabled(s, Release(t)) ==>
              && Runs(max, s, [Release(t)])
              && After(max, s, [Release(t)]) == Limiter(Subtracted(s.active), s.holders - {t}, s.overshot)
  {
    if Enabled(s, Acquire(t)) {
      var s' := Next(max, s, Acquire(t));
      if s.active >= max {
        RunsCons(max, s', Undo(t), []);
        assert s'.overshot - {t} == s.overshot;
      }
      RunsCons(max, s, Acquire(t), SoloAcquire(max, s, t)[1..]);
    }
    if Enabled(s, Release(t)) {
      RunsCons(max, s, Release(t), []);
    }
  }

  /** The counter after so many requests, one after the other and nothing released. */
  function Requested(max: nat, n: nat): U64 {
    if n == 0 then 0 else Tried(max, Requested(max, n - 1)).0
  }

  /** Of requests made one after the other, as many are granted as the maximum says, and the others are
      refused. */
  lemma {:induction false} GrantsToMaximum(max: nat, n: nat)
    requires max < U64_MAX
    ensures Requested(max, n) == if n < max then n else max
    ensures Tried(max, Requested(max, n)).1 <==> n < max
  {
    if n > 0 {
      GrantsToMaximum(max, n - 1);
      AddedExact(Requested(max, n - 1));
    }
  }

  class HandshakePermits {
    const maxConcurrent: nat
    var active: U64

    constructor (maxConcurrent: nat)
      ensures this.maxConcurrent == maxConcurrent && active == 0
    {
      this.maxConcurrent := maxConcurrent;
      active := 0;
    }

    method TryAcquire() returns (granted: bool)
      modifies this
      ensures granted <==> old(active) < maxConcurrent
      ensures (active, granted) == Tried(maxConcurrent, old(active))
    {
      var current := active;
      active := Added(active);
      granted := current < maxConcurrent;
      if !granted {
        active := Subtracted(active);
      }
    }

    method Release()
      modifies this
      ensures active == Subtracted(old(active))
    {
      active := Subtracted(active);
    }
  }
}
