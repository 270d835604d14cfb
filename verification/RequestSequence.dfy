/** Request sequences (`BehavioralAnalyzer`): transition counts kept incrementally while the sequence
    they are counted from is cut down to its last 1000 paths. */
module RequestSequence {
  import opened Common

  const SEQUENCE_LIMIT: nat := 1000
  const HISTORY_LIMIT: nat := 10_000
  const HISTORY_CUT: nat := 1000

  type Transition = (string, string)

  datatype TransitionRecord = TransitionRecord(from: string, to: string, count: nat, lastSeen: int)

  datatype Sequence = Sequence(
    paths: seq<string>,
    transitions: map<Transition, nat>,
    history: seq<TransitionRecord>)

  function CountOf(s: Sequence, t: Transition): nat {
    if t in s.transitions then s.transitions[t] else 0
  }

  function Shortened(h: seq<TransitionRecord>): seq<TransitionRecord> {
    if |h| > HISTORY_LIMIT then h[HISTORY_CUT..] else h
  }

  function Tracked(s: Sequence, path: string, now: int): Sequence {
    var moved :=
      if s.paths == [] then s else
        var last := s.paths[|s.paths| - 1];
        var count := CountOf(s, (last, path)) + 1;
        s.(transitions := s.transitions[(last, path) := count],
           history := Shortened(s.history + [TransitionRecord(last, path, count, now)]));
    var longer := moved.paths + [path];
    moved.(paths := if |longer| > SEQUENCE_LIMIT then longer[1..] else longer)
  }

  function CountPath(paths: seq<string>, p: string): nat
    decreases |paths|
  {
    if paths == [] then 0 else CountPath(paths[..|paths| - 1], p) + if paths[|paths| - 1] == p then 1 else 0
  }

  datatype Score = Score(overall: real, repetition: real, novelty: Option<real>)

  function RepetitionScore(s: Sequence, current: string): real {
    if |s.paths| > 5 then
      var same := CountPath(LastN(s.paths, 10), current);
      if same > 7 then 0.7 else if same > 4 then 0.3 else 0.0
    else 0.0
  }

  function NoveltyScore(s: Sequence, current: string): Option<real> {
    if s.paths == [] then None
    else if CountOf(s, (s.paths[|s.paths| - 1], current)) == 0 && s.transitions != map[] then Some(0.5)
    else Some(0.0)
  }

  /** The mean of the components present, never above 1. The sequence is locked once for either component,
      and other requests may be tracked in between. */
  function DeviationOver(s: Sequence, later: Sequence, current: string): Score {
    var repetition := RepetitionScore(s, current);
    var novelty := NoveltyScore(later, current);
    var overall := if novelty.Some? then (repetition + novelty.value) / 2.0 else repetition;
    Score(Min(overall, 1.0), repetition, novelty)
  }

  function PatternDeviation(s: Sequence, current: string): Score {
    DeviationOver(s, s, current)
  }

  class BehavioralAnalyzer {
    var pathSequence: seq<string>
    var pathTransitions: map<Transition, nat>
    var transitionHistory: seq<TransitionRecord>

    ghost function State(): Sequence
      reads this
    {
      Sequence(pathSequence, pathTransitions, transitionHistory)
    }

    constructor ()
      ensures State() == Sequence([], map[], [])
    {
      pathSequence, pathTransitions, transitionHistory := [], map[], [];
    }

    method TrackRequestSequence(path: string, now: int)
      modifies this
      ensures State() == Tracked(old(State()), path, now)
    {
      if |pathSequence| > 0 {
        var last := pathSequence[|pathSequence| - 1];
        var count := if (last, path) in pathTransitions then pathTransitions[(last, path)] else 0;
        count := count + 1;
        pathTransitions := pathTransitions[(last, path) := count];
        transitionHistory := transitionHistory + [TransitionRecord(last, path, count, now)];
        if |transitionHistory| > HISTORY_LIMIT {
          transitionHistory := transitionHistory[HISTORY_CUT..];
        }
      }
      pathSequence := pathSequence + [path];
      if |pathSequence| > SEQUENCE_LIMIT {
        pathSequence := pathSequence[1..];
      }
    }

    method CheckPatternDeviation(current: string) returns (score: Score)
      ensures score == PatternDeviation(State(), current)
    {
      var repetition := 0.0;
      if |pathSequence| > 5 {
        var recent := LastN(pathSequence, 10);
        var same := 0;
        var i := 0;
        while i < |recent|
          invariant 0 <= i <= |recent|
          invariant same == CountPath(recent[..i], current)
        {
          assert recent[..i + 1][..i] == recent[..i];
          if recent[i] == current {
            same := same + 1;
          }
          i := i + 1;
        }
        assert recent[..|recent|] == recent;
        repetition := if same > 7 then 0.7 else if same > 4 then 0.3 else 0.0;
      }
      var novelty := None;
      if |pathSequence| > 0 {
        var key := (pathSequence[|pathSequence| - 1], current);
        var count := if key in pathTransitions then pathTransitions[key] else 0;
        novelty := Some(if count == 0 && pathTransitions != map[] then 0.5 else 0.0);
      }
      var overall := if novelty.Some? then (repetition + novelty.value) / 2.0 else repetition;
      score := Score(Min(overall, 1.0), repetition, novelty);
    }
  }

  // ---- the index agrees with the whole history ----

  datatype Request = Request(path: string, now: int)

  /** The analyzer after the first `n` requests. */
  function StateAt(requests: seq<Request>, n: nat): Sequence
    requires n <= |requests|
  {
    if n == 0 then Sequence([], map[], [])
    else Tracked(StateAt(requests, n - 1), requests[n - 1].path, requests[n - 1].now)
  }

  /** How often the first `n` requests went straight from one path to the other. */
  function Pairs(requests: seq<Request>, n: nat, t: Transition): nat
    requires n <= |requests|
  {
    if n <= 1 then 0 else
      Pairs(requests, n - 1, t) + if (requests[n - 2].path, requests[n - 1].path) == t then 1 else 0
  }

  /** The paths of the last requests among the first `n`, as many as are kept. */
  function Recent(requests: seq<Request>, n: nat): seq<string>
    requires n <= |requests|
  {
    var kept := if n <= 1000 then n else 1000;
    seq(kept, i requires 0 <= i < kept => requests[n - kept + i].path)
  }

  lemma RecentGrows(requests: seq<Request>, n: nat)
    requires n < |requests|
    ensures var longer := Recent(requests, n) + [requests[n].path];
            Recent(requests, n + 1) == if |longer| > SEQUENCE_LIMIT then longer[1..] else longer
    ensures n > 0 ==> Recent(requests, n) != [] && Recent(requests, n)[|Recent(requests, n)| - 1] == requests[n - 1].path
  {
  }

  lemma {:induction false} PathsAreRecent(requests: seq<Request>, n: nat)
    requires n <= |requests|
    ensures StateAt(requests, n).paths == Recent(requests, n)
    ensures n > 0 ==> Recent(requests, n) != [] && Recent(requests, n)[|Recent(requests, n)| - 1] == requests[n - 1].path
  {
    if n > 0 {
      PathsAreRecent(requests, n - 1);
      RecentGrows(requests, n - 1);
      hide Recent, CountOf, Shortened;
    }
  }

  lemma TrackedEffect(s: Sequence, path: string, now: int, t: Transition)
    ensures var s' := Tracked(s, path, now);
            && CountOf(s', t)
               == CountOf(s, t) + (if s.paths != [] && (s.paths[|s.paths| - 1], path) == t then 1 else 0)
            && (|s.history| <= HISTORY_LIMIT ==> |s'.history| <= HISTORY_LIMIT)
  {
  }

  /** In every run the transition index counts adjacent pairs of the whole request history, although
      only the last 1000 paths are kept; and the log of transitions stays within its limit. */
  lemma {:induction false} IndexAgreesWithHistory(requests: seq<Request>, n: nat, t: Transition)
    requires n <= |requests|
    ensures CountOf(StateAt(requests, n), t) == Pairs(requests, n, t)
    ensures |StateAt(requests, n).history| <= 10_000
    ensures StateAt(requests, n).paths == Recent(requests, n)
  {
    hide Recent;
    PathsAreRecent(requests, n);
    if n > 0 {
      hide Tracked, CountOf;
      IndexAgreesWithHistory(requests, n - 1, t);
      PathsAreRecent(requests, n - 1);
      var before := StateAt(requests, n - 1);
      TrackedEffect(before, requests[n - 1].path, requests[n - 1].now, t);
      assert StateAt(requests, n) == Tracked(before, requests[n - 1].path, requests[n - 1].now);
      hide StateAt;
    }
  }

  // ---- repetition and novelty exclude each other ----

  ghost predicate NoRepeat(paths: seq<string>, p: string) {
    forall i :: 0 <= i < |paths| - 1 ==> !(paths[i] == p && paths[i + 1] == p)
  }

  /** Without two adjacent occurrences a path fills at most every other place. */
  lemma {:induction false} AtMostEveryOther(paths: seq<string>, p: string)
    requires NoRepeat(paths, p)
    ensures 2 * CountPath(paths, p) <= |paths| + 1
    ensures paths != [] && paths[|paths| - 1] != p ==> 2 * CountPath(paths, p) <= |paths|
    decreases |paths|
  {
    if paths != [] {
      AtMostEveryOther(paths[..|paths| - 1], p);
    }
  }

  lemma {:induction false} AdjacentIsCounted(requests: seq<Request>, n: nat, p: string, k: nat)
    requires k + 1 < n <= |requests| && requests[k].path == p && requests[k + 1].path == p
    ensures Pairs(requests, n, (p, p)) > 0
  {
    if k + 1 < n - 1 {
      AdjacentIsCounted(requests, n - 1, p, k);
    }
  }

  lemma NovelMeansNoRepeat(requests: seq<Request>, n: nat, p: string)
    requires n <= |requests| && CountOf(StateAt(requests, n), (p, p)) == 0
    ensures NoRepeat(StateAt(requests, n).paths, p)
  {
    IndexAgreesWithHistory(requests, n, (p, p));
    var paths := StateAt(requests, n).paths;
    hide StateAt;
    forall i | 0 <= i < |paths| - 1 && paths[i] == p
      ensures paths[i + 1] != p
    {
      if paths[i + 1] == p {
        AdjacentIsCounted(requests, n, p, n - |paths| + i);
      }
    }
  }

  /** Scoring a path just tracked: the top repetition score and the novelty score never occur together,
      and the overall score is at most 0.4. */
  lemma JustTrackedScore(requests: seq<Request>, n: nat)
    requires 0 < n <= |requests|
    ensures var score := PatternDeviation(StateAt(requests, n), requests[n - 1].path);
            && !(score.repetition == 0.7 && score.novelty == Some(0.5))
            && 0.0 <= score.overall <= 0.4
  {
    var s := StateAt(requests, n);
    var p := requests[n - 1].path;
    PathsAreRecent(requests, n);
    hide StateAt, Recent;
    if CountOf(s, (p, p)) == 0 {
      NovelMeansNoRepeat(requests, n, p);
      AtMostEveryOther(LastN(s.paths, 10), p);
    }
  }

  // ---- the scores in a run ----

  /** How often the path was requested by number `i` up to but not including `n`. */
  function Requested(requests: seq<Request>, p: string, i: nat, n: nat): nat
    requires i <= n <= |requests|
  {
    if n == i then 0 else Requested(requests, p, i, n - 1) + CountIf(requests[n - 1].path == p)
  }

  lemma {:induction false} CountIsRequested(requests: seq<Request>, p: string, i: nat, n: nat, paths: seq<string>)
    requires i <= n <= |requests| && |paths| == n - i
    requires forall k :: 0 <= k < |paths| ==> paths[k] == requests[i + k].path
    ensures CountPath(paths, p) == Requested(requests, p, i, n)
    decreases n
  {
    if i < n {
      CountIsRequested(requests, p, i, n - 1, paths[..|paths| - 1]);
    }
  }

  /** In every run: with more than five requests seen, a path asked for five to seven times among the last ten
      scores 0.3, from eight times on 0.7, and otherwise nothing. */
  lemma RepetitionInRun(requests: seq<Request>, n: nat, p: string)
    requires n <= |requests|
    ensures var among := Requested(requests, p, if n <= 10 then 0 else n - 10, n);
            RepetitionScore(StateAt(requests, n), p)
            == if n > 5 && among >= 8 then 0.7 else if n > 5 && among >= 5 then 0.3 else 0.0
  {
    PathsAreRecent(requests, n);
    var paths := StateAt(requests, n).paths;
    hide StateAt;
    var recent := LastN(paths, 10);
    CountIsRequested(requests, p, if n <= 10 then 0 else n - 10, n, recent);
  }

  lemma {:induction false} SomeTransition(requests: seq<Request>, n: nat)
    requires n <= |requests|
    ensures StateAt(requests, n).transitions == map[] <==> n <= 1
  {
    if n > 0 {
      SomeTransition(requests, n - 1);
      PathsAreRecent(requests, n - 1);
      assert n == 1 ==> StateAt(requests, 0).paths == [];
    }
  }

  /** In every run: a path scores 0.5 for novelty exactly if the last path has never been followed by it,
      although some path has been followed by some; before the first request it has no such score. */
  lemma NoveltyInRun(requests: seq<Request>, n: nat, p: string)
    requires n <= |requests|
    ensures NoveltyScore(StateAt(requests, n), p)
         == if n == 0 then None
            else if n >= 2 && Pairs(requests, n, (requests[n - 1].path, p)) == 0 then Some(0.5)
            else Some(0.0)
  {
    PathsAreRecent(requests, n);
    SomeTransition(requests, n);
    if n > 0 {
      IndexAgreesWithHistory(requests, n, (requests[n - 1].path, p));
    }
    hide StateAt, Recent, Pairs;
  }

  /** The score is the mean of the two. */
  lemma ScoreIsMean(s: Sequence, later: Sequence, p: string)
    ensures var score := DeviationOver(s, later, p);
            && score.repetition == RepetitionScore(s, p) && score.novelty == NoveltyScore(later, p)
            && (score.novelty.Some? ==> 2.0 * score.overall == score.repetition + score.novelty.value)
            && (score.novelty.None? ==> score.overall == score.repetition)
  {
    hide CountPath;
  }

  /** The log entry of request `n`, which follows another. */
  function Logged(requests: seq<Request>, n: nat): TransitionRecord
    requires 0 < n < |requests|
  {
    var step := (requests[n - 1].path, requests[n].path);
    TransitionRecord(step.0, step.1, Pairs(requests, n + 1, step), requests[n].now)
  }

  /** How many steps the log holds: all of them up to 10000, and then it is cut to 9001 and grows again. */
  function LogLength(n: nat): nat {
    if n <= 10001 then (if n == 0 then 0 else n - 1) else 9001 + (n - 10002) % 1000
  }

  lemma LogLengthGrows(n: nat)
    requires n > 0
    ensures LogLength(n + 1) == if LogLength(n) == 10000 then 9001 else LogLength(n) + 1
    ensures LogLength(n) <= 10000
  {
  }

  lemma LogStep(requests: seq<Request>, n: nat)
    requires 1 < n <= |requests|
    ensures StateAt(requests, n).history == Shortened(StateAt(requests, n - 1).history + [Logged(requests, n - 1)])
  {
    hide Recent;
    var before, last := StateAt(requests, n - 1), requests[n - 1];
    var step := (requests[n - 2].path, last.path);
    PathsAreRecent(requests, n - 1);
    IndexAgreesWithHistory(requests, n - 1, step);
    assert Tracked(before, last.path, last.now).history
        == Shortened(before.history + [TransitionRecord(step.0, step.1, CountOf(before, step) + 1, last.now)]);
    hide CountOf, Shortened, Tracked;
  }

  lemma LogStarts(requests: seq<Request>, n: nat)
    requires n <= |requests| && n <= 1
    ensures StateAt(requests, n).history == []
  {
    assert StateAt(requests, 0).history == [];
  }

  lemma ShortenedIsSuffix(before: seq<TransitionRecord>, r: TransitionRecord)
    requires |before| <= 10000
    ensures var log := Shortened(before + [r]);
            && |log| == (if |before| == 10000 then 9001 else |before| + 1)
            && forall i :: 0 <= i < |log| ==>
                 var k := |before| + 1 - |log| + i;
                 log[i] == if k < |before| then before[k] else r
  {
  }

  /** The log is the last part of the first `n` requests' steps, each with its count at the time. */
  ghost predicate LogsLast(requests: seq<Request>, n: nat, log: seq<TransitionRecord>)
    requires n <= |requests|
  {
    && |log| == LogLength(n) && (n > 0 ==> |log| < n)
    && forall i :: 0 <= i < |log| ==> log[i] == Logged(requests, n - |log| + i)
  }

  lemma LogExtends(requests: seq<Request>, n: nat, before: seq<TransitionRecord>)
    requires 0 < n < |requests| && LogsLast(requests, n, before)
    ensures LogsLast(requests, n + 1, Shortened(before + [Logged(requests, n)]))
  {
    LogLengthGrows(n);
    ShortenedIsSuffix(before, Logged(requests, n));
    hide Shortened, LogLength, Logged;
    var log := Shortened(before + [Logged(requests, n)]);
    forall i | 0 <= i < |log|
      ensures log[i] == Logged(requests, n + 1 - |log| + i)
    {
      var k := |before| + 1 - |log| + i;
      assert k < |before| ==> before[k] == Logged(requests, n - |before| + k);
    }
  }

  /** In every run. */
  lemma {:induction false} LogIsSuffix(requests: seq<Request>, n: nat)
    requires n <= |requests|
    ensures LogsLast(requests, n, StateAt(requests, n).history)
  {
    if n <= 1 {
      LogStarts(requests, n);
      hide StateAt;
    } else {
      hide StateAt, LogsLast;
      LogIsSuffix(requests, n - 1);
      LogExtends(requests, n - 1, StateAt(requests, n - 1).history);
      LogStep(requests, n);
    }
  }

  // ---- scores of any path, whatever other requests come in between ----

  /** Whatever other requests are tracked before, during and after the scoring of a path, its overall
      score is at most 0.6, and above 0.4 exactly when the top repetition score meets the novelty score. */
  lemma ScoreInAnyInterleaving(requests: seq<Request>, m: nat, n: nat, current: string)
    requires 0 < m <= n <= |requests|
    ensures var score := DeviationOver(StateAt(requests, m), StateAt(requests, n), current);
            && 0.0 <= score.overall <= 0.6
            && (score.overall > 0.4 <==> score.repetition == 0.7 && score.novelty == Some(0.5))
  {
    PathsAreRecent(requests, n);
    hide StateAt, Recent, CountPath;
  }

  lemma {:induction false} CountOfSame(paths: seq<string>, p: string)
    requires forall i :: 0 <= i < |paths| ==> paths[i] == p
    ensures CountPath(paths, p) == |paths|
    decreases |paths|
  {
    if paths != [] {
      CountOfSame(paths[..|paths| - 1], p);
    }
  }

  lemma {:induction false} NeverLeft(requests: seq<Request>, n: nat, q: string, p: string)
    requires n <= |requests| && forall i :: 0 <= i < n - 1 ==> requests[i].path != q
    ensures Pairs(requests, n, (q, p)) == 0
  {
    if n > 1 {
      NeverLeft(requests, n - 1, q, p);
    }
  }

  /** The bound is reached: one request of another task, tracked between the tracking of a path and its
      scoring, brings the score to 0.6. */
  lemma InterleavedScoreReached(requests: seq<Request>, p: string, q: string)
    requires |requests| == 10 && p != q && requests[9].path == q
    requires forall i :: 0 <= i < 9 ==> requests[i].path == p
    ensures PatternDeviation(StateAt(requests, 9), p).overall == 0.35
    ensures PatternDeviation(StateAt(requests, 10), p).overall == 0.6
  {
    PathsAreRecent(requests, 9);
    PathsAreRecent(requests, 10);
    CountOfSame(StateAt(requests, 9).paths, p);
    var paths := StateAt(requests, 10).paths;
    assert paths[..9] == StateAt(requests, 9).paths;
    IndexAgreesWithHistory(requests, 9, (p, p));
    IndexAgreesWithHistory(requests, 10, (p, p));
    IndexAgreesWithHistory(requests, 10, (q, p));
    AdjacentIsCounted(requests, 9, p, 0);
    AdjacentIsCounted(requests, 10, p, 0);
    NeverLeft(requests, 10, q, p);
    hide StateAt, Recent, Pairs;
  }
}
