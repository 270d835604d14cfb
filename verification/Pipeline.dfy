/** The request pipeline, as far as one stage limits the next: a task tracks a path, scores it, and hands
    the score to the response engine, while other tasks do the same. */
module Pipeline {
  import opened Common
  import R = RequestSequence
  import opened ResponseEngine
  import opened EscalationRuns

  /** The scores a task may pass on: zero with behavioural analysis off, otherwise that of a path tracked
      at some moment, with the sequence as it stood at two later moments. Requests of other tasks may
      come in between. */
  ghost predicate PipelineScore(score: real) {
    score == 0.0 || exists requests: seq<R.Request>, i: nat, m: nat, n: nat ::
      i < m <= n <= |requests|
      && score == R.DeviationOver(R.StateAt(requests, m), R.StateAt(requests, n), requests[i].path).overall
  }

  ghost predicate FromPipeline(events: seq<Event>) {
    forall e :: e in events && e.Evaluate? ==> PipelineScore(e.signals.anomalyScore)
  }

  /** The behavioural score never gives the response engine a reason, however the tasks interleave: it
      reaches the lower threshold and does not pass it. */
  lemma PipelineNeverReportsAnomalies(s: Signals)
    requires PipelineScore(s.anomalyScore)
    ensures s.anomalyScore <= 0.6
    ensures forall v :: v in Proposal(s).reasons ==> !v.HighAnomaly? && !v.ElevatedAnomaly?
  {
    if s.anomalyScore != 0.0 {
      var requests: seq<R.Request>, i: nat, m: nat, n: nat :|
        i < m <= n <= |requests|
        && s.anomalyScore
           == R.DeviationOver(R.StateAt(requests, m), R.StateAt(requests, n), requests[i].path).overall;
      R.ScoreInAnyInterleaving(requests, m, n, requests[i].path);
    }
    ProposalShape(s);
  }

  lemma ScoreOfRun(requests: seq<R.Request>, i: nat, n: nat)
    requires i < n <= |requests|
    ensures PipelineScore(R.PatternDeviation(R.StateAt(requests, n), requests[i].path).overall)
  {
    hide R.StateAt, R.RepetitionScore, R.NoveltyScore;
  }

  /** The threshold itself is a score of the pipeline. */
  lemma PipelineReachesThreshold()
    ensures PipelineScore(0.6)
  {
    hide PipelineScore, R.StateAt, R.PatternDeviation;
    var p, q := R.Request("/a", 0), R.Request("/b", 0);
    var requests := [p, p, p, p, p, p, p, p, p, q];
    R.InterleavedScoreReached(requests, "/a", "/b");
    ScoreOfRun(requests, 0, 10);
  }

  lemma NotedIsNotAnomaly(events: seq<Event>, m: nat, ip: IpAddr, v: Reason)
    requires m < |events| && FromPipeline(events) && NotedAt(events, m, ip, v)
    ensures !v.HighAnomaly? && !v.ElevatedAnomaly?
  {
    assert events[m] in events;
    PipelineNeverReportsAnomalies(events[m].signals);
    hide Proposal;
  }

  lemma NotedAreNotAnomalies(events: seq<Event>, k: nat, v: Reason)
    requires k < |events| && FromPipeline(events) && RecentlyNoted(events, k, v)
    ensures !v.HighAnomaly? && !v.ElevatedAnomaly?
  {
    var m: nat :| m <= k && NotedAt(events, m, events[k].ip, v);
    NotedIsNotAnomaly(events, m, events[k].ip, v);
  }

  /** So in the pipeline a timed block takes inspection findings of at least three different sizes. */
  lemma TimedBlockNeedsThreeInspections(cap: Action, events: seq<Event>, k: nat)
    requires k < |events| && Ordered(events, At) && SetsBlock(cap, events, k) && FromPipeline(events)
    ensures |DpiReasons(StateAt(cap, events, k + 1)[events[k].ip].violations)| >= 3
  {
    TimedBlockEarned(cap, events, k);
    var vs := StateAt(cap, events, k + 1)[events[k].ip].violations;
    hide StateAt, SetsBlock, RecentlyNoted, FromPipeline;
    forall v | v in vs
      ensures !v.HighAnomaly? && !v.ElevatedAnomaly?
    {
      NotedAreNotAnomalies(events, k, v);
    }
    DpiReasonsCount(vs, false);
  }
}
