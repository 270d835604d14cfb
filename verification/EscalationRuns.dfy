/** What every run of the response engine keeps, and when an address may be blocked for an hour. */
module EscalationRuns {
  import opened Common
  import opened ResponseEngine

  datatype Event =
    | Evaluate(ip: IpAddr, signals: Signals, now: int)
    | Escalate(ip: IpAddr, now: int)
    | Reset(ip: IpAddr, now: int)

  /** The engine's answer; a reset answers nothing. */
  function Step(cap: Action, rs: Records, e: Event): (Records, Option<Action>) {
    match e
    case Evaluate(ip, s, now) =>
      var (after, d) := Evaluated(cap, rs, ip, s, now);
      (after, Some(d.action))
    case Escalate(ip, now) =>
      var (r, a) := SteppedUp(RecordFor(rs, ip, now), now);
      (rs[ip := r], Some(a))
    case Reset(ip, _) => (rs - {ip}, None)
  }

  function StateAt(cap: Action, events: seq<Event>, n: nat): Records
    requires n <= |events|
  {
    if n == 0 then map[] else Step(cap, StateAt(cap, events, n - 1), events[n - 1]).0
  }

  function AnswerAt(cap: Action, events: seq<Event>, n: nat): Option<Action>
    requires n < |events|
  {
    Step(cap, StateAt(cap, events, n), events[n]).1
  }

  function At(e: Event): real {
    e.now as real
  }

  // ---- one record ----

  ghost predicate Distinct(vs: seq<Reason>) {
    forall i, j :: 0 <= i < j < |vs| ==> vs[i] != vs[j]
  }

  /** The invariant of an address's record at a clock reading not before its last use. */
  ghost predicate RecordInv(r: Record, now: int) {
    && r.level <= 4
    && (r.level == 4 <==> r.blockUntil.Some?)
    && r.firstSeen <= now
    && (r.blockUntil.Some? ==> r.firstSeen + 3600 <= r.blockUntil.value <= now + 3600)
    && Distinct(r.violations) && |r.violations| <= 13
    && (r.blockUntil.None? && |r.violations| >= 9 ==> r.firstSeen + 3600 <= now)
  }

  lemma {:induction false} AddNewAdds(known: seq<Reason>, reasons: seq<Reason>)
    requires Distinct(known)
    ensures var all := AddNew(known, reasons);
            && Distinct(all) && |all| <= |known| + |reasons|
            && (forall v :: v in all <==> v in known || v in reasons)
    decreases |reasons|
  {
    if reasons != [] {
      AddNewAdds(if reasons[0] in known then known else known + [reasons[0]], reasons[1..]);
      assert reasons == [reasons[0]] + reasons[1..];
    }
  }

  lemma ProposalShape(s: Signals)
    ensures |Proposal(s).reasons| <= 5
    ensures forall v :: v in Proposal(s).reasons && v.DpiThreats? ==> v == DpiThreats(s.dpiThreats) && s.dpiThreats > 0
    ensures s.anomalyScore <= 0.6 ==> forall v :: v in Proposal(s).reasons ==> !v.HighAnomaly? && !v.ElevatedAnomaly?
  {
    var dpi := DpiSignal(s, Finding(Allow, []));
    assert |dpi.reasons| <= 1 && forall v :: v in dpi.reasons ==> v == DpiThreats(s.dpiThreats) && s.dpiThreats > 0;
    var bot := BotSignal(s, dpi);
    assert |bot.reasons| <= 2 && forall v :: v in bot.reasons && v !in dpi.reasons ==>
                                    v.HighBotScore? || v.ElevatedBotScore? || v.ModerateBotScore?;
    hide DpiSignal, BotSignal;
    var intel := IntelSignal(s, bot);
    assert |intel.reasons| <= 3 && forall v :: v in intel.reasons && v !in bot.reasons ==>
                                      v.HighThreatIntel? || v.ElevatedThreatIntel?;
  }

  predicate NoStronger(a: Signals, b: Signals) {
    && a.dpiThreats <= b.dpiThreats && a.botScore <= b.botScore && a.threatIntelScore <= b.threatIntelScore
    && a.anomalyScore <= b.anomalyScore && (a.rateLimitTriggered ==> b.rateLimitTriggered)
  }

  predicate Weaker(f: Finding, g: Finding) {
    Level(f.action) <= Level(g.action)
  }

  lemma DpiMonotone(a: Signals, b: Signals, f: Finding, g: Finding)
    requires a.dpiThreats <= b.dpiThreats && Weaker(f, g)
    ensures Weaker(DpiSignal(a, f), DpiSignal(b, g))
  {
  }

  lemma BotMonotone(a: Signals, b: Signals, f: Finding, g: Finding)
    requires a.botScore <= b.botScore && Weaker(f, g)
    ensures Weaker(BotSignal(a, f), BotSignal(b, g))
  {
  }

  lemma IntelMonotone(a: Signals, b: Signals, f: Finding, g: Finding)
    requires a.threatIntelScore <= b.threatIntelScore && Weaker(f, g)
    ensures Weaker(IntelSignal(a, f), IntelSignal(b, g))
  {
  }

  lemma AnomalyMonotone(a: Signals, b: Signals, f: Finding, g: Finding)
    requires a.anomalyScore <= b.anomalyScore && Weaker(f, g)
    ensures Weaker(AnomalySignal(a, f), AnomalySignal(b, g))
  {
  }

  /** Before escalation, stronger signals never call for a weaker action. */
  lemma ProposalMonotone(a: Signals, b: Signals)
    requires NoStronger(a, b)
    ensures Level(Proposal(a).action) <= Level(Proposal(b).action)
  {
    var none := Finding(Allow, []);
    DpiMonotone(a, b, none, none);
    var dpiA, dpiB := DpiSignal(a, none), DpiSignal(b, none);
    BotMonotone(a, b, dpiA, dpiB);
    var botA, botB := BotSignal(a, dpiA), BotSignal(b, dpiB);
    IntelMonotone(a, b, botA, botB);
    AnomalyMonotone(a, b, IntelSignal(a, botA), IntelSignal(b, botB));
    hide DpiSignal, BotSignal, IntelSignal, AnomalySignal;
  }

  /** A request is proposed for plain passage exactly when no signal gave a reason against it. */
  lemma AllowedIffNoReason(s: Signals)
    ensures Proposal(s).action == Allow <==> Proposal(s).reasons == []
  {
  }

  /** Evaluating keeps the record's invariant; a block it sets starts now and rests on nine violations
      of the current window. */
  lemma EscalatedKeepsInv(r: Record, proposed: Action, reasons: seq<Reason>, before: int, now: int)
    requires RecordInv(r, before) && before <= now && |reasons| <= 5
    ensures RecordInv(Escalated(r, proposed, reasons, now).0, now)
  {
    if !Blocked(r, now) {
      AddNewAdds(r.violations, reasons);
      var noted := Noted(Expired(r), proposed, reasons, now);
      assert Distinct(noted.violations);
    }
  }

  lemma SteppedUpKeepsInv(r: Record, before: int, now: int)
    requires RecordInv(r, before) && before <= now
    ensures RecordInv(SteppedUp(r, now).0, now)
    ensures !Blocked(r, now) ==> SteppedUp(r, now).0.level == Expired(r).level + 1
  {
  }

  /** After a block runs out, the first evaluation starts over: the window is stale, so the violations
      are dropped, those of this very request included, and the proposed action is not escalated. */
  lemma FirstEvaluationAfterBlock(r: Record, proposed: Action, reasons: seq<Reason>, before: int, now: int)
    requires RecordInv(r, before) && before <= now && r.blockUntil.Some? && !Blocked(r, now)
    ensures Escalated(r, proposed, reasons, now) == (Record(0, [], now, now, None), proposed)
  {
  }

  // ---- whole runs ----

  ghost predicate Inv(rs: Records, now: int) {
    forall ip :: ip in rs ==> RecordInv(rs[ip], now)
  }

  lemma NewRecordInv(now: int)
    ensures RecordInv(NewRecord(now), now)
  {
  }

  lemma StepKeepsInv(cap: Action, rs: Records, e: Event, before: int)
    requires Inv(rs, before) && before <= e.now
    ensures Inv(Step(cap, rs, e).0, e.now)
  {
    NewRecordInv(e.now);
    var start := RecordFor(rs, e.ip, e.now);
    assert RecordInv(start, e.now);
    match e {
      case Evaluate(ip, s, now) =>
        ProposalShape(s);
        EscalatedKeepsInv(start, Proposal(s).action, Proposal(s).reasons, now, now);
      case Escalate(ip, now) => SteppedUpKeepsInv(start, now, now);
      case Reset(_, _) =>
    }
  }

  /** In every mix of evaluations, escalations and resets, every record keeps its invariant: the level
      never passes 4, it is 4 exactly while a block is recorded, and a block outlasts the start of its
      window by at least an hour. */
  lemma {:induction false} RunKeepsInv(cap: Action, events: seq<Event>, n: nat)
    requires n <= |events| && Ordered(events, At)
    ensures n > 0 ==> Inv(StateAt(cap, events, n), events[n - 1].now)
    ensures n == 0 ==> StateAt(cap, events, n) == map[]
  {
    hide Step, RecordInv;
    if n > 0 {
      RunKeepsInv(cap, events, n - 1);
      var before := if n == 1 then events[0].now else events[n - 2].now;
      assert Inv(StateAt(cap, events, n - 1), before);
      StepKeepsInv(cap, StateAt(cap, events, n - 1), events[n - 1], before);
    }
  }

  lemma BlockedStep(cap: Action, rs: Records, e: Event, ip: IpAddr)
    requires ip in rs && rs[ip].blockUntil.Some?
    requires e.ip == ip ==> !e.Reset? && e.now < rs[ip].blockUntil.value
    ensures ip in Step(cap, rs, e).0 && Step(cap, rs, e).0[ip] == rs[ip]
    ensures e.ip == ip ==> Step(cap, rs, e).1 == Some(if e.Evaluate? then AtMost(Block, cap) else Block)
  {
    hide Proposal, Noted;
  }

  /** A block answers every call about the address until it runs out or is reset, and keeps the record
      as it was; an evaluation's answer is still capped. */
  lemma {:induction false} BlockHolds(cap: Action, events: seq<Event>, ip: IpAddr, i: nat, n: nat)
    requires i <= n <= |events|
    requires ip in StateAt(cap, events, i) && StateAt(cap, events, i)[ip].blockUntil.Some?
    requires forall k :: i <= k < n && events[k].ip == ip ==>
               !events[k].Reset? && events[k].now < StateAt(cap, events, i)[ip].blockUntil.value
    ensures ip in StateAt(cap, events, n) && StateAt(cap, events, n)[ip] == StateAt(cap, events, i)[ip]
    ensures forall k :: i <= k < n && events[k].ip == ip ==>
              AnswerAt(cap, events, k) == Some(if events[k].Evaluate? then AtMost(Block, cap) else Block)
    decreases n
  {
    hide Step;
    if n > i {
      BlockHolds(cap, events, ip, i, n - 1);
      BlockedStep(cap, StateAt(cap, events, n - 1), events[n - 1], ip);
    }
  }

  /** After a block was recorded at `i`, events up to `n` neither reset the address nor evaluate it once
      the block has run out. */
  ghost predicate NotEvaluatedSince(cap: Action, events: seq<Event>, ip: IpAddr, i: nat, n: nat)
    requires i <= n <= |events|
  {
    && ip in StateAt(cap, events, i) && StateAt(cap, events, i)[ip].blockUntil.Some?
    && forall j {:trigger events[j]} :: i <= j < n && events[j].ip == ip ==>
         !events[j].Reset? && (events[j].Evaluate? ==> events[j].now < StateAt(cap, events, i)[ip].blockUntil.value)
  }

  lemma EscalationKeepsWindow(cap: Action, rs: Records, e: Event, ip: IpAddr)
    requires ip in rs && (e.ip == ip ==> e.Escalate?)
    ensures ip in Step(cap, rs, e).0 && Step(cap, rs, e).0[ip].firstSeen == rs[ip].firstSeen
  {
    hide Proposal, Escalated;
  }

  /** Escalations move neither the window of a blocked address nor, until the block runs out, its record. */
  lemma {:induction false} WindowStays(cap: Action, events: seq<Event>, ip: IpAddr, i: nat, n: nat)
    requires i <= n <= |events| && Ordered(events, At) && NotEvaluatedSince(cap, events, ip, i, n)
    ensures ip in StateAt(cap, events, n)
    ensures StateAt(cap, events, n)[ip].firstSeen == StateAt(cap, events, i)[ip].firstSeen
    ensures n == i || events[n - 1].now < StateAt(cap, events, i)[ip].blockUntil.value ==>
              StateAt(cap, events, n)[ip] == StateAt(cap, events, i)[ip]
    decreases n
  {
    hide Step;
    if n > i {
      WindowStays(cap, events, ip, i, n - 1);
      var e := events[n - 1];
      if e.now < StateAt(cap, events, i)[ip].blockUntil.value {
        assert n - 1 > i ==> events[n - 2].now <= e.now;
        BlockedStep(cap, StateAt(cap, events, n - 1), e, ip);
      } else {
        EscalationKeepsWindow(cap, StateAt(cap, events, n - 1), e, ip);
      }
    }
  }

  lemma EvaluationOfStale(r: Record, proposed: Action, reasons: seq<Reason>, now: int)
    requires now - r.firstSeen > 300 && !Blocked(r, now)
    ensures Escalated(r, proposed, reasons, now) == (Record(0, [], now, now, None), proposed)
  {
  }

  /** In every run, the first evaluation after a recorded block has run out finds the window stale,
      whatever escalations came in between. Unless they have blocked the address anew, it wipes the
      record and answers with the plain proposal, capped. */
  lemma FirstEvaluationInRun(cap: Action, events: seq<Event>, i: nat, k: nat)
    requires i <= k < |events| && Ordered(events, At) && events[k].Evaluate?
    requires NotEvaluatedSince(cap, events, events[k].ip, i, k)
    requires StateAt(cap, events, i)[events[k].ip].blockUntil.value <= events[k].now
    ensures events[k].ip in StateAt(cap, events, k)
    ensures var found := StateAt(cap, events, k)[events[k].ip];
            var after := StateAt(cap, events, k + 1)[events[k].ip];
            if Blocked(found, events[k].now)
            then AnswerAt(cap, events, k) == Some(AtMost(Block, cap)) && after == found
            else && AnswerAt(cap, events, k) == Some(AtMost(Proposal(events[k].signals).action, cap))
                 && after == Record(0, [], events[k].now, events[k].now, None)
  {
    hide Escalated, Proposal;
    var e := events[k];
    WindowStays(cap, events, e.ip, i, k);
    var found := StateAt(cap, events, k)[e.ip];
    assert e.now - found.firstSeen > 300 by {
      RunKeepsInv(cap, events, i);
      assert RecordInv(StateAt(cap, events, i)[e.ip], events[i - 1].now);
    }
    hide NotEvaluatedSince, StateAt;
    if Blocked(found, e.now) {
      BlockedStep(cap, StateAt(cap, events, k), e, e.ip);
    } else {
      EvaluationOfStale(found, Proposal(e.signals).action, Proposal(e.signals).reasons, e.now);
    }
  }

  // ---- a timed block is earned ----

  /** The evaluation at `k` noted this reason against the address. */
  ghost predicate NotedAt(events: seq<Event>, k: nat, ip: IpAddr, v: Reason)
    requires k < |events|
  {
    && events[k].Evaluate? && events[k].ip == ip
    && v in Proposal(events[k].signals).reasons && Level(Proposal(events[k].signals).action) > Level(Log)
  }

  /** The reason was noted since the record's window began, by one of the first `n` events. */
  ghost predicate Sourced(events: seq<Event>, n: nat, ip: IpAddr, r: Record, v: Reason)
    requires n <= |events|
  {
    exists k: nat :: k < n && r.firstSeen <= events[k].now && NotedAt(events, k, ip, v)
  }

  ghost predicate AllSourced(events: seq<Event>, n: nat, ip: IpAddr, r: Record)
    requires n <= |events|
  {
    forall v :: v in r.violations ==> Sourced(events, n, ip, r, v)
  }

  lemma StillSourced(events: seq<Event>, n: nat, ip: IpAddr, r: Record, r': Record, v: Reason)
    requires n < |events| && Sourced(events, n, ip, r, v) && r.firstSeen == r'.firstSeen
    ensures Sourced(events, n + 1, ip, r', v)
  {
    var k: nat :| k < n && r.firstSeen <= events[k].now && NotedAt(events, k, ip, v);
    assert k < n + 1 && r'.firstSeen <= events[k].now && NotedAt(events, k, ip, v);
  }

  lemma EvaluationSourced(events: seq<Event>, n: nat, r: Record)
    requires n < |events| && events[n].Evaluate? && RecordInv(r, events[n].now)
    requires AllSourced(events, n, events[n].ip, r)
    ensures var e := events[n];
            AllSourced(events, n + 1, e.ip, Escalated(r, Proposal(e.signals).action, Proposal(e.signals).reasons, e.now).0)
  {
    var e := events[n];
    var Finding(proposed, reasons) := Proposal(e.signals);
    var r' := Escalated(r, proposed, reasons, e.now).0;
    AddNewAdds(r.violations, reasons);
    hide Proposal;
    forall v | v in r'.violations
      ensures Sourced(events, n + 1, e.ip, r', v)
    {
      assert r'.firstSeen == r.firstSeen;
      if v in r.violations {
        StillSourced(events, n, e.ip, r, r', v);
      } else {
        assert NotedAt(events, n, e.ip, v);
      }
    }
  }

  lemma OthersSourced(events: seq<Event>, n: nat, ip: IpAddr, r: Record, r': Record)
    requires n < |events| && AllSourced(events, n, ip, r)
    requires r'.firstSeen == r.firstSeen && r'.violations == r.violations
    ensures AllSourced(events, n + 1, ip, r')
  {
    forall v | v in r'.violations
      ensures Sourced(events, n + 1, ip, r', v)
    {
      StillSourced(events, n, ip, r, r', v);
    }
  }

  /** A step touches only the record of its own address. */
  lemma RecordAfter(cap: Action, rs: Records, e: Event, ip: IpAddr)
    requires ip in Step(cap, rs, e).0
    ensures var start := RecordFor(rs, ip, e.now);
            var after := Step(cap, rs, e).0[ip];
            && (e.ip != ip ==> ip in rs)
            && (e.ip == ip && e.Evaluate? ==>
                  after == Escalated(start, Proposal(e.signals).action, Proposal(e.signals).reasons, e.now).0)
            && (e.ip != ip || !e.Evaluate? ==>
                  after.firstSeen == start.firstSeen && after.violations == start.violations)
  {
    hide Proposal, Escalated;
  }

  lemma RecordInvLater(r: Record, before: int, now: int)
    requires RecordInv(r, before) && before <= now
    ensures RecordInv(r, now)
  {
  }

  lemma {:induction false} ViolationsSourced(cap: Action, events: seq<Event>, n: nat, ip: IpAddr)
    requires n <= |events| && Ordered(events, At) && ip in StateAt(cap, events, n)
    ensures AllSourced(events, n, ip, StateAt(cap, events, n)[ip])
    decreases n
  {
    hide Step, Proposal, Escalated, RecordInv, Sourced;
    var before := StateAt(cap, events, n - 1);
    var e := events[n - 1];
    var start := RecordFor(before, ip, e.now);
    RecordAfter(cap, before, e, ip);
    if ip in before {
      ViolationsSourced(cap, events, n - 1, ip);
    }
    assert AllSourced(events, n - 1, ip, start);
    if e.ip == ip && e.Evaluate? {
      RunKeepsInv(cap, events, n - 1);
      NewRecordInv(e.now);
      if ip in before {
        assert RecordInv(start, events[n - 2].now);
        RecordInvLater(start, events[n - 2].now, e.now);
      }
      EvaluationSourced(events, n - 1, start);
    } else {
      OthersSourced(events, n - 1, ip, start, StateAt(cap, events, n)[ip]);
    }
  }

  /** The event at `k` is an evaluation that put its address under a timed block. */
  ghost predicate SetsBlock(cap: Action, events: seq<Event>, k: nat)
    requires k < |events|
  {
    && events[k].Evaluate?
    && !Blocked(RecordFor(StateAt(cap, events, k), events[k].ip, events[k].now), events[k].now)
    && StateAt(cap, events, k + 1)[events[k].ip].blockUntil.Some?
  }

  /** A reason noted against the address within the last five minutes. */
  ghost predicate RecentlyNoted(events: seq<Event>, k: nat, v: Reason)
    requires k < |events|
  {
    exists m: nat :: m <= k && events[k].now - 300 <= events[m].now <= events[k].now
                     && NotedAt(events, m, events[k].ip, v)
  }

  lemma WindowIsFresh(cap: Action, events: seq<Event>, k: nat)
    requires k < |events| && Ordered(events, At) && SetsBlock(cap, events, k)
    ensures events[k].now - 300 <= StateAt(cap, events, k + 1)[events[k].ip].firstSeen
    ensures |StateAt(cap, events, k + 1)[events[k].ip].violations| >= 9
  {
    hide Proposal;
  }

  /** A timed block is earned: when an evaluation sets one, at least nine pairwise distinct reasons had
      been noted against that very address within the last 300 seconds. */
  lemma TimedBlockEarned(cap: Action, events: seq<Event>, k: nat)
    requires k < |events| && Ordered(events, At) && SetsBlock(cap, events, k)
    ensures var vs := StateAt(cap, events, k + 1)[events[k].ip].violations;
            && |vs| >= 9 && Distinct(vs)
            && forall v :: v in vs ==> RecentlyNoted(events, k, v)
  {
    var ip := events[k].ip;
    var r := StateAt(cap, events, k + 1)[ip];
    RunKeepsInv(cap, events, k + 1);
    ViolationsSourced(cap, events, k + 1, ip);
    WindowIsFresh(cap, events, k);
    forall v | v in r.violations
      ensures RecentlyNoted(events, k, v)
    {
      var m: nat :| m < k + 1 && r.firstSeen <= events[m].now && NotedAt(events, m, ip, v);
      assert events[m].now <= events[k].now;
    }
  }

  /** The reasons that do not come from deep packet inspection. */
  ghost function OtherReasons(anomalies: bool): set<Reason> {
    {HighBotScore, ElevatedBotScore, ModerateBotScore, HighThreatIntel, ElevatedThreatIntel, RateLimitTriggered}
    + if anomalies then {HighAnomaly, ElevatedAnomaly} else {}
  }

  lemma OtherReasonsCount(anomalies: bool)
    ensures |OtherReasons(anomalies)| <= if anomalies then 8 else 6
  {
  }

  ghost function DpiReasons(vs: seq<Reason>): set<Reason> {
    set v | v in vs && v.DpiThreats?
  }

  lemma {:induction false} DistinctCount(vs: seq<Reason>)
    requires Distinct(vs)
    ensures |set v | v in vs| == |vs|
    decreases |vs|
  {
    if vs != [] {
      DistinctCount(vs[1..]);
      assert (set v | v in vs) == (set v | v in vs[1..]) + {vs[0]};
    }
  }

  lemma {:induction false} SetOfSeqCount(vs: seq<Reason>)
    ensures |set v | v in vs| <= |vs|
    decreases |vs|
  {
    if vs != [] {
      SetOfSeqCount(vs[1..]);
      assert (set v | v in vs) == (set v | v in vs[1..]) + {vs[0]};
    }
  }

  /** However the others fall, all but eight of the distinct reasons are inspection findings, and all
      but six when no anomaly is ever reported. */
  lemma DpiReasonsCount(vs: seq<Reason>, anomalies: bool)
    requires Distinct(vs)
    requires !anomalies ==> forall v :: v in vs ==> !v.HighAnomaly? && !v.ElevatedAnomaly?
    ensures |DpiReasons(vs)| + (if anomalies then 8 else 6) >= |vs|
  {
    DistinctCount(vs);
    var all := set v | v in vs;
    var others := all - DpiReasons(vs);
    assert all == DpiReasons(vs) + others;
    forall v | v in others
      ensures v in OtherReasons(anomalies)
    {
    }
    OtherReasonsCount(anomalies);
    hide OtherReasons, DpiReasons, Distinct;
    SubsetCount(others, OtherReasons(anomalies));
  }

  /** Scores alone never lead to a timed block: at least one of the reasons is an inspection finding. */
  lemma TimedBlockNeedsInspection(cap: Action, events: seq<Event>, k: nat)
    requires k < |events| && Ordered(events, At) && SetsBlock(cap, events, k)
    ensures exists v :: v in StateAt(cap, events, k + 1)[events[k].ip].violations
                        && v.DpiThreats? && RecentlyNoted(events, k, v)
  {
    var vs := StateAt(cap, events, k + 1)[events[k].ip].violations;
    TimedBlockEarned(cap, events, k);
    DpiReasonsCount(vs, true);
    var v :| v in DpiReasons(vs);
    assert v in vs && v.DpiThreats? && RecentlyNoted(events, k, v);
  }

  /** No single request earns a timed block: it takes notes from at least two evaluations. */
  lemma TimedBlockNeedsTwoRequests(cap: Action, events: seq<Event>, k: nat, m: nat)
    requires k < |events| && Ordered(events, At) && SetsBlock(cap, events, k)
    requires m <= k && events[m].Evaluate?
    ensures exists v :: v in StateAt(cap, events, k + 1)[events[k].ip].violations
                        && RecentlyNoted(events, k, v) && v !in Proposal(events[m].signals).reasons
  {
    var vs := StateAt(cap, events, k + 1)[events[k].ip].violations;
    var reasons := Proposal(events[m].signals).reasons;
    TimedBlockEarned(cap, events, k);
    ProposalShape(events[m].signals);
    if forall v :: v in vs ==> v in reasons {
      DistinctCount(vs);
      SubsetCount(set v | v in vs, set v | v in reasons);
      SetOfSeqCount(reasons);
      assert false;
    }
  }
}
