/** What the response engine answers in a run, told by the signals, the clock and the record it found. */
module EscalationAnswers {
  import opened Common
  import opened ResponseEngine
  import opened EscalationRuns

  // ---- the proposal ----

  predicate CallsForBlock(s: Signals) {
    s.dpiThreats > 3 || s.botScore > 0.9 || s.threatIntelScore > 0.8 || s.anomalyScore > 0.85
  }

  predicate CallsForChallenge(s: Signals) {
    s.dpiThreats > 1 || s.botScore > 0.7 || s.threatIntelScore > 0.5 || s.anomalyScore > 0.6
  }

  lemma DpiAction(s: Signals)
    ensures DpiSignal(s, Finding(Allow, [])).action
         == if s.dpiThreats > 3 then Block else if s.dpiThreats > 1 then Challenge
            else if s.dpiThreats > 0 then Log else Allow
  {
  }

  lemma BotAction(s: Signals, f: Finding)
    requires f.action in {Allow, Log, Challenge, Block}
    ensures BotSignal(s, f).action
         == if f.action == Block || s.botScore > 0.9 then Block
            else if f.action == Challenge || s.botScore > 0.7 then Challenge
            else if f.action == Log || s.botScore > 0.4 then Log else Allow
  {
  }

  lemma IntelAction(s: Signals, f: Finding)
    requires f.action in {Allow, Log, Challenge, Block}
    ensures IntelSignal(s, f).action
         == if f.action == Block || s.threatIntelScore > 0.8 then Block
            else if f.action == Challenge || s.threatIntelScore > 0.5 then Challenge else f.action
  {
  }

  lemma AnomalyAction(s: Signals, f: Finding)
    requires f.action in {Allow, Log, Challenge, Block}
    ensures AnomalySignal(s, f).action
         == if f.action == Block || s.anomalyScore > 0.85 then Block
            else if f.action == Challenge || s.anomalyScore > 0.6 then Challenge else f.action
  {
  }

  /** The proposal is the strongest action any one signal calls for. */
  lemma ProposalIsStrongest(s: Signals)
    ensures Proposal(s).action
         == if CallsForBlock(s) then Block
            else if s.rateLimitTriggered then RateLimit
            else if CallsForChallenge(s) then Challenge
            else if s.dpiThreats > 0 || s.botScore > 0.4 then Log
            else Allow
  {
    var dpi := DpiSignal(s, Finding(Allow, []));
    DpiAction(s);
    BotAction(s, dpi);
    var bot := BotSignal(s, dpi);
    IntelAction(s, bot);
    AnomalyAction(s, IntelSignal(s, bot));
    hide DpiSignal, BotSignal, IntelSignal, AnomalySignal;
  }

  /** What a reason says of the signals. */
  predicate Holds(v: Reason, s: Signals) {
    match v
    case DpiThreats(n) => n == s.dpiThreats && n > 0
    case HighBotScore => s.botScore > 0.9
    case ElevatedBotScore => 0.7 < s.botScore <= 0.9
    case ModerateBotScore => 0.4 < s.botScore <= 0.7
    case HighThreatIntel => s.threatIntelScore > 0.8
    case ElevatedThreatIntel => 0.5 < s.threatIntelScore <= 0.8
    case HighAnomaly => s.anomalyScore > 0.85
    case ElevatedAnomaly => 0.6 < s.anomalyScore <= 0.85
    case RateLimitTriggered => s.rateLimitTriggered
  }

  lemma DpiReason(s: Signals, v: Reason)
    ensures v in DpiSignal(s, Finding(Allow, [])).reasons <==> v.DpiThreats? && Holds(v, s)
  {
  }

  lemma BotReason(s: Signals, f: Finding, v: Reason)
    ensures var ofBot := v.HighBotScore? || v.ElevatedBotScore? || v.ModerateBotScore?;
            v in BotSignal(s, f).reasons <==> v in f.reasons || (ofBot && Holds(v, s))
  {
  }

  lemma IntelReason(s: Signals, f: Finding, v: Reason)
    ensures var ofIntel := v.HighThreatIntel? || v.ElevatedThreatIntel?;
            v in IntelSignal(s, f).reasons <==> v in f.reasons || (ofIntel && Holds(v, s))
  {
  }

  lemma AnomalyReason(s: Signals, f: Finding, v: Reason)
    ensures var ofAnomaly := v.HighAnomaly? || v.ElevatedAnomaly?;
            v in AnomalySignal(s, f).reasons <==> v in f.reasons || (ofAnomaly && Holds(v, s))
  {
  }

  /** The reasons given are exactly those that hold. */
  lemma ReasonsHold(s: Signals, v: Reason)
    ensures v in Proposal(s).reasons <==> Holds(v, s)
  {
    var dpi := DpiSignal(s, Finding(Allow, []));
    DpiReason(s, v);
    BotReason(s, dpi, v);
    IntelReason(s, BotSignal(s, dpi), v);
    AnomalyReason(s, IntelSignal(s, BotSignal(s, dpi)), v);
    hide DpiSignal, BotSignal, IntelSignal, AnomalySignal;
  }

  // ---- the answer to an evaluation ----

  function Lower(m: nat, n: nat): nat {
    if m <= n then m else n
  }

  function Higher(m: nat, n: nat): nat {
    if m >= n then m else n
  }

  /** The order of the actions. */
  lemma ActionsInOrder(i: nat)
    requires i < 6
    ensures Level([Allow, Log, Challenge, RateLimit, Block, Redirect][i]) == i
  {
  }

  /** The record an event of the address works on. */
  function Found(cap: Action, events: seq<Event>, k: nat): Record
    requires k < |events|
  {
    var rs := StateAt(cap, events, k);
    if events[k].ip in rs then rs[events[k].ip] else Record(0, [], events[k].now, events[k].now, None)
  }

  /** No block on the record is still running. */
  predicate Free(r: Record, now: int) {
    r.blockUntil.None? || r.blockUntil.value <= now
  }

  lemma NotedOutcome(r: Record, proposed: Action, reasons: seq<Reason>, now: int)
    requires |r.violations| + |reasons| < 1000 && Distinct(r.violations)
    ensures var noted := Noted(r, proposed, reasons, now);
            && noted.lastSeen == now && |noted.violations| < 1000 && Distinct(noted.violations)
            && noted.blockUntil == r.blockUntil && noted.level == (if now - r.firstSeen > 300 then 0 else r.level)
            && noted.firstSeen == (if now - r.firstSeen > 300 then now else r.firstSeen)
            && (now - r.firstSeen > 300 ==> noted.violations == [])
            && forall v :: v in noted.violations <==>
                 now - r.firstSeen <= 300 && (v in r.violations || (Level(proposed) > 1 && v in reasons))
  {
    AddNewAdds(r.violations, reasons);
    hide AddNew;
  }

  lemma EscalatedOutcome(r: Record, proposed: Action, reasons: seq<Reason>, now: int)
    requires Free(r, now) && |r.violations| + |reasons| < 1000 && Distinct(r.violations)
    ensures var (after, action) := Escalated(r, proposed, reasons, now);
            var n := |after.violations|;
            && after.lastSeen == now && Distinct(after.violations)
            && (now - r.firstSeen > 300 ==> after.violations == [])
            && after.firstSeen == (if now - r.firstSeen > 300 then now else r.firstSeen)
            && (forall v :: v in after.violations <==>
                  now - r.firstSeen <= 300 && (v in r.violations || (Level(proposed) > 1 && v in reasons)))
            && after.blockUntil == (if n >= 9 then Some(now + 3600) else None)
            && after.level == (if n >= 9 then 4 else if n >= 6 then 3 else if n >= 3 then 2
                               else if now - r.firstSeen > 300 || r.blockUntil.Some? then 0 else r.level)
            && Level(action) == (if n >= 9 then 4 else if n >= 6 then Higher(Level(proposed), 3)
                                 else if n >= 3 then Higher(Level(proposed), 2) else Level(proposed))
  {
    NotedOutcome(Expired(r), proposed, reasons, now);
    var noted := Noted(Expired(r), proposed, reasons, now);
    hide Noted, Distinct;
  }

  lemma FoundInv(cap: Action, events: seq<Event>, k: nat)
    requires k < |events| && Ordered(events, At)
    ensures RecordInv(Found(cap, events, k), events[k].now)
  {
    RunKeepsInv(cap, events, k);
    NewRecordInv(events[k].now);
    if events[k].ip in StateAt(cap, events, k) {
      assert k > 0 && events[k - 1].now <= events[k].now;
      RecordInvLater(StateAt(cap, events, k)[events[k].ip], events[k - 1].now, events[k].now);
    }
  }

  lemma EvaluationStep(cap: Action, events: seq<Event>, k: nat)
    requires k < |events| && events[k].Evaluate?
    ensures var Evaluate(ip, s, now) := events[k];
            var (after, action) := Escalated(Found(cap, events, k), Proposal(s).action, Proposal(s).reasons, now);
            && StateAt(cap, events, k + 1) == StateAt(cap, events, k)[ip := after]
            && AnswerAt(cap, events, k) == Some(AtMost(action, cap))
  {
    hide Escalated, Proposal;
  }

  /** What an evaluation of an address that is not blocked makes of its record: a window older than 300
      seconds is dropped, violations included; otherwise the reasons given are added to the violations,
      unless the proposal is to allow or to log. The count of the violations sets level and block. */
  lemma EvaluationRecords(cap: Action, events: seq<Event>, k: nat)
    requires k < |events| && Ordered(events, At) && events[k].Evaluate?
    requires Free(Found(cap, events, k), events[k].now)
    ensures events[k].ip in StateAt(cap, events, k + 1)
    ensures var Evaluate(ip, s, now) := events[k];
            var found := Found(cap, events, k);
            var after := StateAt(cap, events, k + 1)[ip];
            var n := |after.violations|;
            && after.lastSeen == now && Distinct(after.violations)
            && (now - found.firstSeen > 300 ==> after.violations == [])
            && after.firstSeen == (if now - found.firstSeen > 300 then now else found.firstSeen)
            && (forall v :: v in after.violations <==>
                  now - found.firstSeen <= 300
                  && (v in found.violations || (Level(Proposal(s).action) > 1 && Holds(v, s))))
            && after.blockUntil == (if n >= 9 then Some(now + 3600) else None)
            && after.level == (if n >= 9 then 4 else if n >= 6 then 3 else if n >= 3 then 2
                               else if now - found.firstSeen > 300 || found.blockUntil.Some? then 0 else found.level)
  {
    var Evaluate(ip, s, now) := events[k];
    var found := Found(cap, events, k);
    FoundInv(cap, events, k);
    ProposalShape(s);
    EvaluationStep(cap, events, k);
    EscalatedOutcome(found, Proposal(s).action, Proposal(s).reasons, now);
    forall v
      ensures v in Proposal(s).reasons <==> Holds(v, s)
    {
      ReasonsHold(s, v);
    }
    hide Proposal, Escalated, Holds, StateAt, Found, Distinct;
  }

  /** What it answers: nine violations block, six ask for a rate limit at least and three for a challenge at
      least, and below that the proposal stands; all of it at most the maximum. */
  lemma EvaluationAnswers(cap: Action, events: seq<Event>, k: nat)
    requires k < |events| && Ordered(events, At) && events[k].Evaluate?
    requires Free(Found(cap, events, k), events[k].now)
    ensures events[k].ip in StateAt(cap, events, k + 1) && AnswerAt(cap, events, k).Some?
    ensures var n := |StateAt(cap, events, k + 1)[events[k].ip].violations|;
            var proposed := Level(Proposal(events[k].signals).action);
            Level(AnswerAt(cap, events, k).value)
            == Lower(Level(cap), if n >= 9 then 4 else if n >= 6 then Higher(proposed, 3)
                                 else if n >= 3 then Higher(proposed, 2) else proposed)
  {
    var Evaluate(ip, s, now) := events[k];
    FoundInv(cap, events, k);
    ProposalShape(s);
    EvaluationStep(cap, events, k);
    EscalatedOutcome(Found(cap, events, k), Proposal(s).action, Proposal(s).reasons, now);
    hide Proposal, Escalated, StateAt, AnswerAt, Found, Distinct;
  }

  /** The converse of `TimedBlockEarned`: nine violations after an evaluation block the address for 3600
      seconds, whatever comes in that time short of a reset. */
  lemma NineBlockForAnHour(cap: Action, events: seq<Event>, k: nat, n: nat)
    requires k < n < |events| && Ordered(events, At) && events[k].Evaluate? && events[n].ip == events[k].ip
    requires Free(Found(cap, events, k), events[k].now)
    requires events[k].ip in StateAt(cap, events, k + 1)
    requires |StateAt(cap, events, k + 1)[events[k].ip].violations| >= 9
    requires forall j {:trigger events[j]} :: k < j <= n && events[j].ip == events[k].ip ==> !events[j].Reset?
    requires events[n].now < events[k].now + 3600
    ensures AnswerAt(cap, events, n) == Some(if events[n].Evaluate? && Level(cap) < 4 then cap else Block)
  {
    EvaluationRecords(cap, events, k);
    hide StateAt, Found, Proposal;
    forall j | k + 1 <= j < n + 1 && events[j].ip == events[k].ip
      ensures !events[j].Reset? && events[j].now < events[k].now + 3600
    {
      assert events[j].now <= events[n].now;
    }
    BlockHolds(cap, events, events[k].ip, k + 1, n + 1);
  }

  // ---- the answer to an escalation ----

  /** An escalation of an address that is not blocked takes the next step of the ladder, from the bottom if
      a block has run out; the fourth step blocks for 3600 seconds. */
  lemma EscalationAnswers(cap: Action, events: seq<Event>, k: nat)
    requires k < |events| && Ordered(events, At) && events[k].Escalate?
    requires Free(Found(cap, events, k), events[k].now)
    ensures events[k].ip in StateAt(cap, events, k + 1)
    ensures var found := Found(cap, events, k);
            var after := StateAt(cap, events, k + 1)[events[k].ip];
            var level := if found.blockUntil.Some? then 0 else found.level;
            && level < 4 && AnswerAt(cap, events, k) == Some([Log, Challenge, RateLimit, Block][level])
            && after == found.(level := level + 1,
                               blockUntil := if level == 3 then Some(events[k].now + 3600) else None)
  {
    FoundInv(cap, events, k);
  }

  /** Four escalations in a row of an address without a record answer Log, Challenge, RateLimit and Block. */
  lemma FourEscalations(cap: Action, events: seq<Event>, k: nat, ip: IpAddr)
    requires k + 4 <= |events| && Ordered(events, At)
    requires forall j :: k <= j < k + 4 ==> events[j].Escalate? && events[j].ip == ip
    requires ip !in StateAt(cap, events, k)
    ensures AnswerAt(cap, events, k) == Some(Log)
    ensures AnswerAt(cap, events, k + 1) == Some(Challenge)
    ensures AnswerAt(cap, events, k + 2) == Some(RateLimit)
    ensures AnswerAt(cap, events, k + 3) == Some(Block)
  {
    hide AnswerAt, StateAt;
    EscalationAnswers(cap, events, k);
    EscalationAnswers(cap, events, k + 1);
    EscalationAnswers(cap, events, k + 2);
    EscalationAnswers(cap, events, k + 3);
  }

  // ---- the response ----

  /** The status tells the action's kind, and only a rate limit says when to come back. */
  lemma ResponsesDiffer(action: Action, reasons: seq<Reason>)
    ensures var d := Respond(action, reasons);
            && d.action == action && d.reasons == reasons
            && (d.status == 200 <==> action == Allow || action == Log)
            && (d.status == 403 <==> action == Challenge || action == Block)
            && (d.status == 429 <==> action == RateLimit) && (d.status == 302 <==> action == Redirect)
            && (d.retryAfter == Some(30) <==> action == RateLimit) && (d.retryAfter.None? <==> action != RateLimit)
            && (d.redirectUrl == Some("/blocked") <==> action == Redirect)
            && (d.redirectUrl.None? <==> action != Redirect)
  {
  }
}
