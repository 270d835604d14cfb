/** Escalating responses: an address's record of recent violations, its level and its timed block. */
module ResponseEngine {
  import opened Common

  datatype Action = Allow | Log | Challenge | RateLimit | Block | Redirect

  const WINDOW_SECONDS := 300
  const VIOLATION_THRESHOLD: nat := 3
  const BLOCK_SECONDS := 3600
  const RECENT_LIMIT: nat := 1000

  /** `escalation_level`; actions are ordered the same way. */
  function Level(a: Action): nat {
    match a
    case Allow => 0
    case Log => 1
    case Challenge => 2
    case RateLimit => 3
    case Block => 4
    case Redirect => 5
  }

  function Stronger(a: Action, b: Action): Action {
    if Level(a) >= Level(b) then a else b
  }

  function AtMost(a: Action, cap: Action): Action {
    if Level(a) > Level(cap) then cap else a
  }

  datatype Reason =
    | DpiThreats(n: nat)
    | HighBotScore | ElevatedBotScore | ModerateBotScore
    | HighThreatIntel | ElevatedThreatIntel
    | HighAnomaly | ElevatedAnomaly
    | RateLimitTriggered

  /** The signals gathered for one request. */
  datatype Signals = Signals(
    dpiThreats: nat,
    botScore: real,
    threatIntelScore: real,
    anomalyScore: real,
    rateLimitTriggered: bool)

  /** What the signals examined so far call for, and why. */
  datatype Finding = Finding(action: Action, reasons: seq<Reason>)
  {
    function Raise(a: Action, reason: Reason): Finding {
      Finding(Stronger(action, a), reasons + [reason])
    }
  }

  function DpiSignal(s: Signals, f: Finding): Finding {
    if s.dpiThreats == 0 then f
    else if s.dpiThreats > 3 then f.Raise(Block, DpiThreats(s.dpiThreats))
    else if s.dpiThreats > 1 then f.Raise(Challenge, DpiThreats(s.dpiThreats))
    else f.Raise(Log, DpiThreats(s.dpiThreats))
  }

  function BotSignal(s: Signals, f: Finding): Finding {
    if s.botScore > 0.9 then f.Raise(Block, HighBotScore)
    else if s.botScore > 0.7 then f.Raise(Challenge, ElevatedBotScore)
    else if s.botScore > 0.4 then
      Finding(if f.action == Allow then Log else f.action, f.reasons + [ModerateBotScore])
    else f
  }

  function IntelSignal(s: Signals, f: Finding): Finding {
    if s.threatIntelScore > 0.8 then f.Raise(Block, HighThreatIntel)
    else if s.threatIntelScore > 0.5 then f.Raise(Challenge, ElevatedThreatIntel)
    else f
  }

  function AnomalySignal(s: Signals, f: Finding): Finding {
    if s.anomalyScore > 0.85 then f.Raise(Block, HighAnomaly)
    else if s.anomalyScore > 0.6 then f.Raise(Challenge, ElevatedAnomaly)
    else f
  }

  function RateSignal(s: Signals, f: Finding): Finding {
    if s.rateLimitTriggered then f.Raise(RateLimit, RateLimitTriggered) else f
  }

  /** The action the signals call for by themselves, and the reasons for it. */
  function Proposal(s: Signals): Finding {
    RateSignal(s, AnomalySignal(s, IntelSignal(s, BotSignal(s, DpiSignal(s, Finding(Allow, []))))))
  }

  datatype Record = Record(
    level: nat,
    violations: seq<Reason>,
    firstSeen: int,
    lastSeen: int,
    blockUntil: Option<int>)

  function NewRecord(now: int): Record {
    Record(0, [], now, now, None)
  }

  predicate Blocked(r: Record, now: int) {
    r.blockUntil.Some? && now < r.blockUntil.value
  }

  /** Drop a block that has run out; the violations and the start of the window stay. */
  function Expired(r: Record): Record {
    if r.blockUntil.Some? then r.(blockUntil := None, level := 0) else r
  }

  function AddNew(known: seq<Reason>, reasons: seq<Reason>): seq<Reason>
    decreases |reasons|
  {
    if reasons == [] then known
    else AddNew(if reasons[0] in known then known else known + [reasons[0]], reasons[1..])
  }

  /** The record with the request's reasons noted and a stale window cleared, in that order. */
  function Noted(r: Record, proposed: Action, reasons: seq<Reason>, now: int): Record {
    var seen := r.(lastSeen := now,
                   violations := if Level(proposed) > Level(Log) then AddNew(r.violations, reasons) else r.violations);
    if now - seen.firstSeen > WINDOW_SECONDS then seen.(firstSeen := now, violations := [], level := 0) else seen
  }

  function Escalated(r: Record, proposed: Action, reasons: seq<Reason>, now: int): (Record, Action) {
    if Blocked(r, now) then (r, Block) else
      var noted := Noted(Expired(r), proposed, reasons, now);
      var count := |noted.violations| % 0x1_0000_0000;
      if count >= VIOLATION_THRESHOLD * 3 then
        (noted.(level := Level(Block), blockUntil := Some(now + BLOCK_SECONDS)), Block)
      else if count >= VIOLATION_THRESHOLD * 2 then
        (noted.(level := Level(RateLimit)), Stronger(proposed, RateLimit))
      else if count >= VIOLATION_THRESHOLD then
        (noted.(level := Level(Challenge)), Stronger(proposed, Challenge))
      else
        (noted, proposed)
  }

  /** One step up the ladder on request; the level is an 8-bit counter. */
  function SteppedUp(r: Record, now: int): (Record, Action) {
    if Blocked(r, now) then (r, Block) else
      var e := Expired(r);
      var up := e.(level := (e.level + 1) % 256);
      match up.level
      case 1 => (up, Log)
      case 2 => (up, Challenge)
      case 3 => (up, RateLimit)
      case _ => (up.(blockUntil := Some(now + BLOCK_SECONDS)), Block)
  }

  type Records = map<IpAddr, Record>

  datatype Decision = Decision(
    action: Action,
    status: nat,
    reasons: seq<Reason>,
    redirectUrl: Option<string>,
    retryAfter: Option<nat>)

  function Respond(action: Action, reasons: seq<Reason>): Decision {
    match action
    case Allow => Decision(action, 200, reasons, None, None)
    case Log => Decision(action, 200, reasons, None, None)
    case Challenge => Decision(action, 403, reasons, None, None)
    case RateLimit => Decision(action, 429, reasons, None, Some(30))
    case Block => Decision(action, 403, reasons, None, None)
    case Redirect => Decision(action, 302, reasons, Some("/blocked"), None)
  }

  function RecordFor(rs: Records, ip: IpAddr, now: int): Record {
    if ip in rs then rs[ip] else NewRecord(now)
  }

  function Evaluated(cap: Action, rs: Records, ip: IpAddr, s: Signals, now: int): (Records, Decision) {
    var found := Proposal(s);
    var (r, action) := Escalated(RecordFor(rs, ip, now), found.action, found.reasons, now);
    (rs[ip := r], Respond(AtMost(action, cap), found.reasons))
  }

  class Engine {
    const maxEscalation: Action
    var escalationStates: Records
    var recentDecisions: seq<Decision>

    ghost predicate Valid()
      reads this
    {
      |recentDecisions| <= RECENT_LIMIT
    }

    constructor (maxEscalation: Action)
      ensures Valid() && this.maxEscalation == maxEscalation && escalationStates == map[] && recentDecisions == []
    {
      this.maxEscalation := maxEscalation;
      escalationStates, recentDecisions := map[], [];
    }

    /** The loop of `ApplyEscalation` over the reasons. */
    method NoteReasons(known: seq<Reason>, reasons: seq<Reason>) returns (violations: seq<Reason>)
      ensures violations == AddNew(known, reasons)
    {
      violations := known;
      var i := 0;
      while i < |reasons|
        invariant 0 <= i <= |reasons|
        invariant AddNew(violations, reasons[i..]) == AddNew(known, reasons)
      {
        assert reasons[i..][1..] == reasons[i + 1..];
        if reasons[i] !in violations {
          violations := violations + [reasons[i]];
        }
        i := i + 1;
      }
    }

    method ApplyEscalation(ip: IpAddr, proposed: Action, reasons: seq<Reason>, now: int) returns (action: Action)
      modifies this`escalationStates
      ensures var (r, a) := Escalated(RecordFor(old(escalationStates), ip, now), proposed, reasons, now);
              escalationStates == old(escalationStates)[ip := r] && action == a
    {
      hide AddNew, Stronger;
      var state := if ip in escalationStates then escalationStates[ip] else NewRecord(now);
      ghost var found := state;
      if state.blockUntil.Some? {
        if now < state.blockUntil.value {
          escalationStates := escalationStates[ip := state];
          return Block;
        } else {
          state := state.(blockUntil := None, level := 0);
        }
      }
      assert state == Expired(found) && !Blocked(found, now);
      hide Expired;

      state := state.(lastSeen := now);
      if Level(proposed) > Level(Log) {
        var violations := NoteReasons(state.violations, reasons);
        state := state.(violations := violations);
      }
      if now - state.firstSeen > WINDOW_SECONDS {
        state := state.(firstSeen := now, violations := [], level := 0);
      }
      assert state == Noted(Expired(found), proposed, reasons, now);
      hide Noted, Blocked;

      var count := |state.violations| % 0x1_0000_0000;
      if count >= VIOLATION_THRESHOLD * 3 {
        state := state.(level := Level(Block), blockUntil := Some(now + BLOCK_SECONDS));
        action := Block;
      } else if count >= VIOLATION_THRESHOLD * 2 {
        state := state.(level := Level(RateLimit));
        action := Stronger(proposed, RateLimit);
      } else if count >= VIOLATION_THRESHOLD {
        state := state.(level := Level(Challenge));
        action := Stronger(proposed, Challenge);
      } else {
        action := proposed;
      }
      escalationStates := escalationStates[ip := state];
    }

    /** The scoring half of `EvaluateThreat`. */
    method ScoreSignals(s: Signals) returns (action: Action, reasons: seq<Reason>)
      ensures Finding(action, reasons) == Proposal(s)
    {
      hide Stronger;
      action, reasons := Allow, [];

      if s.dpiThreats != 0 {
        if s.dpiThreats > 3 {
          action := Stronger(action, Block);
        } else if s.dpiThreats > 1 {
          action := Stronger(action, Challenge);
        } else {
          action := Stronger(action, Log);
        }
        reasons := reasons + [DpiThreats(s.dpiThreats)];
      }
      ghost var dpi := DpiSignal(s, Finding(Allow, []));
      assert Finding(action, reasons) == dpi;
      hide DpiSignal;

      if s.botScore > 0.9 {
        action := Stronger(action, Block);
        reasons := reasons + [HighBotScore];
      } else if s.botScore > 0.7 {
        action := Stronger(action, Challenge);
        reasons := reasons + [ElevatedBotScore];
      } else if s.botScore > 0.4 {
        reasons := reasons + [ModerateBotScore];
        if action == Allow {
          action := Log;
        }
      }
      ghost var bot := BotSignal(s, dpi);
      assert Finding(action, reasons) == bot;
      hide BotSignal;

      if s.threatIntelScore > 0.8 {
        action := Stronger(action, Block);
        reasons := reasons + [HighThreatIntel];
      } else if s.threatIntelScore > 0.5 {
        action := Stronger(action, Challenge);
        reasons := reasons + [ElevatedThreatIntel];
      }
      ghost var intel := IntelSignal(s, bot);
      assert Finding(action, reasons) == intel;
      hide IntelSignal;

      if s.anomalyScore > 0.85 {
        action := Stronger(action, Block);
        reasons := reasons + [HighAnomaly];
      } else if s.anomalyScore > 0.6 {
        action := Stronger(action, Challenge);
        reasons := reasons + [ElevatedAnomaly];
      }
      ghost var anomaly := AnomalySignal(s, intel);
      assert Finding(action, reasons) == anomaly;
      hide AnomalySignal;

      if s.rateLimitTriggered {
        action := Stronger(action, RateLimit);
        reasons := reasons + [RateLimitTriggered];
      }
    }

    method EvaluateThreat(ip: IpAddr, s: Signals, now: int) returns (decision: Decision)
      requires Valid()
      modifies this
      ensures (escalationStates, decision) == Evaluated(maxEscalation, old(escalationStates), ip, s, now)
      ensures Valid() && |recentDecisions| <= 1000
      ensures recentDecisions == LastN(old(recentDecisions) + [decision], 1000)
    {
      var action, reasons := ScoreSignals(s);
      action := ApplyEscalation(ip, action, reasons, now);
      if Level(action) > Level(maxEscalation) {
        action := maxEscalation;
      }
      decision := Respond(action, reasons);

      recentDecisions := recentDecisions + [decision];
      if |recentDecisions| > RECENT_LIMIT {
        recentDecisions := recentDecisions[1..];
      }
    }

    method EscalateResponse(ip: IpAddr, now: int) returns (decision: Decision)
      modifies this`escalationStates
      ensures var (r, a) := SteppedUp(RecordFor(old(escalationStates), ip, now), now);
              escalationStates == old(escalationStates)[ip := r] && decision == Respond(a, [])
    {
      var state := if ip in escalationStates then escalationStates[ip] else NewRecord(now);
      escalationStates := escalationStates[ip := state];
      if state.blockUntil.Some? {
        if now < state.blockUntil.value {
          return Respond(Block, []);
        } else {
          state := state.(blockUntil := None, level := 0);
        }
      }
      state := state.(level := (state.level + 1) % 256);
      var action;
      match state.level {
        case 1 => action := Log;
        case 2 => action := Challenge;
        case 3 => action := RateLimit;
        case _ =>
          state := state.(blockUntil := Some(now + BLOCK_SECONDS));
          action := Block;
      }
      escalationStates := escalationStates[ip := state];
      decision := Respond(action, []);
    }

    method ResetEscalation(ip: IpAddr)
      modifies this`escalationStates
      ensures escalationStates == old(escalationStates) - {ip}
    {
      escalationStates := escalationStates - {ip};
    }
  }
}
