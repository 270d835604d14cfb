/** Threat-intelligence lookups of addresses (`ThreatIntelligence::check_ip`): an average over the
    enabled feeds, remembered for an hour and not forgotten when feeds change. */
module ThreatIntel {
  import opened Common

  const CACHE_TTL: int := 3600
  const DEFAULT_SCORE := 0.8

  /** A parsed floating-point score; infinities are left to `Parsed`. */
  datatype Score = NaN | Num(value: real)

  predicate InUnit(s: Score) {
    s.Num? && 0.0 <= s.value <= 1.0
  }

  function Plus(a: Score, b: Score): Score {
    if a.NaN? || b.NaN? then NaN else Num(a.value + b.value)
  }

  function Divided(a: Score, n: nat): Score
    requires n > 0
  {
    if a.NaN? then NaN else Num(a.value / n as real)
  }

  /** What the text of a score can stand for; `Unreadable` is any text that is not a number. */
  datatype Parsed = Unreadable | NotANumber | PosInfinity | NegInfinity | Finite(value: real)

  /** `unwrap_or(0.8)` and then `clamp(0.0, 1.0)`, which lets a NaN through. */
  function Clamped(p: Parsed): Score {
    match p
    case Unreadable => Num(DEFAULT_SCORE)
    case NotANumber => NaN
    case PosInfinity => Num(1.0)
    case NegInfinity => Num(0.0)
    case Finite(v) => Num(Max(0.0, Min(v, 1.0)))
  }

  /** The address lines of a feed, in order; a later line for the same address wins. */
  function Entries(lines: seq<(string, Parsed)>): map<string, Score>
    decreases |lines|
  {
    if lines == [] then map[] else
      Entries(lines[..|lines| - 1])[lines[|lines| - 1].0 := Clamped(lines[|lines| - 1].1)]
  }

  datatype Feed = Feed(
    url: string,
    enabled: bool,
    lastUpdate: int,
    ipEntries: map<string, Score>,
    domainEntries: map<string, Score>)

  /** The two halves of a feed's text. */
  datatype Fetched = Fetched(ips: map<string, Score>, domains: map<string, Score>)

  type Feeds = map<string, Feed>

  datatype ThreatScore = ThreatScore(ipScore: Score, sources: set<string>)

  datatype Cached = Cached(score: ThreatScore, cachedAt: int, ttl: int)

  datatype Intel = Intel(feeds: Feeds, cache: map<string, Cached>)

  predicate Lists(feed: Feed, ip: string) {
    feed.enabled && ip in feed.ipEntries
  }

  /** The scores of the address in the enabled feeds that list it, by feed name. */
  function Contributions(feeds: Feeds, ip: string): map<string, Score> {
    map name | name in feeds && Lists(feeds[name], ip) :: feeds[name].ipEntries[ip]
  }

  ghost function Total(m: map<string, Score>): Score {
    if m == map[] then Num(0.0) else
      var name :| name in m;
      Plus(m[name], Total(m - {name}))
  }

  /** The average over the enabled feeds that list the address, if any do. */
  ghost function Average(feeds: Feeds, ip: string): Option<ThreatScore> {
    var m := Contributions(feeds, ip);
    if m == map[] then None
    else Some(ThreatScore(Divided(Total(m), |m|), m.Keys))
  }

  lemma PlusSwap(a: Score, b: Score, c: Score)
    ensures Plus(a, Plus(b, c)) == Plus(b, Plus(a, c))
  {
  }

  /** The order of the feeds does not matter. */
  lemma {:induction false} TotalWithout(m: map<string, Score>, name: string)
    requires name in m
    ensures Total(m) == Plus(m[name], Total(m - {name}))
    decreases |m|
  {
    var other :| other in m && Total(m) == Plus(m[other], Total(m - {other}));
    if other != name {
      TotalWithout(m - {other}, name);
      TotalWithout(m - {name}, other);
      assert m - {other} - {name} == m - {name} - {other};
      PlusSwap(m[other], m[name], Total(m - {name} - {other}));
    }
  }

  lemma TotalWith(m: map<string, Score>, name: string, score: Score)
    requires name !in m
    ensures Total(m[name := score]) == Plus(score, Total(m)) == Plus(Total(m), score)
  {
    TotalWithout(m[name := score], name);
    assert m[name := score] - {name} == m;
  }

  predicate Live(c: Cached, now: int) {
    now - c.cachedAt < c.ttl
  }

  /** A lookup: a live cached answer, or the present average, which is then cached. */
  ghost function CheckedIp(st: Intel, ip: string, now: int): (Intel, Option<ThreatScore>) {
    if ip in st.cache && Live(st.cache[ip], now) then (st, Some(st.cache[ip].score)) else
      var present := Average(st.feeds, ip);
      (if present.Some? then st.(cache := st.cache[ip := Cached(present.value, now, CACHE_TTL)]) else st, present)
  }

  function NewFeed(url: string): Feed {
    Feed(url, true, 0, map[], map[])
  }

  predicate Refreshes(feed: Feed, name: string, fetched: map<string, Fetched>) {
    feed.enabled && name in fetched
  }

  function RefreshedFeed(feed: Feed, name: string, fetched: map<string, Fetched>, now: int): Feed {
    if Refreshes(feed, name, fetched)
    then feed.(ipEntries := fetched[name].ips, domainEntries := fetched[name].domains, lastUpdate := now)
    else feed
  }

  /** Every enabled feed whose fetch succeeded takes the fetched entries. */
  function UpdatedFeeds(feeds: Feeds, fetched: map<string, Fetched>, now: int): Feeds {
    map name | name in feeds :: RefreshedFeed(feeds[name], name, fetched, now)
  }

  /** The update with some feeds still to come. */
  ghost function PartlyUpdated(
    feeds: Feeds, fetched: map<string, Fetched>, now: int, remaining: set<string>): Feeds
  {
    map name | name in feeds ::
      if name in remaining then feeds[name] else RefreshedFeed(feeds[name], name, fetched, now)
  }

  ghost function RefreshedNames(
    feeds: Feeds, fetched: map<string, Fetched>, remaining: set<string>): set<string>
  {
    set name | name in feeds && name !in remaining && Refreshes(feeds[name], name, fetched)
  }

  lemma PartlyUpdatedEnds(feeds: Feeds, fetched: map<string, Fetched>, now: int)
    ensures PartlyUpdated(feeds, fetched, now, feeds.Keys) == feeds
    ensures PartlyUpdated(feeds, fetched, now, {}) == UpdatedFeeds(feeds, fetched, now)
    ensures RefreshedNames(feeds, fetched, feeds.Keys) == {}
  {
    hide RefreshedFeed, Refreshes;
  }

  lemma PartlyUpdatedStep(
    feeds: Feeds, fetched: map<string, Fetched>, now: int, remaining: set<string>, name: string)
    requires name in remaining && name in feeds
    ensures PartlyUpdated(feeds, fetched, now, remaining).Keys == feeds.Keys
    ensures PartlyUpdated(feeds, fetched, now, remaining)[name] == feeds[name]
    ensures PartlyUpdated(feeds, fetched, now, remaining - {name})
         == PartlyUpdated(feeds, fetched, now, remaining)[name := RefreshedFeed(feeds[name], name, fetched, now)]
    ensures |RefreshedNames(feeds, fetched, remaining - {name})|
         == |RefreshedNames(feeds, fetched, remaining)| + if Refreshes(feeds[name], name, fetched) then 1 else 0
  {
    hide RefreshedFeed, Refreshes;
    assert RefreshedNames(feeds, fetched, remaining - {name})
        == RefreshedNames(feeds, fetched, remaining) + if Refreshes(feeds[name], name, fetched) then {name} else {};
  }

  /** The contributions of the feeds that are no longer to come. */
  ghost function Seen(feeds: Feeds, ip: string, remaining: set<string>): map<string, Score> {
    Contributions(feeds, ip) - remaining
  }

  lemma SeenEnds(feeds: Feeds, ip: string)
    ensures Seen(feeds, ip, feeds.Keys) == map[]
    ensures Seen(feeds, ip, {}) == Contributions(feeds, ip)
  {
  }

  lemma SeenGrows(feeds: Feeds, ip: string, remaining: set<string>, name: string)
    requires name in remaining && name in feeds
    ensures name !in Seen(feeds, ip, remaining)
    ensures Seen(feeds, ip, remaining - {name})
         == if Lists(feeds[name], ip) then Seen(feeds, ip, remaining)[name := feeds[name].ipEntries[ip]]
            else Seen(feeds, ip, remaining)
  {
  }

  lemma SeenStep(feeds: Feeds, ip: string, remaining: set<string>, name: string)
    requires name in remaining && name in feeds
    ensures var before := Seen(feeds, ip, remaining);
            var after := Seen(feeds, ip, remaining - {name});
            if Lists(feeds[name], ip) then
              && after.Keys == before.Keys + {name} && |after| == |before| + 1
              && Total(after) == Plus(Total(before), feeds[name].ipEntries[ip])
            else after == before
  {
    SeenGrows(feeds, ip, remaining, name);
    hide Seen, Total, Plus;
    if Lists(feeds[name], ip) {
      TotalWith(Seen(feeds, ip, remaining), name, feeds[name].ipEntries[ip]);
    }
  }

  class ThreatIntelligence {
    var feeds: Feeds
    var scoreCache: map<string, Cached>

    ghost function State(): Intel
      reads this
    {
      Intel(feeds, scoreCache)
    }

    constructor ()
      ensures State() == Intel(map[], map[])
    {
      feeds, scoreCache := map[], map[];
    }

    method AddFeed(name: string, url: string) returns (ok: bool)
      modifies this`feeds
      ensures ok <==> name !in old(feeds)
      ensures feeds == if ok then old(feeds)[name := Feed(url, true, 0, map[], map[])] else old(feeds)
    {
      if name in feeds {
        return false;
      }
      feeds := feeds[name := NewFeed(url)];
      return true;
    }

    method RemoveFeed(name: string) returns (ok: bool)
      modifies this`feeds
      ensures ok <==> name in old(feeds)
      ensures feeds == old(feeds) - {name}
    {
      ok := name in feeds;
      feeds := feeds - {name};
    }

    method UpdateFeeds(fetched: map<string, Fetched>, now: int) returns (updated: nat)
      modifies this`feeds
      ensures feeds == UpdatedFeeds(old(feeds), fetched, now)
      ensures updated == |RefreshedNames(old(feeds), fetched, {})|
    {
      hide RefreshedFeed, Refreshes, RefreshedNames, PartlyUpdated;
      ghost var before := feeds;
      PartlyUpdatedEnds(before, fetched, now);
      updated := 0;
      var remaining := feeds.Keys;
      while remaining != {}
        invariant remaining <= before.Keys
        invariant feeds == PartlyUpdated(before, fetched, now, remaining)
        invariant updated == |RefreshedNames(before, fetched, remaining)|
        decreases |remaining|
      {
        var name :| name in remaining;
        PartlyUpdatedStep(before, fetched, now, remaining, name);
        remaining := remaining - {name};
        var feed := feeds[name];
        feeds := feeds[name := RefreshedFeed(feed, name, fetched, now)];
        if Refreshes(feed, name, fetched) {
          updated := updated + 1;
        }
      }
    }

    /** The loop of `CheckIp` over the feeds, which come in no particular order. */
    method SumContributions(ip: string) returns (total: Score, sources: set<string>, contributing: nat)
      ensures total == Total(Contributions(feeds, ip))
      ensures sources == Contributions(feeds, ip).Keys && contributing == |Contributions(feeds, ip)|
    {
      hide Contributions, Plus, Seen;
      SeenEnds(feeds, ip);
      total, sources, contributing := Num(0.0), {}, 0;
      var remaining := feeds.Keys;
      while remaining != {}
        invariant remaining <= feeds.Keys
        invariant sources == Seen(feeds, ip, remaining).Keys
        invariant contributing == |Seen(feeds, ip, remaining)|
        invariant total == Total(Seen(feeds, ip, remaining))
        decreases |remaining|
      {
        var name :| name in remaining;
        SeenStep(feeds, ip, remaining, name);
        remaining := remaining - {name};
        var feed := feeds[name];
        if feed.enabled && ip in feed.ipEntries {
          total := Plus(total, feed.ipEntries[ip]);
          sources := sources + {name};
          contributing := contributing + 1;
        }
      }
    }

    method CheckIp(ip: string, now: int) returns (answer: Option<ThreatScore>)
      modifies this`scoreCache
      ensures (State(), answer) == CheckedIp(old(State()), ip, now)
    {
      if ip in scoreCache && Live(scoreCache[ip], now) {
        return Some(scoreCache[ip].score);
      }
      var total, sources, contributing := SumContributions(ip);
      if contributing == 0 {
        return None;
      }
      var score := ThreatScore(Divided(total, contributing), sources);
      scoreCache := scoreCache[ip := Cached(score, now, CACHE_TTL)];
      return Some(score);
    }

    method ClearCache()
      modifies this`scoreCache
      ensures scoreCache == map[]
    {
      scoreCache := map[];
    }
  }

  // ---- whole runs ----

  datatype Op =
    | AddFeed(name: string, url: string, now: int)
    | RemoveFeed(name: string, now: int)
    | UpdateFeeds(fetched: map<string, Fetched>, now: int)
    | CheckIp(ip: string, now: int)
    | ClearCache(now: int)

  ghost function Step(st: Intel, op: Op): (Intel, Option<ThreatScore>) {
    match op
    case AddFeed(name, url, _) =>
      (if name in st.feeds then st else st.(feeds := st.feeds[name := NewFeed(url)]), None)
    case RemoveFeed(name, _) => (st.(feeds := st.feeds - {name}), None)
    case UpdateFeeds(fetched, now) => (st.(feeds := UpdatedFeeds(st.feeds, fetched, now)), None)
    case CheckIp(ip, now) => CheckedIp(st, ip, now)
    case ClearCache(_) => (st.(cache := map[]), None)
  }

  ghost function StateAt(ops: seq<Op>, n: nat): Intel
    requires n <= |ops|
  {
    if n == 0 then Intel(map[], map[]) else Step(StateAt(ops, n - 1), ops[n - 1]).0
  }

  ghost function AnswerAt(ops: seq<Op>, n: nat): Option<ThreatScore>
    requires n < |ops|
  {
    Step(StateAt(ops, n), ops[n]).1
  }

  /** The entry was computed by the lookup at `k`, from the feeds as they stood then, and the cache has
      not been cleared since. */
  ghost predicate CachedBy(ops: seq<Op>, n: nat, ip: string, c: Cached, k: nat)
    requires k < n <= |ops|
  {
    && ops[k] == CheckIp(ip, c.cachedAt) && c.ttl == 3600
    && Average(StateAt(ops, k).feeds, ip) == Some(c.score)
    && forall j :: k <= j < n ==> !ops[j].ClearCache?
  }

  lemma {:induction false} CacheProvenance(ops: seq<Op>, n: nat, ip: string) returns (k: nat)
    requires n <= |ops| && ip in StateAt(ops, n).cache
    ensures k < n && CachedBy(ops, n, ip, StateAt(ops, n).cache[ip], k)
    decreases n
  {
    hide Average;
    var before := StateAt(ops, n - 1);
    var op := ops[n - 1];
    if op == CheckIp(ip, op.now) && !(ip in before.cache && Live(before.cache[ip], op.now))
       && Average(before.feeds, ip).Some? {
      k := n - 1;
    } else {
      k := CacheProvenance(ops, n - 1, ip);
    }
  }

  /** The average an answer may come from: as the feeds stood at the lookup itself, or at an earlier
      lookup less than an hour before with no clearing of the cache in between. */
  ghost predicate AnswersFrom(ops: seq<Op>, n: nat, k: nat)
    requires k <= n < |ops| && ops[n].CheckIp?
  {
    && AnswerAt(ops, n) == Average(StateAt(ops, k).feeds, ops[n].ip)
    && (k < n ==> ops[n].now - 3600 < ops[k].now && forall j :: k <= j < n ==> !ops[j].ClearCache?)
  }

  /** Staleness: every answer is the average over the enabled feeds as they stand now or stood less than
      3600 seconds ago. */
  lemma AnswerStaleness(ops: seq<Op>, n: nat) returns (k: nat)
    requires n < |ops| && ops[n].CheckIp?
    ensures k <= n && AnswersFrom(ops, n, k)
  {
    var st := StateAt(ops, n);
    var ip := ops[n].ip;
    k := n;
    if ip in st.cache && Live(st.cache[ip], ops[n].now) {
      k := CacheProvenance(ops, n, ip);
    }
    hide Average;
  }

  lemma {:induction false} UnchangedFeeds(ops: seq<Op>, k: nat, n: nat)
    requires k <= n <= |ops|
    requires forall j :: k <= j < n ==> ops[j].CheckIp? || ops[j].ClearCache?
    ensures StateAt(ops, k).feeds == StateAt(ops, n).feeds
    decreases n
  {
    hide Average;
    if k < n {
      UnchangedFeeds(ops, k, n - 1);
    }
  }

  lemma {:induction false} CachedSinceEmpty(ops: seq<Op>, e: nat, n: nat, ip: string) returns (k: nat)
    requires e <= n <= |ops| && StateAt(ops, e).cache == map[] && ip in StateAt(ops, n).cache
    ensures e <= k < n && CachedBy(ops, n, ip, StateAt(ops, n).cache[ip], k)
    decreases n
  {
    hide Average;
    assert e < n;
    var before := StateAt(ops, n - 1);
    var op := ops[n - 1];
    if op == CheckIp(ip, op.now) && !(ip in before.cache && Live(before.cache[ip], op.now))
       && Average(before.feeds, ip).Some? {
      k := n - 1;
    } else {
      k := CachedSinceEmpty(ops, e, n - 1, ip);
    }
  }

  /** If no feed was touched since the cache was last empty, the answer is the present average. */
  lemma AnswerCurrentSinceEmpty(ops: seq<Op>, e: nat, n: nat)
    requires e <= n < |ops| && ops[n].CheckIp? && StateAt(ops, e).cache == map[]
    requires forall j :: e <= j < n ==> ops[j].CheckIp? || ops[j].ClearCache?
    ensures AnswerAt(ops, n) == Average(StateAt(ops, n).feeds, ops[n].ip)
  {
    var st := StateAt(ops, n);
    var ip := ops[n].ip;
    if ip in st.cache && Live(st.cache[ip], ops[n].now) {
      var k := CachedSinceEmpty(ops, e, n, ip);
      UnchangedFeeds(ops, k, n);
    }
  }

  /** The lookup computes an answer and caches it. */
  ghost predicate ComputesAnswer(ops: seq<Op>, k: nat)
    requires k < |ops|
  {
    && ops[k].CheckIp? && AnswerAt(ops, k).Some?
    && (ops[k].ip in StateAt(ops, k).cache ==>
          var c := StateAt(ops, k).cache[ops[k].ip];
          c.cachedAt + c.ttl <= ops[k].now)
  }

  lemma {:induction false} CachedAnswerStays(ops: seq<Op>, k: nat, n: nat)
    requires k < n <= |ops| && ComputesAnswer(ops, k)
    requires forall j {:trigger ops[j]} :: k < j < n ==> !ops[j].ClearCache? && ops[j].now < ops[k].now + 3600
    ensures ops[k].ip in StateAt(ops, n).cache
    ensures StateAt(ops, n).cache[ops[k].ip] == Cached(AnswerAt(ops, k).value, ops[k].now, 3600)
    decreases n
  {
    hide Average;
    if k < n - 1 {
      CachedAnswerStays(ops, k, n - 1);
    }
  }

  /** A computed answer holds for 3600 seconds, whatever becomes of the feeds, unless the cache is cleared. */
  lemma AnswerHoldsForAnHour(ops: seq<Op>, k: nat, n: nat)
    requires k < n < |ops| && ComputesAnswer(ops, k) && ops[n].CheckIp? && ops[n].ip == ops[k].ip
    requires forall j {:trigger ops[j]} :: k < j <= n ==> !ops[j].ClearCache? && ops[j].now < ops[k].now + 3600
    ensures AnswerAt(ops, n) == AnswerAt(ops, k)
  {
    CachedAnswerStays(ops, k, n);
    hide Average, StateAt;
  }

  // ---- what the average is ----

  /** The feeds named, in that order, are all the enabled feeds that list the address. */
  ghost predicate Lister(feeds: Feeds, ip: string, names: seq<string>) {
    && (forall i, j :: 0 <= i < j < |names| ==> names[i] != names[j])
    && (forall name :: name in names <==> name in feeds && feeds[name].enabled && ip in feeds[name].ipEntries)
  }

  /** The sum of the scores of those names. */
  function SumOfScores(scores: map<string, Score>, names: seq<string>): real
    requires forall i :: 0 <= i < |names| ==> names[i] in scores && scores[names[i]].Num?
    decreases |names|
  {
    if names == [] then 0.0
    else scores[names[|names| - 1]].value + SumOfScores(scores, names[..|names| - 1])
  }

  /** The map has exactly those keys, each a number. */
  ghost predicate Enumerates(m: map<string, Score>, names: seq<string>)
    decreases |names|
  {
    if names == [] then m == map[] else
      var last := names[|names| - 1];
      last in m && m[last].Num? && Enumerates(m - {last}, names[..|names| - 1])
  }

  lemma {:induction false} EnumeratesIf(m: map<string, Score>, names: seq<string>)
    requires forall i, j :: 0 <= i < j < |names| ==> names[i] != names[j]
    requires forall i :: 0 <= i < |names| ==> names[i] in m && m[names[i]].Num?
    requires forall name :: name in m ==> exists i :: 0 <= i < |names| && names[i] == name
    ensures Enumerates(m, names)
    decreases |names|
  {
    if names == [] {
      assert m == map[];
    } else {
      var init, last := names[..|names| - 1], names[|names| - 1];
      var rest := m - {last};
      forall name | name in rest
        ensures exists i :: 0 <= i < |init| && init[i] == name
      {
        var i :| 0 <= i < |names| && names[i] == name;
        assert init[i] == name;
      }
      EnumeratesIf(rest, init);
    }
  }

  lemma {:induction false} EnumeratedAreIn(m: map<string, Score>, names: seq<string>)
    requires Enumerates(m, names)
    ensures forall i :: 0 <= i < |names| ==> names[i] in m && m[names[i]].Num?
    decreases |names|
  {
    if names != [] {
      EnumeratedAreIn(m - {names[|names| - 1]}, names[..|names| - 1]);
    }
  }

  lemma {:induction false} SameSum(m: map<string, Score>, k: map<string, Score>, names: seq<string>)
    requires forall i :: 0 <= i < |names| ==>
               names[i] in m && names[i] in k && m[names[i]] == k[names[i]] && m[names[i]].Num?
    ensures SumOfScores(m, names) == SumOfScores(k, names)
    decreases |names|
  {
    if names != [] {
      SameSum(m, k, names[..|names| - 1]);
    }
  }

  lemma {:induction false} TotalIsSum(m: map<string, Score>, names: seq<string>)
    requires Enumerates(m, names)
    ensures forall i :: 0 <= i < |names| ==> names[i] in m && m[names[i]].Num?
    ensures Total(m) == Num(SumOfScores(m, names)) && |m| == |names|
    decreases |names|
  {
    EnumeratedAreIn(m, names);
    if names != [] {
      var init, last := names[..|names| - 1], names[|names| - 1];
      var rest := m - {last};
      TotalIsSum(rest, init);
      TotalWithout(m, last);
      SameSum(m, rest, init);
      hide Total, Enumerates;
      assert m == rest[last := m[last]];
    }
  }

  function Times(x: real, n: nat): real {
    x * n as real
  }

  lemma DivisionInverts(x: real, n: nat)
    requires n > 0
    ensures Divided(Num(x), n).Num? && Times(Divided(Num(x), n).value, n) == x
  {
  }

  /** The scores the feeds give the address. */
  function ScoresOf(feeds: Feeds, ip: string): map<string, Score> {
    map name | name in feeds && ip in feeds[name].ipEntries :: feeds[name].ipEntries[ip]
  }

  lemma ContributionsListed(feeds: Feeds, ip: string, names: seq<string>)
    requires Lister(feeds, ip, names)
    ensures forall i :: 0 <= i < |names| ==>
              && names[i] in Contributions(feeds, ip) && names[i] in ScoresOf(feeds, ip)
              && Contributions(feeds, ip)[names[i]] == ScoresOf(feeds, ip)[names[i]] == feeds[names[i]].ipEntries[ip]
    ensures forall name :: name in Contributions(feeds, ip) ==> exists i :: 0 <= i < |names| && names[i] == name
    ensures Contributions(feeds, ip).Keys == set name | name in names
  {
    forall i | 0 <= i < |names|
      ensures names[i] in feeds && feeds[names[i]].enabled && ip in feeds[names[i]].ipEntries
    {
      assert names[i] in names;
    }
    forall name | name in Contributions(feeds, ip)
      ensures exists i :: 0 <= i < |names| && names[i] == name
    {
      assert name in names;
    }
  }

  lemma ContributionsEnumerated(feeds: Feeds, ip: string, names: seq<string>)
    requires Lister(feeds, ip, names) && forall i :: 0 <= i < |names| ==> feeds[names[i]].ipEntries[ip].Num?
    ensures forall i :: 0 <= i < |names| ==>
              names[i] in ScoresOf(feeds, ip) && ScoresOf(feeds, ip)[names[i]].Num?
              && names[i] in Contributions(feeds, ip) && Contributions(feeds, ip)[names[i]].Num?
    ensures SumOfScores(Contributions(feeds, ip), names) == SumOfScores(ScoresOf(feeds, ip), names)
    ensures Enumerates(Contributions(feeds, ip), names)
  {
    ContributionsListed(feeds, ip, names);
    hide Contributions, ScoresOf, SumOfScores, Enumerates;
    SameSum(Contributions(feeds, ip), ScoresOf(feeds, ip), names);
    EnumeratesIf(Contributions(feeds, ip), names);
  }

  lemma MeanOf(m: map<string, Score>, names: seq<string>)
    requires Enumerates(m, names)
    ensures |m| == |names|
    ensures forall i :: 0 <= i < |names| ==> names[i] in m && m[names[i]].Num?
    ensures names != [] ==>
              var mean := Divided(Total(m), |names|);
              mean.Num? && Times(mean.value, |names|) == SumOfScores(m, names)
  {
    TotalIsSum(m, names);
    hide Enumerates, Total, SumOfScores, Divided, Times;
    if names != [] {
      DivisionInverts(SumOfScores(m, names), |names|);
    }
  }

  /** An answer times the number of feeds that list the address is the sum of their scores, and its sources
      are their names; there is none if no feed does. */
  lemma AverageIsMean(feeds: Feeds, ip: string, names: seq<string>)
    requires Lister(feeds, ip, names)
    requires forall i :: 0 <= i < |names| ==> feeds[names[i]].ipEntries[ip].Num?
    ensures Average(feeds, ip).None? <==> names == []
    ensures names != [] ==>
              var answer := Average(feeds, ip).value;
              && answer.ipScore.Num?
              && Times(answer.ipScore.value, |names|) == SumOfScores(ScoresOf(feeds, ip), names)
              && answer.sources == set name | name in names
  {
    var m := Contributions(feeds, ip);
    ContributionsListed(feeds, ip, names);
    ContributionsEnumerated(feeds, ip, names);
    MeanOf(m, names);
    hide Contributions, ScoresOf, Total, Lister, Enumerates, SumOfScores, Divided, Times;
  }

  /** A single feed that lists the address answers with its own score. */
  lemma OneFeedAnswers(feeds: Feeds, ip: string, name: string)
    requires Lister(feeds, ip, [name])
    ensures Average(feeds, ip) == Some(ThreatScore(feeds[name].ipEntries[ip], {name}))
  {
    assert name in [name];
    var score := feeds[name].ipEntries[ip];
    var m := Contributions(feeds, ip);
    assert m == map[name := score];
    TotalWithout(m, name);
    assert m - {name} == map[];
    assert Total(m) == score;
    assert |m| == 1 && m.Keys == {name};
    hide Contributions, Total;
    assert Divided(score, 1) == score;
  }

  /** An update puts what was fetched into every enabled feed, and leaves the others alone. */
  lemma UpdateTakesFetched(feeds: Feeds, fetched: map<string, Fetched>, now: int, name: string)
    ensures var after := UpdatedFeeds(feeds, fetched, now);
            && (name in after <==> name in feeds)
            && (name in feeds ==>
                  after[name] == if feeds[name].enabled && name in fetched
                                 then Feed(feeds[name].url, true, now, fetched[name].ips, fetched[name].domains)
                                 else feeds[name])
  {
  }

  // ---- the entries of a feed ----

  /** A score is read as written between 0 and 1, cut off outside, and 0.8 where it cannot be read. */
  lemma ScoreAsWritten(p: Parsed)
    ensures match p
            case Finite(v) => Clamped(p) == Num(if v < 0.0 then 0.0 else if v > 1.0 then 1.0 else v)
            case PosInfinity => Clamped(p) == Num(1.0)
            case NegInfinity => Clamped(p) == Num(0.0)
            case Unreadable => Clamped(p) == Num(0.8)
            case NotANumber => Clamped(p) == NaN
  {
  }

  /** An address is listed exactly if some line is about it. */
  lemma {:induction false} ListedIff(lines: seq<(string, Parsed)>, ip: string)
    ensures ip in Entries(lines) <==> exists i :: 0 <= i < |lines| && lines[i].0 == ip
    decreases |lines|
  {
    hide Clamped;
    if lines != [] {
      var init := lines[..|lines| - 1];
      ListedIff(init, ip);
      if ip in Entries(init) {
        var i :| 0 <= i < |init| && init[i].0 == ip;
        assert lines[i].0 == ip;
      }
    }
  }

  /** And the last line about it counts. */
  lemma {:induction false} LastLineCounts(lines: seq<(string, Parsed)>, i: nat)
    requires i < |lines| && forall j :: i < j < |lines| ==> lines[j].0 != lines[i].0
    ensures lines[i].0 in Entries(lines) && Entries(lines)[lines[i].0] == Clamped(lines[i].1)
    decreases |lines|
  {
    hide Clamped;
    if i < |lines| - 1 {
      LastLineCounts(lines[..|lines| - 1], i);
    }
  }

  // ---- the range of the scores ----

  ghost predicate EntriesInUnitOrNaN(m: map<string, Score>) {
    forall ip :: ip in m ==> m[ip].NaN? || InUnit(m[ip])
  }

  /** Whatever a feed's text says, an entry is in [0, 1] or NaN, and NaN only where the text says so. */
  lemma {:induction false} ParsedEntries(lines: seq<(string, Parsed)>)
    ensures EntriesInUnitOrNaN(Entries(lines))
    ensures (forall i :: 0 <= i < |lines| ==> !lines[i].1.NotANumber?) ==>
              forall ip :: ip in Entries(lines) ==> InUnit(Entries(lines)[ip])
    decreases |lines|
  {
    if lines != [] {
      ParsedEntries(lines[..|lines| - 1]);
    }
  }

  /** Every update of a run brings entries as `Entries` produces them. */
  ghost predicate ParsedUpdates(ops: seq<Op>) {
    forall k, name :: 0 <= k < |ops| && ops[k].UpdateFeeds? && name in ops[k].fetched ==>
      EntriesInUnitOrNaN(ops[k].fetched[name].ips)
  }

  lemma EmptyInUnit()
    ensures EntriesInUnitOrNaN(map[])
  {
  }

  lemma {:induction false} FeedsInUnitOrNaN(ops: seq<Op>, n: nat)
    requires n <= |ops| && ParsedUpdates(ops)
    ensures forall name :: name in StateAt(ops, n).feeds ==> EntriesInUnitOrNaN(StateAt(ops, n).feeds[name].ipEntries)
  {
    hide Average, EntriesInUnitOrNaN;
    if n > 0 {
      FeedsInUnitOrNaN(ops, n - 1);
      EmptyInUnit();
    }
  }

  lemma {:induction false} TotalRange(m: map<string, Score>)
    requires EntriesInUnitOrNaN(m)
    ensures Total(m).NaN? <==> exists name :: name in m && m[name].NaN?
    ensures Total(m).Num? ==> 0.0 <= Total(m).value <= |m| as real
    decreases |m|
  {
    if m != map[] {
      var name :| name in m;
      TotalWithout(m, name);
      TotalRange(m - {name});
      assert |m| == |m - {name}| + 1;
      if Total(m).NaN? {
        if !m[name].NaN? {
          var other :| other in m - {name} && (m - {name})[other].NaN?;
          assert m[other].NaN?;
        }
      } else {
        forall other | other in m
          ensures !m[other].NaN?
        {
          assert other == name || (other in m - {name} && (m - {name})[other] == m[other]);
        }
      }
    }
  }

  lemma DivisionRange(total: real, n: nat)
    requires n > 0 && 0.0 <= total <= n as real
    ensures 0.0 <= total / n as real <= 1.0
  {
  }

  /** Some enabled feed lists the address with a NaN. */
  ghost predicate SomeNaN(feeds: Feeds, ip: string) {
    exists name :: name in Contributions(feeds, ip) && Contributions(feeds, ip)[name].NaN?
  }

  lemma AverageInUnitIff(feeds: Feeds, ip: string)
    requires forall name :: name in feeds ==> EntriesInUnitOrNaN(feeds[name].ipEntries)
    requires Average(feeds, ip).Some?
    ensures InUnit(Average(feeds, ip).value.ipScore) <==> !SomeNaN(feeds, ip)
  {
    var m := Contributions(feeds, ip);
    TotalRange(m);
    if Total(m).Num? {
      DivisionRange(Total(m).value, |m|);
    }
  }

  /** In every run of feed changes an answer lies in [0, 1] exactly when none of the entries it was
      averaged from is NaN. */
  lemma AnswerInUnitIff(ops: seq<Op>, n: nat, k: nat)
    requires k <= n < |ops| && ops[n].CheckIp? && AnswersFrom(ops, n, k) && AnswerAt(ops, n).Some?
    requires ParsedUpdates(ops)
    ensures InUnit(AnswerAt(ops, n).value.ipScore) <==> !SomeNaN(StateAt(ops, k).feeds, ops[n].ip)
  {
    FeedsInUnitOrNaN(ops, k);
    hide StateAt, Average, SomeNaN, EntriesInUnitOrNaN;
    AverageInUnitIff(StateAt(ops, k).feeds, ops[n].ip);
  }

  /** One NaN line in an enabled feed is enough to take its addresses' answers out of the unit interval. */
  lemma NaNLineEscapes(feeds: Feeds, name: string, lines: seq<(string, Parsed)>, ip: string)
    requires name in feeds && feeds[name].enabled && feeds[name].ipEntries == Entries(lines + [(ip, NotANumber)])
    requires forall other :: other in feeds ==> EntriesInUnitOrNaN(feeds[other].ipEntries)
    ensures Average(feeds, ip).Some? && !InUnit(Average(feeds, ip).value.ipScore)
  {
    assert (lines + [(ip, NotANumber)])[..|lines|] == lines;
    assert name in Contributions(feeds, ip) && Contributions(feeds, ip)[name] == NaN;
    AverageInUnitIff(feeds, ip);
  }
}
