/** The telemetry tracker of core/acceptance/observability.py: cached metrics beside an append-only ledger. */
module Observability {
  import opened Prelude

  // ---- rounding

  /** The nearest integer; the even one of two that are equally near. */
  function RoundHalfEven(x: real): int {
    var low := x.Floor;
    var rest := x - low as real;
    if rest < 0.5 then low else if rest > 0.5 then low + 1 else if low % 2 == 0 then low else low + 1
  }

  function Round2(x: real): (r: real)
    ensures -0.005 <= r - x <= 0.005
  {
    var n := RoundHalfEven(x * 100.0);
    assert -0.5 <= n as real - x * 100.0 <= 0.5;
    n as real / 100.0
  }

  function Round4(x: real): (r: real)
    ensures -0.00005 <= r - x <= 0.00005
  {
    var n := RoundHalfEven(x * 10000.0);
    assert -0.5 <= n as real - x * 10000.0 <= 0.5;
    n as real / 10000.0
  }

  /** Values within half a hundredth are at most one hundredth apart once rounded. */
  lemma {:induction false} RoundedAreNear(x: real, y: real)
    requires -0.005 <= x - y <= 0.005
    ensures -0.01 <= Round2(x) - Round2(y) <= 0.01
  {
    var n, m := RoundHalfEven(x * 100.0), RoundHalfEven(y * 100.0);
    assert Round2(x) == n as real / 100.0 && Round2(y) == m as real / 100.0;
    assert -1.5 <= (n - m) as real <= 1.5;
    assert -1 <= n - m <= 1;
  }

  /** Truncation toward zero. */
  function Truncate(x: real): int {
    if x >= 0.0 then x.Floor else -((-x).Floor)
  }

  // ---- events

  datatype EventType =
    | DispatchCompleted | ReconciliationCompleted | RollbackCompleted | SlotsAllocated | BudgetConsumed
    | ScenarioPassed | ScenarioFailed | ScenarioRolledBack | OtherType(name: string)

  datatype Status = Passed | Failed | RolledBack

  /** A number of the details: not there, there but not a number, or its value. */
  datatype Detail = Absent | NotANumber | Value(value: real)

  datatype Details = Details(rtoSeconds: Detail, activeSlots: Detail, costUsd: Detail)

  datatype Event = Event(scenario: string, kind: EventType, durationMs: real, details: Details)

  datatype Line = Parsed(event: Event) | Garbage

  /** What the tracker keeps in memory. */
  datatype Cache = Cache(
    statuses: map<string, Status>, dispatch: seq<real>, reconciliation: seq<real>, rto: seq<real>, maxSlots: int,
      budget: real)

  const EMPTY: Cache := Cache(map[], [], [], [], 0, 0.0)

  /** The number an event of its kind needs cannot be read. */
  predicate Unreadable(e: Event) {
    match e.kind
    case RollbackCompleted => e.details.rtoSeconds.NotANumber?
    case SlotsAllocated => e.details.activeSlots.NotANumber?
    case BudgetConsumed => e.details.costUsd.NotANumber?
    case _ => false
  }

  /** The event itself is refused: an empty name, or a duration that rounds below zero. */
  predicate Invalid(e: Event) {
    e.scenario == "" || e.kind == OtherType("") || Round2(e.durationMs) < 0.0
  }

  predicate Rejected(e: Event) {
    Invalid(e) || Unreadable(e)
  }

  function StatusOf(kind: EventType): Option<Status> {
    match kind
    case ScenarioPassed => Some(Passed)
    case ScenarioFailed => Some(Failed)
    case ScenarioRolledBack => Some(RolledBack)
    case _ => None
  }

  /** What one event adds to the cache. */
  function Apply(c: Cache, e: Event): Cache {
    match e.kind
    case DispatchCompleted => c.(dispatch := c.dispatch + [e.durationMs])
    case ReconciliationCompleted => c.(reconciliation := c.reconciliation + [e.durationMs])
    case RollbackCompleted => if e.details.rtoSeconds.Value? then c.(rto := c.rto + [e.details.rtoSeconds.value]) else c
    case SlotsAllocated =>
      if e.details.activeSlots.Value? && Truncate(e.details.activeSlots.value) > c.maxSlots
      then c.(maxSlots := Truncate(e.details.activeSlots.value)) else c
    case BudgetConsumed => if e.details.costUsd.Value? then c.(budget := c.budget + e.details.costUsd.value) else c
    case OtherType(_) => c
    case _ => c.(statuses := c.statuses[e.scenario := StatusOf(e.kind).value])
  }

  /** The cache that a replay of the ledger gives. */
  function Replay(lines: seq<Line>): Cache {
    if lines == [] then EMPTY
    else
      var before := Replay(lines[..|lines| - 1]);
      if lines[|lines| - 1].Parsed? then Apply(before, lines[|lines| - 1].event) else before
  }

  /** Equal samples up to the rounding of the ledger. */
  ghost predicate Near(xs: seq<real>, ys: seq<real>) {
    |xs| == |ys| && forall i :: 0 <= i < |xs| ==> -0.005 <= xs[i] - ys[i] <= 0.005
  }

  /** A cache and a replay agree: the same but for the rounding of the latencies. */
  ghost predicate Agree(c: Cache, r: Cache) {
    && c.statuses == r.statuses && c.rto == r.rto && c.maxSlots == r.maxSlots && c.budget == r.budget
    && Near(c.dispatch, r.dispatch) && Near(c.reconciliation, r.reconciliation)
  }

  lemma {:induction false} ApplyKeepsAgreement(c: Cache, r: Cache, e: Event, rounded: real)
    requires Agree(c, r) && -0.005 <= e.durationMs - rounded <= 0.005
    ensures Agree(Apply(c, e), Apply(r, e.(durationMs := rounded)))
  {
  }

  /**
   The event leaves no mark: it is of no counted kind, its number is absent, its slots are no new maximum, it
   costs nothing, or its scenario has that status already.
   */
  predicate AddsNothing(c: Cache, e: Event) {
    match e.kind
    case DispatchCompleted => false
    case ReconciliationCompleted => false
    case RollbackCompleted => !e.details.rtoSeconds.Value?
    case SlotsAllocated => e.details.activeSlots.Value? ==> Truncate(e.details.activeSlots.value) <= c.maxSlots
    case BudgetConsumed => e.details.costUsd.Value? ==> e.details.costUsd.value == 0.0
    case OtherType(_) => true
    case _ => e.scenario in c.statuses && Some(c.statuses[e.scenario]) == StatusOf(e.kind)
  }

  /**
   After a write that failed, the cache still agrees with the ledger exactly when the event leaves no mark:
   an event outside the ledger is otherwise counted for good.
   */
  lemma {:induction false} FailedWriteAgreesExactly(c: Cache, r: Cache, e: Event)
    requires Agree(c, r)
    ensures Agree(Apply(c, e), r) <==> AddsNothing(c, e)
  {
  }

  // ---- a whole run, as the calls that were made of it

  /** The cache after these calls, each with an unrounded duration. */
  function CacheAfter(calls: seq<Event>): Cache {
    if calls == [] then EMPTY
    else
      var before := CacheAfter(calls[..|calls| - 1]);
      if Rejected(calls[|calls| - 1]) then before else Apply(before, calls[|calls| - 1])
  }

  /** The lines these calls append when every append succeeds. */
  function LinesOf(calls: seq<Event>): seq<Line> {
    if calls == [] then []
    else
      var e := calls[|calls| - 1];
      LinesOf(calls[..|calls| - 1]) + if Rejected(e) then [] else [Parsed(e.(durationMs := Round2(e.durationMs)))]
  }

  /** For every run whose appends succeed, the cache agrees with a replay of the lines it appended. */
  lemma {:induction false} RunAgreesWithLedger(calls: seq<Event>)
    ensures Agree(CacheAfter(calls), Replay(LinesOf(calls)))
  {
    if calls != [] {
      var n := |calls| - 1;
      RunAgreesWithLedger(calls[..n]);
      if !Rejected(calls[n]) {
        var lines := LinesOf(calls);
        assert lines[..|lines| - 1] == LinesOf(calls[..n]);
        ApplyKeepsAgreement(CacheAfter(calls[..n]), Replay(LinesOf(calls[..n])), calls[n], Round2(calls[n].durationMs));
      } else {
        assert LinesOf(calls) == LinesOf(calls[..n]);
      }
    }
  }

  class Tracker {
    var cache: Cache
    var ledger: seq<Line>
    const earlier: nat      // the lines of earlier runs

    constructor (ledger: seq<Line>)
      ensures this.ledger == ledger && earlier == |ledger| && cache == EMPTY && Consistent()
    {
      this.ledger, earlier, cache := ledger, |ledger|, EMPTY;
      new;
      assert ledger[|ledger|..] == [];
    }

    /** The cache agrees with a replay of what this tracker appended. */
    ghost predicate Consistent()
      reads this
    {
      earlier <= |ledger| && Agree(cache, Replay(ledger[earlier..]))
    }

    /**
     Records one event; `writable`: whether the ledger can be appended to. An event with a negative duration
     or an unreadable number changes nothing; one that cannot be written has changed the cache already.
     */
    method RecordEvent(scenario: string, kind: EventType, durationMs: real, details: Details, writable: bool)
        returns (ok: bool)
      modifies this
      ensures var e := Event(scenario, kind, durationMs, details);
              if Rejected(e) then !ok && ledger == old(ledger) && cache == old(cache)
              else && ok == writable && cache == Apply(old(cache), e)
                   && ledger == old(ledger) + if ok then [Parsed(e.(durationMs := Round2(durationMs)))] else []
      ensures var e := Event(scenario, kind, durationMs, details);
              old(Consistent()) ==> (Consistent() <==> ok || Rejected(e) || AddsNothing(old(cache), e))
    {
      var rounded := Round2(durationMs);
      if scenario == "" || kind == OtherType("") || rounded < 0.0 {
        return false;
      }
      var recorded := Event(scenario, kind, rounded, details);
      match kind {
        case DispatchCompleted =>
          cache := cache.(dispatch := cache.dispatch + [durationMs]);
        case ReconciliationCompleted =>
          cache := cache.(reconciliation := cache.reconciliation + [durationMs]);
        case RollbackCompleted =>
          if details.rtoSeconds.NotANumber? {
            return false;
          }
          if details.rtoSeconds.Value? {
            cache := cache.(rto := cache.rto + [details.rtoSeconds.value]);
          }
        case SlotsAllocated =>
          if details.activeSlots.NotANumber? {
            return false;
          }
          if details.activeSlots.Value? {
            var slots := Truncate(details.activeSlots.value);
            cache := cache.(maxSlots := if slots > cache.maxSlots then slots else cache.maxSlots);
          }
        case BudgetConsumed =>
          if details.costUsd.NotANumber? {
            return false;
          }
          if details.costUsd.Value? {
            cache := cache.(budget := cache.budget + details.costUsd.value);
          }
        case _ =>
      }
      var status := StatusOf(kind);
      if status.Some? {
        cache := cache.(statuses := cache.statuses[scenario := status.value]);
      }
      if !writable {
        if old(Consistent()) {
          FailedWriteAgreesExactly(old(cache), Replay(ledger[earlier..]), Event(scenario, kind, durationMs, details));
        }
        return false;
      }
      if old(Consistent()) {
        Appended(ledger, earlier, recorded);
        ApplyKeepsAgreement(old(cache), Replay(ledger[earlier..]), Event(scenario, kind, durationMs, details), rounded);
      }
      ledger := ledger + [Parsed(recorded)];
      return true;
    }

    /** The aggregates of the cache. */
    method GetMetricsSummary() returns (summary: Summary)
      ensures summary == Summarize(cache)
    {
      var passed := CountOf(cache.statuses, Passed);
      var failed := CountOf(cache.statuses, Failed);
      var rolledBack := CountOf(cache.statuses, RolledBack);
      var dispatch := SumAll(cache.dispatch);
      var reconciliation := SumAll(cache.reconciliation);
      var rto := SumAll(cache.rto);
      var avgDispatch := if cache.dispatch != [] then dispatch / |cache.dispatch| as real else 0.0;
      var avgReconciliation := if cache.reconciliation != [] then reconciliation / |cache.reconciliation| as real
        else 0.0;
      var avgRto := if cache.rto != [] then rto / |cache.rto| as real else 0.0;
      var met := avgDispatch <= SLA_DISPATCH_MS && avgReconciliation <= SLA_RECONCILIATION_MS && failed == 0;
      return Summary(passed, failed, rolledBack, Round2(avgDispatch), Round2(avgReconciliation), Round4(avgRto),
                     cache.maxSlots, Round4(cache.budget), met);
    }

    /** The newest events first, of one scenario or of all; without a positive limit, the newest event if it matches. */
    method GetRecentEvents(limit: int, scenario: Option<string>) returns (events: seq<Event>)
      ensures limit >= 1 ==> events == FirstOf(RecentMatches(ledger, scenario), limit)
      ensures limit <= 0 ==> events == OnlyIfFirst(NewestFirst(ledger), scenario)
    {
      events := [];
      var i := |ledger|;
      assert ledger[..i] == ledger;
      while i > 0
        invariant 0 <= i <= |ledger|
        invariant Scan(ledger[..i], limit, scenario, events) == Scan(ledger, limit, scenario, [])
      {
        assert ledger[..i][..i - 1] == ledger[..i - 1];
        i := i - 1;
        if ledger[i].Parsed? {
          var event := ledger[i].event;
          if Matches(event, scenario) {
            events := events + [event];
          }
          if |events| >= limit {
            break;
          }
        }
      }
      ScanWithLimit(ledger, limit, scenario, []);
      ScanWithoutLimit(ledger, limit, scenario);
    }
  }

  /** One event that cannot be written, and the cache no longer agrees with the ledger. */
  method FailedWriteExample() returns (tracker: Tracker)
    ensures !tracker.Consistent() && tracker.ledger == [] && tracker.cache.dispatch == [12.0]
  {
    tracker := new Tracker([]);
    var _ := tracker.RecordEvent("s", DispatchCompleted, 12.0, Details(Absent, Absent, Absent), false);
  }

  const SLA_DISPATCH_MS: real := 30000.0
  const SLA_RECONCILIATION_MS: real := 60000.0

  datatype Summary = Summary(
    passed: nat, failed: nat, rolledBack: nat, avgDispatch: real, avgReconciliation: real, avgRto: real,
    maxSlots: int, budget: real, slasMet: bool)

  function CountOf(statuses: map<string, Status>, s: Status): nat {
    |set k | k in statuses && statuses[k] == s|
  }

  function Sum(xs: seq<real>): real {
    if xs == [] then 0.0 else Sum(xs[..|xs| - 1]) + xs[|xs| - 1]
  }

  function Average(xs: seq<real>): real {
    if xs == [] then 0.0 else Sum(xs) / |xs| as real
  }

  method SumAll(xs: seq<real>) returns (total: real)
    ensures total == Sum(xs)
  {
    total := 0.0;
    for i := 0 to |xs|
      invariant total == Sum(xs[..i])
    {
      assert xs[..i + 1][..i] == xs[..i];
      total := total + xs[i];
    }
    assert xs[..|xs|] == xs;
  }

  /** What a summary says of a cache, in terms of its averages. */
  function Summarize(c: Cache): Summary {
    Summary(
      CountOf(c.statuses, Passed), CountOf(c.statuses, Failed), CountOf(c.statuses, RolledBack),
      Round2(Average(c.dispatch)), Round2(Average(c.reconciliation)), Round4(Average(c.rto)), c.maxSlots,
      Round4(c.budget),
      Average(c.dispatch) <= SLA_DISPATCH_MS && Average(c.reconciliation) <= SLA_RECONCILIATION_MS
        && CountOf(c.statuses, Failed) == 0)
  }

  lemma {:induction false} SumsAreNear(xs: seq<real>, ys: seq<real>)
    requires Near(xs, ys)
    ensures -0.005 * |xs| as real <= Sum(xs) - Sum(ys) <= 0.005 * |xs| as real
  {
    if xs != [] {
      var n := |xs| - 1;
      assert forall i :: 0 <= i < n ==> xs[..n][i] == xs[i] && ys[..n][i] == ys[i];
      SumsAreNear(xs[..n], ys[..n]);
      assert -0.005 <= xs[n] - ys[n] <= 0.005;
    }
  }

  lemma {:induction false} AveragesAreNear(xs: seq<real>, ys: seq<real>)
    requires Near(xs, ys)
    ensures -0.005 <= Average(xs) - Average(ys) <= 0.005
  {
    if xs != [] {
      SumsAreNear(xs, ys);
      var n := |xs| as real;
      assert Average(xs) - Average(ys) == (Sum(xs) - Sum(ys)) / n;
      DivideBound(Sum(xs) - Sum(ys), n);
    }
  }

  lemma {:induction false} DivideBound(d: real, n: real)
    requires n > 0.0 && -0.005 * n <= d <= 0.005 * n
    ensures -0.005 <= d / n <= 0.005
  {
  }

  predicate Clear(average: real, limit: real) {
    average + 0.005 <= limit || average - 0.005 > limit
  }

  /** No average is within the rounding of its limit. */
  predicate ClearVerdict(c: Cache) {
    Clear(Average(c.dispatch), SLA_DISPATCH_MS) && Clear(Average(c.reconciliation), SLA_RECONCILIATION_MS)
  }

  /**
   A summary from the cache and one from a replay of the ledger: the same counts, recovery times, slots and
   budget; averages at most a hundredth apart; and the same verdict unless an average is within the rounding
   of its limit.
   */
  lemma {:induction false} SummaryAgreesWithLedger(c: Cache, r: Cache)
    requires Agree(c, r)
    ensures var (s, t) := (Summarize(c), Summarize(r));
            && s == t.(avgDispatch := s.avgDispatch, avgReconciliation := s.avgReconciliation, slasMet := s.slasMet)
            && -0.01 <= s.avgDispatch - t.avgDispatch <= 0.01
            && -0.01 <= s.avgReconciliation - t.avgReconciliation <= 0.01
            && (ClearVerdict(r) ==> s.slasMet == t.slasMet)
  {
    AveragesAreNear(c.dispatch, r.dispatch);
    AveragesAreNear(c.reconciliation, r.reconciliation);
    RoundedAreNear(Average(c.dispatch), Average(r.dispatch));
    RoundedAreNear(Average(c.reconciliation), Average(r.reconciliation));
  }

  predicate Matches(e: Event, scenario: Option<string>) {
    scenario.None? || e.scenario == scenario.value
  }

  function Matching(scenario: Option<string>): Event -> bool {
    (e: Event) => Matches(e, scenario)
  }

  /** The events of the readable lines, the last line's first. */
  function NewestFirst(lines: seq<Line>): seq<Event> {
    if lines == [] then []
    else (if lines[|lines| - 1].Parsed? then [lines[|lines| - 1].event] else []) + NewestFirst(lines[..|lines| - 1])
  }

  /** Those of one scenario. */
  function RecentMatches(lines: seq<Line>, scenario: Option<string>): seq<Event> {
    if lines == [] then []
    else
      var last := lines[|lines| - 1];
      (if last.Parsed? && Matches(last.event, scenario) then [last.event] else [])
        + RecentMatches(lines[..|lines| - 1], scenario)
  }

  /** They are the newest-first list of the ledger with the other scenarios left out. */
  lemma {:induction false} RecentMatchesFilters(lines: seq<Line>, scenario: Option<string>)
    ensures RecentMatches(lines, scenario) == Filter(Matching(scenario), NewestFirst(lines))
  {
    if lines != [] {
      var n := |lines| - 1;
      RecentMatchesFilters(lines[..n], scenario);
      if lines[n].Parsed? {
        FilterConcat(Matching(scenario), [lines[n].event], NewestFirst(lines[..n]));
      } else {
        assert NewestFirst(lines) == NewestFirst(lines[..n]);
      }
    }
  }

  function OnlyIfFirst(events: seq<Event>, scenario: Option<string>): seq<Event> {
    if events != [] && Matches(events[0], scenario) then [events[0]] else []
  }

  /** Reading upward from the last line, with what was found so far, until the limit is reached. */
  function Scan(lines: seq<Line>, limit: int, scenario: Option<string>, events: seq<Event>): seq<Event> {
    if lines == [] then events
    else
      var last, above := lines[|lines| - 1], lines[..|lines| - 1];
      if last.Garbage? then Scan(above, limit, scenario, events)
      else
        var more := if Matches(last.event, scenario) then events + [last.event] else events;
        if |more| >= limit then more else Scan(above, limit, scenario, more)
  }

  lemma {:induction false} ScanWithLimit(lines: seq<Line>, limit: int, scenario: Option<string>, events: seq<Event>)
    ensures |events| < limit ==>
      Scan(lines, limit, scenario, events) == FirstOf(events + RecentMatches(lines, scenario), limit)
  {
    if lines != [] && |events| < limit {
      var last, above := lines[|lines| - 1], lines[..|lines| - 1];
      if last.Parsed? && Matches(last.event, scenario) {
        ScanWithLimit(above, limit, scenario, events + [last.event]);
        assert events + RecentMatches(lines, scenario) == events + [last.event] + RecentMatches(above, scenario);
      } else {
        ScanWithLimit(above, limit, scenario, events);
        assert RecentMatches(lines, scenario) == RecentMatches(above, scenario);
      }
    }
  }

  lemma {:induction false} ScanWithoutLimit(lines: seq<Line>, limit: int, scenario: Option<string>)
    ensures limit <= 0 ==> Scan(lines, limit, scenario, []) == OnlyIfFirst(NewestFirst(lines), scenario)
  {
    if lines != [] && limit <= 0 {
      ScanWithoutLimit(lines[..|lines| - 1], limit, scenario);
      if lines[|lines| - 1].Garbage? {
        assert NewestFirst(lines) == NewestFirst(lines[..|lines| - 1]);
      }
    }
  }

  function FirstOf<T>(s: seq<T>, n: nat): seq<T> {
    if n <= |s| then s[..n] else s
  }

  lemma {:induction false} Appended(ledger: seq<Line>, earlier: nat, e: Event)
    requires earlier <= |ledger|
    ensures Replay((ledger + [Parsed(e)])[earlier..]) == Apply(Replay(ledger[earlier..]), e)
  {
    var lines := (ledger + [Parsed(e)])[earlier..];
    assert lines == ledger[earlier..] + [Parsed(e)];
    assert lines[..|lines| - 1] == ledger[earlier..];
  }
}
