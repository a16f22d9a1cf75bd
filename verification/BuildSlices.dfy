/**
 The BUILD stage of run_ticket.py: the sub-tickets of a plan run one after the other, each on a harness
 chosen from a quota reading taken for that slice.
 */
module BuildSlices {
  import opened Prelude

  /** What a reading says of one harness. */
  datatype Headroom = Unknown | NotNumeric | Flag(value: bool) | Percent(percent: real)

  const QUOTA_FLOOR_MIN: real := 15.0

  /** A measured percent; a boolean is not one. */
  function NumericHeadroom(h: Headroom): Option<real> {
    if h.Percent? then Some(h.percent) else None
  }

  predicate QuotaAboveFloor(h: Headroom) {
    var number := NumericHeadroom(h);
    number.Some? && number.value > QUOTA_FLOOR_MIN
  }

  type Reading = map<string, Headroom>

  function HeadroomOf(quotas: Reading, harness: string): Headroom {
    if harness in quotas then quotas[harness] else Unknown
  }

  datatype Route = Route(harness: string, model: Option<string>)

  datatype AgentReport = AgentReport(stops: bool, duration: real, route: Option<Route>)

  /** The readings, the picks and the agents, one of each per slice, and what follows the last slice. */
  datatype World = World(
    quotas: nat -> Reading,
    pick: nat -> Option<Route>,
    agent: nat -> AgentReport,
    declaredModel: string -> Option<string>,
    quotasAfter: Reading,
    cancelledAfter: bool,
    changed: bool)

  datatype Choice = Choice(route: Route, pinned: bool)

  /** The route of one slice: the pin while this reading knows it above the floor, else the fresh pick. */
  function RouteAfterPlan(w: World, pin: string, i: nat): Option<Choice> {
    if pin != "" && QuotaAboveFloor(HeadroomOf(w.quotas(i), pin))
      then Some(Choice(Route(pin, w.declaredModel(pin)), true))
    else if w.pick(i).Some? then Some(Choice(w.pick(i).value, false))
    else None
  }

  /** One slice whose agent ran to the end. */
  datatype Slice = Slice(item: string, choice: Choice, before: Headroom, report: AgentReport)

  datatype Cost = Cost(harness: string, before: Headroom, after: Headroom, duration: real)

  datatype Artifact = Artifact(implementer: string, ids: seq<string>)

  datatype Outcome =
    | RouteWait(slice: nat)
    | EarlyExit(slice: nat)
    | Crashed                    // a plan without items leaves no report to read
    | CancelledAtEnd(cost: Cost)
    | NoChanges(cost: Cost)
    | Built(cost: Cost, artifact: Artifact)

  /** The slices that ran before index `n`, and what each of them rested on. */
  ghost predicate RanInOrder(w: World, pin: string, items: seq<string>, slices: seq<Slice>) {
    && |slices| <= |items|
    && forall i :: 0 <= i < |slices| ==> RanAt(w, pin, items, slices, i)
  }

  ghost predicate RanAt(w: World, pin: string, items: seq<string>, slices: seq<Slice>, i: int)
    requires 0 <= i < |slices| <= |items|
  {
    var slice := slices[i];
    && slice.item == items[i]
    && RouteAfterPlan(w, pin, i) == Some(slice.choice)
    && slice.before == HeadroomOf(w.quotas(i), slice.choice.route.harness)
    && slice.report == w.agent(i)
    && !slice.report.stops
  }

  function Started(slice: Slice): string {
    slice.choice.route.harness
  }

  /** From `k` on, every slice started on harness `h`, and the one before `k` did not. */
  ghost predicate Streak(slices: seq<Slice>, k: int, h: string) {
    && 0 <= k < |slices|
    && (forall j :: k <= j < |slices| ==> Started(slices[j]) == h)
    && (k > 0 ==> Started(slices[k - 1]) != h)
  }

  /** `k` starts the last unbroken run of slices on one harness. */
  ghost predicate StreakStart(slices: seq<Slice>, k: int) {
    0 <= k < |slices| && Streak(slices, k, Started(slices[|slices| - 1]))
  }

  lemma {:induction false} StreakStartIsUnique(slices: seq<Slice>, j: int, k: int)
    requires StreakStart(slices, j) && StreakStart(slices, k)
    ensures j == k
  {
  }

  function TotalDuration(slices: seq<Slice>): real {
    if slices == [] then 0.0 else TotalDuration(slices[..|slices| - 1]) + slices[|slices| - 1].report.duration
  }

  /** The harness that did the work of a slice: the one its report names, else the one it started on. */
  function WorkedOn(slice: Slice): string {
    if slice.report.route.Some? then slice.report.route.value.harness else Started(slice)
  }

  /** The cost recorded when every slice ran: from the last unbroken streak's start to a reading after the end. */
  ghost predicate CostIs(w: World, slices: seq<Slice>, cost: Cost) {
    && slices != []
    && cost.harness == WorkedOn(slices[|slices| - 1])
    && cost.after == HeadroomOf(w.quotasAfter, cost.harness)
    && cost.duration == TotalDuration(slices)
    && exists k :: StreakStart(slices, k) && cost.before == slices[k].before
  }

  /** Why the stage ended as it did. */
  ghost predicate Ends(w: World, pin: string, items: seq<string>, slices: seq<Slice>, outcome: Outcome) {
    match outcome
    case RouteWait(i) => i == |slices| < |items| && RouteAfterPlan(w, pin, i).None?
    case EarlyExit(i) => i == |slices| < |items| && RouteAfterPlan(w, pin, i).Some? && w.agent(i).stops
    case Crashed => items == []
    case CancelledAtEnd(cost) => |slices| == |items| && CostIs(w, slices, cost) && w.cancelledAfter
    case NoChanges(cost) => |slices| == |items| && CostIs(w, slices, cost) && !w.cancelledAfter && !w.changed
    case Built(cost, artifact) =>
      && |slices| == |items| && CostIs(w, slices, cost) && !w.cancelledAfter && w.changed
      && artifact.ids == items && artifact.implementer == WorkedOn(slices[|slices| - 1])
  }

  /** One more slice keeps the record. */
  lemma {:induction false} OneMoreSlice(w: World, pin: string, items: seq<string>, slices: seq<Slice>, choice: Choice)
    requires |slices| < |items| && RanInOrder(w, pin, items, slices)
    requires RouteAfterPlan(w, pin, |slices|) == Some(choice) && !w.agent(|slices|).stops
    ensures RanInOrder(w, pin, items, slices + [SliceOf(w, items, |slices|, choice)])
  {
    var n := |slices|;
    var r := slices + [SliceOf(w, items, n, choice)];
    forall i | 0 <= i <= n
      ensures RanAt(w, pin, items, r, i)
    {
      assert i < n ==> RanAt(w, pin, items, slices, i) && r[i] == slices[i];
    }
  }

  /** The reading kept for the cost is the one at the start of the last streak. */
  ghost predicate Tracks(slices: seq<Slice>, streak: int, costBefore: Headroom, costHarness: Option<string>) {
    if slices == [] then costHarness == None
    else
      && costHarness == Some(Started(slices[|slices| - 1]))
      && StreakStart(slices, streak) && costBefore == slices[streak].before
  }

  /** One more slice starts a new streak exactly when its harness is another. */
  lemma {:induction false} StreakGoesOn(slices: seq<Slice>, slice: Slice, streak: int, costBefore: Headroom,
      costHarness: Option<string>)
    requires Tracks(slices, streak, costBefore, costHarness)
    ensures var changed := costHarness != Some(Started(slice));
            Tracks(slices + [slice], if changed then |slices| else streak, if changed then slice.before
              else costBefore, Some(Started(slice)))
  {
  }

  lemma {:induction false} DurationGoesOn(slices: seq<Slice>, slice: Slice)
    ensures TotalDuration(slices + [slice]) == TotalDuration(slices) + slice.report.duration
  {
  }

  function SliceOf(w: World, items: seq<string>, i: nat, choice: Choice): Slice
    requires i < |items|
  {
    Slice(items[i], choice, HeadroomOf(w.quotas(i), choice.route.harness), w.agent(i))
  }

  /** What the loop knows before a slice, besides the slices: the streak, the cost so far, the last harnesses. */
  ghost predicate Knows(slices: seq<Slice>, streak: int, costBefore: Headroom, costHarness: Option<string>,
      duration: real, implementer: string, selected: string)
  {
    && Tracks(slices, streak, costBefore, costHarness) && duration == TotalDuration(slices)
    && (slices != [] ==>
          implementer == WorkedOn(slices[|slices| - 1]) && selected == Started(slices[|slices| - 1]))
  }

  /** And what it knows after one more slice. */
  lemma {:induction false} KnowsAfter(slices: seq<Slice>, slice: Slice, streak: int, costBefore: Headroom,
      costHarness: Option<string>, duration: real, implementer: string, selected: string)
    requires Knows(slices, streak, costBefore, costHarness, duration, implementer, selected)
    ensures var changed := costHarness != Some(Started(slice));
            Knows(slices + [slice], if changed then |slices| else streak, if changed then slice.before else costBefore,
                  Some(Started(slice)), duration + slice.report.duration, WorkedOn(slice), Started(slice))
  {
    StreakGoesOn(slices, slice, streak, costBefore, costHarness);
    DurationGoesOn(slices, slice);
  }

  /** After the last slice: a late cancellation, a run that changed nothing, or the artifact. */
  function Conclude(w: World, cost: Cost, artifact: Artifact): Outcome {
    if w.cancelledAfter then CancelledAtEnd(cost)
    else if !w.changed then NoChanges(cost)
    else Built(cost, artifact)
  }

  /** What the stage concludes from what the loop knew at its end. */
  lemma {:induction false} ConcludesRightly(w: World, pin: string, items: seq<string>, slices: seq<Slice>, streak: int,
      costBefore: Headroom, costHarness: Option<string>, duration: real, implementer: string, selected: string)
    requires |slices| == |items| && items != [] && RanInOrder(w, pin, items, slices)
    requires Knows(slices, streak, costBefore, costHarness, duration, implementer, selected)
    ensures var last := w.agent(|items| - 1);
            var harness := if last.route.Some? then last.route.value.harness else selected;
            var cost := Cost(harness, costBefore, HeadroomOf(w.quotasAfter, harness), duration);
            Ends(w, pin, items, slices, Conclude(w, cost, Artifact(implementer, items)))
  {
    assert RanAt(w, pin, items, slices, |items| - 1);
  }

  /**
   The stage. An artifact is written only when every slice ran; its ids are the plan's, in the plan's order.
   */
  method StageBuild(w: World, pin: string, preflight: string, items: seq<string>)
    returns (outcome: Outcome, slices: seq<Slice>)
    ensures RanInOrder(w, pin, items, slices)
    ensures Ends(w, pin, items, slices, outcome)
  {
    slices := [];
    var ticketsDone: seq<string> := [];
    var totalDuration := 0.0;
    var implementer, selected := preflight, preflight;
    var costBefore, costHarness := Unknown, None;
    ghost var streak := 0;
    for index := 0 to |items|
      invariant |slices| == index && RanInOrder(w, pin, items, slices)
      invariant ticketsDone == items[..index]
      invariant Knows(slices, streak, costBefore, costHarness, totalDuration, implementer, selected)
    {
      var quotas := w.quotas(index);
      var decided := RouteAfterPlan(w, pin, index);
      if decided.None? {
        return RouteWait(index), slices;
      }
      KnowsAfter(slices, SliceOf(w, items, index, decided.value), streak, costBefore, costHarness, totalDuration,
                 implementer, selected);
      selected := decided.value.route.harness;
      var before := HeadroomOf(quotas, selected);
      if costHarness != Some(selected) {
        costBefore, costHarness := before, Some(selected);
        streak := index;
      }
      var report := w.agent(index);
      if report.stops {
        return EarlyExit(index), slices;
      }
      totalDuration := totalDuration + report.duration;
      ticketsDone := ticketsDone + [items[index]];
      implementer := selected;
      if report.route.Some? {
        implementer := report.route.value.harness;
      }
      OneMoreSlice(w, pin, items, slices, decided.value);
      slices := slices + [Slice(items[index], decided.value, before, report)];
    }
    if items == [] {
      return Crashed, slices;
    }
    ConcludesRightly(w, pin, items, slices, streak, costBefore, costHarness, totalDuration, implementer, selected);
    var last := w.agent(|items| - 1);
    if last.route.Some? {
      selected := last.route.value.harness;
    }
    var cost := Cost(selected, costBefore, HeadroomOf(w.quotasAfter, selected), totalDuration);
    outcome := Conclude(w, cost, Artifact(implementer, ticketsDone));
  }

  /** A slice starts on the pin only with that slice's own reading of it strictly above the floor. */
  lemma {:induction false} StartIsFresh(w: World, pin: string, items: seq<string>, slices: seq<Slice>, i: nat)
    requires RanInOrder(w, pin, items, slices) && i < |slices|
    ensures var choice := slices[i].choice;
            if choice.pinned
            then pin != "" && choice.route.harness == pin && slices[i].before.Percent?
              && slices[i].before.percent > QUOTA_FLOOR_MIN
            else Some(choice.route) == w.pick(i)
    ensures slices[i].choice.pinned <==>
      pin != "" && HeadroomOf(w.quotas(i), pin).Percent? && HeadroomOf(w.quotas(i), pin).percent > QUOTA_FLOOR_MIN
  {
    assert RanAt(w, pin, items, slices, i);
  }

  /**
   The recorded cost compares two readings of one harness exactly when the last agent worked on the
   harness it started on; otherwise `before` is a reading of another one.
   */
  lemma {:induction false} CostComparesOneHarness(w: World, pin: string, items: seq<string>, slices: seq<Slice>,
      cost: Cost)
    requires RanInOrder(w, pin, items, slices) && CostIs(w, slices, cost)
    ensures exists k ::
      && StreakStart(slices, k)
      && cost.before == HeadroomOf(w.quotas(k), Started(slices[k]))
      && (Started(slices[k]) == cost.harness <==> WorkedOn(slices[|slices| - 1]) == Started(slices[|slices| - 1]))
  {
    var k :| StreakStart(slices, k) && cost.before == slices[k].before;
    assert RanAt(w, pin, items, slices, k);
  }
}
