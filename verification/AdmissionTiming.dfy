/**
 * How long a high caller waits for admission: every ticket is held by a request that settles within its own budget
 * (RequestTiming), so the line in front of a waiter moves at least once a budget.
 */
module AdmissionTiming {
  import opened Prelude
  import E = EndpointGate
  import P = PriorityAdmission
  import R = ProviderRequests
  import T = RequestTiming

  type Ticket = P.Ticket

  /** What the requests behind the gate run with: endpoint limits, request options, and how late timers fire. */
  datatype Setting = Setting(limits: E.Limits, options: R.Options, late: nat) {

    function Budget(): int {
      options.maxTotalMs + R.HARD_ABANDON_GRACE_MS + 2 * late
    }
  }

  /** A request begun at `since`, at whatever gate and with whatever happening to it meanwhile, is unsettled at `at`. */
  ghost predicate StillRuns(s: Setting, since: int, at: int) {
    exists g: R.Gate, rpcMethod: Option<R.Method>, moments: seq<R.Moment>, r: R.Request, last: int ::
      RunsUntil(s, g, rpcMethod, since, moments, r, last, at)
  }

  ghost predicate RunsUntil(
    s: Setting, g: R.Gate, rpcMethod: Option<R.Method>, since: int, moments: seq<R.Moment>, r: R.Request, last: int, at: int)
  {
    && T.TimedLife(s.limits, s.options, |g.health|, R.Begin(s.options, g, rpcMethod, since, false).request, since,
                   moments, r, last, s.late)
    && !r.phase.Settled() && T.AwaitPends(s.limits, r, last, at, s.late)
  }

  lemma RunsWithinBudget(s: Setting, since: int, at: int)
    requires s.options.maxTotalMs >= 0 && StillRuns(s, since, at)
    ensures at <= since + s.Budget()
  {
    var g: R.Gate, rpcMethod: Option<R.Method>, moments: seq<R.Moment>, r: R.Request, last: int
      :| RunsUntil(s, g, rpcMethod, since, moments, r, last, at);
    T.SettlesWithinItsBudget(s.limits, s.options, g, rpcMethod, since, moments, r, last, at, s.late);
  }

  // ---- runs in time ----------------------------------------------------------------------------------------------

  /** The admission gate with the time, and when each ticket inside was handed out. */
  datatype World = World(admission: P.World, since: map<Ticket, int>, now: int)

  datatype Step = AtGate(step: P.Step) | Tick(to: int)

  /** Time passes only as far as every request inside may still be running: one that has settled returns its ticket. */
  ghost predicate Enabled(s: Setting, w: World, step: Step) {
    match step
    case AtGate(step) => P.Enabled(w.admission, step)
    case Tick(to) =>
      to >= w.now && forall t | t in w.admission.inside && t in w.since :: StillRuns(s, w.since[t], to)
  }

  ghost function Next(max: int, w: World, step: Step): World {
    match step
    case AtGate(step) =>
      var after := P.Next(max, w.admission, step);
      World(after, map t | t in after.inside :: if t in w.admission.inside && t in w.since then w.since[t] else w.now, w.now)
    case Tick(to) => w.(now := to)
  }

  ghost predicate Reachable(s: Setting, max: int, w: World, steps: seq<Step>, end: World)
    decreases |steps|
  {
    if steps == [] then end == w
    else Enabled(s, w, steps[0]) && Reachable(s, max, Next(max, w, steps[0]), steps[1..], end)
  }

  /** Each ticket inside was handed out no more than a budget ago. */
  ghost predicate WithinBudgets(s: Setting, w: World) {
    w.since.Keys == w.admission.inside
    && forall t | t in w.since :: w.since[t] <= w.now <= w.since[t] + s.Budget()
  }

  ghost predicate Inv(s: Setting, max: int, w: World) {
    P.Inv(max, w.admission) && WithinBudgets(s, w)
  }

  lemma StepKeeps(s: Setting, max: int, w: World, step: Step)
    requires s.options.maxTotalMs >= 0 && Inv(s, max, w) && Enabled(s, w, step)
    ensures Inv(s, max, Next(max, w, step))
  {
    match step
    case AtGate(step) =>
      P.StepKeeps(max, w.admission, step);
    case Tick(to) =>
      forall t | t in w.since
        ensures w.since[t] <= to <= w.since[t] + s.Budget()
      {
        RunsWithinBudget(s, w.since[t], to);
      }
  }

  function Budgets(n: nat, budget: int): int {
    if n == 0 then 0 else Budgets(n - 1, budget) + budget
  }

  lemma {:induction false} BudgetsAreAProduct(n: nat, budget: int)
    ensures Budgets(n, budget) == n * budget
  {
    if n > 0 {
      BudgetsAreAProduct(n - 1, budget);
    }
  }

  lemma {:induction false} BudgetsGrow(n: nat, budget: nat)
    ensures Budgets(n, budget) >= 0
  {
    if n > 0 {
      BudgetsGrow(n - 1, budget);
    }
  }

  /** Callers that ever waited keep their places. */
  lemma LineStays(max: int, a: P.World, step: P.Step)
    requires P.Enabled(a, step)
    ensures a.waitedHigh <= P.Next(max, a, step).waitedHigh
    ensures a.gate.shutdown ==> P.Next(max, a, step).gate.shutdown
  {}

  /** Some ticket comes back in time to move the line on until the n-th high caller ever to wait is promoted by `due`. */
  ghost predicate ComesBy(s: Setting, w: World, n: nat, due: int) {
    n >= |w.admission.promotedHigh| ==>
      exists t :: t in w.since && w.since[t] + Budgets(n - |w.admission.promotedHigh| + 1, s.Budget()) <= due
  }

  /** When the ticket awaited comes back, the caller promoted by it holds the one awaited next. */
  lemma ReturnComesBy(s: Setting, max: int, w: World, u: Ticket, n: nat, due: int)
    requires Inv(s, max, w) && s.Budget() >= 0 && u in w.admission.inside && w.admission.gate.high != []
    requires n >= |w.admission.promotedHigh| && ComesBy(s, w, n, due)
    ensures ComesBy(s, Next(max, w, AtGate(P.Returned(u))), n, due)
  {
    var after := Next(max, w, AtGate(P.Returned(u)));
    var place := n - |w.admission.promotedHigh|;
    var t :| t in w.since && w.since[t] + Budgets(place + 1, s.Budget()) <= due;
    assert |after.admission.promotedHigh| == |w.admission.promotedHigh| + 1;
    if place > 0 {
      var next := w.admission.gate.high[0];
      assert next in after.since && after.since[next] == w.now;
      if t == u {
        assert w.now + Budgets(place, s.Budget()) <= due;
      } else {
        assert t in after.since && after.since[t] == w.since[t];
      }
    }
  }

  /** Only a return promotes or takes a ticket away. */
  lemma OthersKeepTickets(s: Setting, max: int, w: World, step: Step)
    requires WithinBudgets(s, w) && Enabled(s, w, step) && (step.AtGate? ==> !step.step.Returned?)
    ensures var after := Next(max, w, step);
      && after.admission.promotedHigh == w.admission.promotedHigh
      && forall t | t in w.since :: t in after.since && after.since[t] == w.since[t]
  {}

  lemma StepComesBy(s: Setting, max: int, w: World, step: Step, n: nat, due: int)
    requires Inv(s, max, w) && s.Budget() >= 0 && Enabled(s, w, step) && !w.admission.gate.shutdown
    requires n < |w.admission.waitedHigh| && ComesBy(s, w, n, due)
    ensures ComesBy(s, Next(max, w, step), n, due)
  {
    var after := Next(max, w, step);
    if step.AtGate? && step.step.Returned? {
      if n >= |w.admission.promotedHigh| {
        assert w.admission.gate.high != [];
        ReturnComesBy(s, max, w, step.step.t, n, due);
      } else {
        assert |after.admission.promotedHigh| >= |w.admission.promotedHigh|;
      }
    } else {
      OthersKeepTickets(s, max, w, step);
      SameTicketsComeBy(s, w, after, n, due);
    }
  }

  lemma SameTicketsComeBy(s: Setting, w: World, after: World, n: nat, due: int)
    requires ComesBy(s, w, n, due) && after.admission.promotedHigh == w.admission.promotedHigh
    requires forall t | t in w.since :: t in after.since && after.since[t] == w.since[t]
    ensures ComesBy(s, after, n, due)
  {
    if n >= |w.admission.promotedHigh| {
      var t :| t in w.since && w.since[t] + Budgets(n - |w.admission.promotedHigh| + 1, s.Budget()) <= due;
      assert t in after.since && after.since[t] == w.since[t];
    }
  }

  /** Whoever waited n-th is promoted n-th by then. */
  lemma {:induction false} PromotedOverRun(
    s: Setting, max: int, w: World, steps: seq<Step>, end: World, n: nat, due: int)
    requires s.options.maxTotalMs >= 0 && Inv(s, max, w) && Reachable(s, max, w, steps, end)
    requires !end.admission.gate.shutdown && n < |w.admission.waitedHigh| && ComesBy(s, w, n, due) && end.now > due
    ensures n < |end.admission.promotedHigh| && end.admission.promotedHigh[n] == w.admission.waitedHigh[n]
    decreases |steps|
  {
    if steps == [] {
      PromotedBy(s, max, w, n, due);
    } else {
      var after := Next(max, w, steps[0]);
      StepKeeps(s, max, w, steps[0]);
      StaysOpen(s, max, w, steps, end);
      StaysInLine(s, max, w, steps[0], n);
      StepComesBy(s, max, w, steps[0], n, due);
      PromotedOverRun(s, max, after, steps[1..], end, n, due);
    }
  }

  lemma StaysInLine(s: Setting, max: int, w: World, step: Step, n: nat)
    requires Enabled(s, w, step) && n < |w.admission.waitedHigh|
    ensures var after := Next(max, w, step).admission;
      n < |after.waitedHigh| && after.waitedHigh[n] == w.admission.waitedHigh[n]
  {
    if step.AtGate? {
      LineStays(max, w.admission, step.step);
    }
  }

  lemma {:induction false} StaysOpen(s: Setting, max: int, w: World, steps: seq<Step>, end: World)
    requires Reachable(s, max, w, steps, end) && !end.admission.gate.shutdown
    ensures !w.admission.gate.shutdown
    decreases |steps|
  {
    if steps != [] {
      StaysOpen(s, max, Next(max, w, steps[0]), steps[1..], end);
      if steps[0].AtGate? {
        LineStays(max, w.admission, steps[0].step);
      }
    }
  }

  /**
   * A high caller at place k is admitted within k + 1 request budgets, whatever else is offered meanwhile: once more
   * than that has passed without a shutdown, it has been promoted.
   */
  lemma HighWaiterIsAdmittedInTime(s: Setting, max: int, w: World, steps: seq<Step>, end: World, k: nat)
    requires max > 0 && s.options.maxTotalMs >= 0 && Inv(s, max, w) && Reachable(s, max, w, steps, end)
    requires k < |w.admission.gate.high| && !end.admission.gate.shutdown
    requires end.now > w.now + (k + 1) * s.Budget()
    ensures PromotedInTurn(w.admission, end.admission, k)
  {
    StaysOpen(s, max, w, steps, end);
    var n, due := WaiterComesBy(s, max, w, k);
    PromotedOverRun(s, max, w, steps, end, n, due);
    InTurn(w.admission, end.admission, k, n);
  }

  lemma InTurn(a: P.World, b: P.World, k: nat, n: nat)
    requires k < |a.gate.high| && n == |a.promotedHigh| + k < |a.waitedHigh| && n < |b.promotedHigh|
    requires a.waitedHigh[n] == a.gate.high[k] && b.promotedHigh[n] == a.waitedHigh[n]
    ensures PromotedInTurn(a, b, k)
  {}

  lemma WaiterComesBy(s: Setting, max: int, w: World, k: nat) returns (n: nat, due: int)
    requires max > 0 && Inv(s, max, w) && k < |w.admission.gate.high| && !w.admission.gate.shutdown
    ensures n == |w.admission.promotedHigh| + k && due == w.now + (k + 1) * s.Budget()
    ensures n < |w.admission.waitedHigh| && w.admission.waitedHigh[n] == w.admission.gate.high[k]
    ensures ComesBy(s, w, n, due)
  {
    n, due := |w.admission.promotedHigh| + k, w.now + (k + 1) * s.Budget();
    var t := SomeElement(w.admission.inside);
    BudgetsAreAProduct(k + 1, s.Budget());
    assert t in w.since && w.since[t] + Budgets(k + 1, s.Budget()) <= due;
  }

  /** The caller at place k was promoted k-th after the state it waited in. */
  ghost predicate PromotedInTurn(a: P.World, b: P.World, k: nat)
    requires k < |a.gate.high|
  {
    |a.promotedHigh| + k < |b.promotedHigh| && b.promotedHigh[|a.promotedHigh| + k] == a.gate.high[k]
  }

  /** Once time is past due, the caller has been promoted. */
  lemma PromotedBy(s: Setting, max: int, w: World, n: nat, due: int)
    requires s.Budget() >= 0 && Inv(s, max, w) && ComesBy(s, w, n, due) && w.now > due
    ensures n < |w.admission.promotedHigh| && (!w.admission.gate.shutdown && n < |w.admission.waitedHigh| ==>
      w.admission.promotedHigh[n] == w.admission.waitedHigh[n])
  {
    if n >= |w.admission.promotedHigh| {
      var place := n - |w.admission.promotedHigh|;
      var t :| t in w.since && w.since[t] + Budgets(place + 1, s.Budget()) <= due;
      BudgetsGrow(place, s.Budget());
    }
  }
}
