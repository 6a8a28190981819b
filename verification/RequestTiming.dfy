/**
 * Time across the two halves of the request gate: an acquire that queues, sleeps and settles at an endpoint
 * (EndpointGate) is one await of the logical request that makes it (ProviderRequests). Timers may fire late, by at most
 * a given time; what a request does then still ends by its deadline, up to that lateness.
 */
module RequestTiming {
  import opened Prelude
  import E = EndpointGate
  import opened R = ProviderRequests

  // ---- one acquire at an endpoint --------------------------------------------------------------------------------

  /** The caller's acquire has not settled: it is in line, was woken but has not resumed, or sleeps toward its slot. */
  ghost predicate Pending(w: E.World, t: E.Ticket) {
    t in E.Waiting(w) || t in w.woken || t in w.sleeping
  }

  /** Time passes only up to the moment a timer is due, or a little later; so a waiter has left by its deadline. */
  ghost predicate TimersFire(w: E.World, step: E.Step, late: real) {
    step.Tick? ==>
      && (forall t | t in E.Waiting(w) || t in w.woken :: step.to <= t.deadline + late)
      && (forall t | t in w.sleeping :: step.to <= w.sleeping[t] + late)
  }

  /** A run of the endpoint through which the caller stays pending. */
  ghost predicate StaysPending(
    o: E.Limits, w: E.World, t: E.Ticket, steps: seq<E.Step>, end: E.World, late: real)
    decreases |steps|
  {
    if steps == [] then end == w
    else
      && Pending(w, t) && E.Enabled(w, steps[0]) && TimersFire(w, steps[0], late)
      && StaysPending(o, E.Next(o, w, steps[0]), t, steps[1..], end, late)
  }

  /** The caller arrives, and the endpoint runs on until its acquire settles or, so far, has not. */
  ghost predicate Acquires(o: E.Limits, w: E.World, t: E.Ticket, steps: seq<E.Step>, end: E.World, late: real) {
    E.Inv(o, w) && E.Enabled(w, E.Arrive(t)) && StaysPending(o, E.Next(o, w, E.Arrive(t)), t, steps, end, late)
  }

  /** Nobody waits past the deadline or sleeps past the slot, which lies before it, but for the lateness of timers. */
  ghost predicate OnTime(w: E.World, t: E.Ticket, late: real) {
    && (t in E.Waiting(w) || t in w.woken ==> w.now <= t.deadline + late)
    && (t in w.sleeping ==> w.sleeping[t] < t.deadline && w.now <= w.sleeping[t] + late)
  }

  /** Once settled, by a slot before the deadline or by a refusal at the latest at it. */
  ghost predicate SettledOnTime(w: E.World, t: E.Ticket, since: real, late: real) {
    !Pending(w, t) ==>
      && (t in w.running ==> w.now < t.deadline + late)
      && (t !in w.running ==> w.now <= t.deadline + late || w.now == since)
  }

  lemma ReservingIsOnTime(o: E.Limits, w: E.World, t: E.Ticket, late: real)
    requires late >= 0.0 && !Pending(w, t) && t !in w.running && !w.aborted
    ensures var w1 := E.Reserved(o, w, t);
      && w1.now == w.now && OnTime(w1, t, late) && (t in w1.running ==> w.now < t.deadline)
  {}

  lemma ArrivalIsOnTime(o: E.Limits, w: E.World, t: E.Ticket, late: real)
    requires late >= 0.0 && E.Enabled(w, E.Arrive(t))
    ensures var w1 := E.Next(o, w, E.Arrive(t)); OnTime(w1, t, late) && SettledOnTime(w1, t, w.now, late)
  {
    if w.gate.active < o.maxConcurrent {
      E.ArrivalWithRoomReserves(o, w, t);
      ReservingIsOnTime(o, w.(gate := w.gate.(active := w.gate.active + 1)), t, late);
    }
  }

  /** What another caller's step can do to a pending one: wake it from the line. */
  ghost predicate OnlyWoken(w: E.World, w1: E.World, t: E.Ticket) {
    && w1.now == w.now && t !in w1.running
    && (t in w1.sleeping <==> t in w.sleeping) && (t in w.sleeping ==> w1.sleeping[t] == w.sleeping[t])
    && (t in E.Waiting(w1) || t in w1.woken <==> t in E.Waiting(w) || t in w.woken)
  }

  lemma FreeingOnlyWakes(w: E.World, t: E.Ticket)
    requires t !in w.running
    ensures OnlyWoken(w, E.Freed(w), t)
  {
    var line := w.gate.waiters;
    if line != [] && !w.aborted {
      assert line == [line[0]] + line[1..];
    }
  }

  lemma OthersReservationOnlyWakes(o: E.Limits, w: E.World, u: E.Ticket, t: E.Ticket)
    requires t !in w.running && u != t
    ensures OnlyWoken(w, E.Reserved(o, w, u), t)
  {
    FreeingOnlyWakes(w, t);
    if E.Reserve(o, w.gate, u, w.now).outcome.Refused? {
      assert E.Reserved(o, w, u) == E.Freed(w);
    }
  }

  lemma OthersArrivalOnlyWakes(o: E.Limits, w: E.World, u: E.Ticket, t: E.Ticket)
    requires E.Enabled(w, E.Arrive(u)) && t !in w.running && u != t
    ensures OnlyWoken(w, E.Next(o, w, E.Arrive(u)), t)
  {
    if w.gate.active < o.maxConcurrent {
      E.ArrivalWithRoomReserves(o, w, u);
      OthersReservationOnlyWakes(o, w.(gate := w.gate.(active := w.gate.active + 1)), u, t);
    }
  }

  lemma OthersResumptionOnlyWakes(o: E.Limits, w: E.World, u: E.Ticket, t: E.Ticket)
    requires E.Enabled(w, E.WaiterResumes(u)) && t !in w.running && u != t
    ensures OnlyWoken(w, E.Next(o, w, E.WaiterResumes(u)), t)
  {
    var left := w.(woken := w.woken - {u});
    if !w.aborted {
      E.ResumptionReserves(o, w, u);
      OthersReservationOnlyWakes(o, left.(gate := w.gate.(active := w.gate.active + 1)), u, t);
    }
  }

  lemma OthersTimeoutOnlyWakes(o: E.Limits, w: E.World, u: E.Ticket, t: E.Ticket)
    requires E.Inv(o, w) && E.Enabled(w, E.WaiterTimesOut(u)) && t !in w.running && u != t
    ensures OnlyWoken(w, E.Next(o, w, E.WaiterTimesOut(u)), t)
  {
    var i, left := E.TimeoutTakesOut(o, w, u);
    E.OneLeaves(w.gate.waiters, i, left.gate.waiters);
  }

  lemma OthersEndingOnlyWakes(o: E.Limits, w: E.World, step: E.Step, t: E.Ticket)
    requires E.Enabled(w, step) && t !in w.running && (step.SleepEnds? || step.AttemptEnds?) && step.t != t
    ensures OnlyWoken(w, E.Next(o, w, step), t)
  {
    var ended := if step.AttemptEnds? then w.(running := w.running - {step.t}) else w.(sleeping := w.sleeping - {step.t});
    FreeingOnlyWakes(ended, t);
    if step.AttemptEnds? || w.aborted {
      assert E.Next(o, w, step) == E.Freed(ended);
    }
  }

  lemma OthersOnlyWake(o: E.Limits, w: E.World, step: E.Step, t: E.Ticket)
    requires E.Inv(o, w) && E.Enabled(w, step) && t !in w.running
    requires !step.Tick? && (step.Shutdown? || step.t != t)
    ensures OnlyWoken(w, E.Next(o, w, step), t)
  {
    match step
    case Arrive(u) => OthersArrivalOnlyWakes(o, w, u, t);
    case WaiterResumes(u) => OthersResumptionOnlyWakes(o, w, u, t);
    case WaiterTimesOut(u) => OthersTimeoutOnlyWakes(o, w, u, t);
    case Shutdown =>
    case _ => OthersEndingOnlyWakes(o, w, step, t);
  }

  /** The caller's own wait ends in a slot before the deadline, or in a refusal. */
  lemma OwnStepIsOnTime(o: E.Limits, w: E.World, step: E.Step, t: E.Ticket, late: real, since: real)
    requires E.Inv(o, w) && E.Enabled(w, step) && late >= 0.0 && Pending(w, t) && OnTime(w, t, late)
    requires (step.WaiterResumes? || step.WaiterTimesOut? || step.SleepEnds?) && step.t == t
    ensures var w1 := E.Next(o, w, step); OnTime(w1, t, late) && SettledOnTime(w1, t, since, late)
  {
    if step.WaiterTimesOut? {
      var i, left := E.TimeoutTakesOut(o, w, t);
      E.OneLeaves(w.gate.waiters, i, left.gate.waiters);
    } else if step.SleepEnds? {
      var awake := w.(sleeping := w.sleeping - {t});
      FreeingOnlyWakes(awake, t);
      assert w.aborted ==> E.Next(o, w, step) == E.Freed(awake);
    } else if !w.aborted {
      E.ResumptionReserves(o, w, t);
      ReservingIsOnTime(o, w.(gate := w.gate.(active := w.gate.active + 1), woken := w.woken - {t}), t, late);
    }
  }

  lemma PendingStepIsOnTime(o: E.Limits, w: E.World, step: E.Step, t: E.Ticket, late: real, since: real)
    requires E.Inv(o, w) && E.Enabled(w, step) && TimersFire(w, step, late) && late >= 0.0
    requires Pending(w, t) && OnTime(w, t, late)
    ensures var w1 := E.Next(o, w, step); OnTime(w1, t, late) && SettledOnTime(w1, t, since, late)
  {
    if step.Tick? {
    } else if step.Shutdown? || step.t != t {
      OthersOnlyWake(o, w, step, t);
    } else {
      OwnStepIsOnTime(o, w, step, t, late, since);
    }
  }

  lemma {:induction false} PendingRunIsOnTime(
    o: E.Limits, w: E.World, t: E.Ticket, steps: seq<E.Step>, end: E.World, late: real, since: real)
    requires E.Inv(o, w) && late >= 0.0 && OnTime(w, t, late) && SettledOnTime(w, t, since, late)
    requires StaysPending(o, w, t, steps, end, late)
    ensures OnTime(end, t, late) && SettledOnTime(end, t, since, late)
    decreases |steps|
  {
    if steps != [] {
      var w1 := E.Next(o, w, steps[0]);
      PendingStepIsOnTime(o, w, steps[0], t, late, since);
      E.StepKeeps(o, w, steps[0]);
      PendingRunIsOnTime(o, w1, t, steps[1..], end, late, since);
    }
  }

  /**
   * However others queue, sleep, settle and shut down, a caller leaves the line by its deadline and its sleep before
   * it, give or take the lateness of timers: while its acquire is pending the deadline is not past, a slot is granted
   * before it, and a refusal comes at the latest at it, or at once.
   */
  lemma AcquireEndsByDeadline(
    o: E.Limits, w: E.World, t: E.Ticket, steps: seq<E.Step>, end: E.World, late: real)
    requires late >= 0.0 && Acquires(o, w, t, steps, end, late)
    ensures Pending(end, t) ==> end.now <= t.deadline + late
    ensures !Pending(end, t) && t in end.running ==> end.now < t.deadline + late
    ensures !Pending(end, t) && t !in end.running ==> end.now <= t.deadline + late || end.now == w.now
  {
    var arrived := E.Next(o, w, E.Arrive(t));
    ArrivalIsOnTime(o, w, t, late);
    E.StepKeeps(o, w, E.Arrive(t));
    PendingRunIsOnTime(o, arrived, t, steps, end, late, w.now);
  }

  // ---- one request -----------------------------------------------------------------------------------------------

  /** An acquire for this deadline that began at `since`, seen at `at`. */
  ghost predicate AcquireSeen(
    limits: E.Limits, w: E.World, t: E.Ticket, steps: seq<E.Step>, end: E.World, deadline: int, since: int, at: int,
    late: nat)
  {
    && Acquires(limits, w, t, steps, end, late as real)
    && w.now == since as real && end.now == at as real && t.deadline == deadline as real
  }

  ghost predicate AcquireSettles(limits: E.Limits, deadline: int, since: int, at: int, granted: bool, late: nat) {
    exists w, t, steps, end ::
      AcquireSeen(limits, w, t, steps, end, deadline, since, at, late) && !Pending(end, t)
      && (granted <==> t in end.running)
  }

  ghost predicate AcquirePends(limits: E.Limits, deadline: int, since: int, at: int, late: nat) {
    exists w, t, steps, end ::
      AcquireSeen(limits, w, t, steps, end, deadline, since, at, late) && Pending(end, t)
  }

  lemma AcquireSettlesByDeadline(limits: E.Limits, deadline: int, since: int, at: int, granted: bool, late: nat)
    requires AcquireSettles(limits, deadline, since, at, granted, late)
    ensures if granted then at < deadline + late else at <= deadline + late || at == since
  {
    var w, t, steps, end :|
      AcquireSeen(limits, w, t, steps, end, deadline, since, at, late) && !Pending(end, t)
      && (granted <==> t in end.running);
    AcquireEndsByDeadline(limits, w, t, steps, end, late as real);
    assert deadline as real + late as real == (deadline + late) as real;
  }

  lemma AcquirePendsUntilDeadline(limits: E.Limits, deadline: int, since: int, at: int, late: nat)
    requires AcquirePends(limits, deadline, since, at, late)
    ensures at <= deadline + late
  {
    var w, t, steps, end :|
      AcquireSeen(limits, w, t, steps, end, deadline, since, at, late) && Pending(end, t);
    AcquireEndsByDeadline(limits, w, t, steps, end, late as real);
    assert deadline as real + late as real == (deadline + late) as real;
  }

  /** When the await of a resting request ends: as its acquire does at the endpoint, or at the latest by its timer. */
  ghost predicate AwaitEnds(limits: E.Limits, r: Request, since: int, m: Moment, late: nat) {
    match r.phase
    case Acquiring(_, _) => AcquireSettles(limits, r.deadline, since, m.now, m.event.SlotGranted?, late)
    case Attempting(_, _, t0, window) => m.now <= t0 + window + HARD_ABANDON_GRACE_MS + late
    case BackingOff(_, _, until) => m.now <= until + late
    case _ => true
  }

  /** The await may still be pending at `now`. */
  ghost predicate AwaitPends(limits: E.Limits, r: Request, since: int, now: int, late: nat) {
    match r.phase
    case Acquiring(_, _) => AcquirePends(limits, r.deadline, since, now, late)
    case Attempting(_, _, t0, window) => now <= t0 + window + HARD_ABANDON_GRACE_MS + late
    case BackingOff(_, _, until) => now <= until + late
    case _ => true
  }

  /** A request's life with its times: it has rested since `from` first and since `since` last. */
  ghost predicate TimedLife(
    limits: E.Limits, o: Options, n: nat, r: Request, from: int, moments: seq<Moment>, end: Request, since: int, late: nat)
    decreases |moments|
  {
    if moments == [] then end == r && since == from
    else
      var m := moments[0];
      && |m.gate.health| == n && Fits(r.phase, m.event) && r.phase.i < n && AwaitEnds(limits, r, from, m, late)
      && TimedLife(limits, o, n, Lived(o, r, m), m.now, moments[1..], end, since, late)
  }

  lemma {:induction false} TimedLifeIsALife(
    limits: E.Limits, o: Options, n: nat, r: Request, from: int, moments: seq<Moment>, end: Request, since: int, late: nat)
    requires TimedLife(limits, o, n, r, from, moments, end, since, late)
    ensures Life(o, n, r, moments, end)
    decreases |moments|
  {
    if moments != [] {
      TimedLifeIsALife(limits, o, n, Lived(o, r, moments[0]), moments[0].now, moments[1..], end, since, late);
    }
  }

  /** No await is begun that its own timers would let run past the deadline. */
  ghost predicate WellTimed(o: Options, r: Request, since: int, late: nat) {
    match r.phase
    case Acquiring(_, _) => since <= r.deadline + late
    case Attempting(_, _, t0, window) => t0 < r.deadline + late && window == EffectiveTimeout(o, r.deadline, t0)
    case BackingOff(_, _, until) => until < r.deadline
    case _ => true
  }

  /** An attempt's window never reaches past the deadline, unless the slot itself came late. */
  lemma WindowClosesByDeadline(o: Options, deadline: int, t0: int, late: nat)
    requires t0 < deadline + late
    ensures t0 + EffectiveTimeout(o, deadline, t0) <= deadline + late
  {}

  lemma MomentIsOnTime(limits: E.Limits, o: Options, n: nat, r: Request, since: int, m: Moment, late: nat)
    requires WellTimed(o, r, since, late) && AwaitEnds(limits, r, since, m, late)
    requires |m.gate.health| == n && Fits(r.phase, m.event) && r.phase.i < n
    ensures m.now <= r.deadline + HARD_ABANDON_GRACE_MS + 2 * late
    ensures WellTimed(o, Lived(o, r, m), m.now, late) && Lived(o, r, m).deadline == r.deadline
  {
    OneMoment(o, n, r, m);
    if r.phase.Acquiring? {
      AcquireSettlesByDeadline(limits, r.deadline, since, m.now, m.event.SlotGranted?, late);
    } else if r.phase.Attempting? {
      WindowClosesByDeadline(o, r.deadline, r.phase.t0, late);
    }
  }

  lemma PendingIsOnTime(limits: E.Limits, o: Options, r: Request, since: int, now: int, late: nat)
    requires WellTimed(o, r, since, late) && !r.phase.Settled() && AwaitPends(limits, r, since, now, late)
    ensures now <= r.deadline + HARD_ABANDON_GRACE_MS + 2 * late
  {
    if r.phase.Acquiring? {
      AcquirePendsUntilDeadline(limits, r.deadline, since, now, late);
    } else if r.phase.Attempting? {
      WindowClosesByDeadline(o, r.deadline, r.phase.t0, late);
    }
  }

  lemma {:induction false} TimedLifeIsOnTime(
    limits: E.Limits, o: Options, n: nat, r: Request, from: int, moments: seq<Moment>, end: Request, since: int, late: nat)
    requires TimedLife(limits, o, n, r, from, moments, end, since, late) && WellTimed(o, r, from, late)
    ensures forall k | 0 <= k < |moments| :: moments[k].now <= r.deadline + HARD_ABANDON_GRACE_MS + 2 * late
    ensures WellTimed(o, end, since, late) && end.deadline == r.deadline
    decreases |moments|
  {
    if moments != [] {
      var m, rest := moments[0], moments[1..];
      MomentIsOnTime(limits, o, n, r, from, m, late);
      TimedLifeIsOnTime(limits, o, n, Lived(o, r, m), m.now, rest, end, since, late);
      assert forall k | 1 <= k < |moments| :: moments[k] == rest[k - 1];
    }
  }

  /**
   * From its beginning to its end: when timers fire at most `late` after they are due, a request has settled by its
   * deadline, the grace of one abandoned attempt and the lateness of two timers later, in a bounded number of attempts
   * and awaits. Seen at any later time it is no longer pending.
   */
  lemma SettlesWithinItsBudget(
    limits: E.Limits, o: Options, g: Gate, rpcMethod: Option<Method>, begin: int, moments: seq<Moment>, end: Request,
    since: int, now: int, late: nat)
    requires o.maxTotalMs >= 0
    requires TimedLife(
      limits, o, |g.health|, Begin(o, g, rpcMethod, begin, false).request, begin, moments, end, since, late)
    requires !end.phase.Settled() ==> AwaitPends(limits, end, since, now, late)
    ensures forall k | 0 <= k < |moments| ::
      moments[k].now <= begin + o.maxTotalMs + HARD_ABANDON_GRACE_MS + 2 * late
    ensures now > begin + o.maxTotalMs + HARD_ABANDON_GRACE_MS + 2 * late ==> end.phase.Settled()
    ensures end.attempts <= |g.health| * (o.maxRetries + 1) && |moments| <= 3 * (|g.health| * (o.maxRetries + 1))
  {
    var r := Begin(o, g, rpcMethod, begin, false).request;
    BegunWithinAllowance(o, g, rpcMethod, begin, false);
    BegunWellTimed(o, g, rpcMethod, begin, late);
    TimedLifeIsALife(limits, o, |g.health|, r, begin, moments, end, since, late);
    RequestSettlesInBoundedAttempts(o, g, rpcMethod, begin, moments, end);
    TimedLifeIsOnTime(limits, o, |g.health|, r, begin, moments, end, since, late);
    if !end.phase.Settled() {
      PendingIsOnTime(limits, o, end, since, now, late);
    }
  }

  lemma BegunWellTimed(o: Options, g: Gate, rpcMethod: Option<Method>, begin: int, late: nat)
    requires o.maxTotalMs >= 0
    ensures WellTimed(o, Begin(o, g, rpcMethod, begin, false).request, begin, late)
  {
    var counted := g.(logicalRequests := g.logicalRequests + 1, inFlight := g.inFlight + 1);
    ExamineMovesForward(counted, Request(rpcMethod, begin + o.maxTotalMs, 0, false, false, 0, 0, 0, Answered), 0, begin);
  }
}
