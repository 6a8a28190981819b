/**
 * One logical request of the provider gate: endpoints in order, retries at each, a deadline over all of it, and what
 * its outcome teaches the circuit breaker. Every await is a step boundary; between two awaits nothing else runs.
 */
module ProviderRequests {
  import opened Prelude

  type Method = string

  datatype Options = Options(
    timeoutMs: int, maxRetries: nat, maxTotalMs: int, circuitFailureThreshold: int, circuitCooldownMs: int,
    unsupportedCooldownMs: int)

  const HARD_ABANDON_GRACE_MS := 2000

  datatype Health = Health(consecutiveFailures: nat, openUntil: int, unsupportedUntil: map<Method, int>) {

    predicate Unsupports(rpcMethod: Option<Method>, now: int) {
      rpcMethod.Some? && rpcMethod.value in unsupportedUntil && unsupportedUntil[rpcMethod.value] > now
    }
  }

  datatype Reason = RateLimited | TimedOutReason | Unavailable | Unsupported | ShutDown | CircuitOpen | DeadlineExceeded

  /** Where a request rests: waiting for a slot, in an HTTP attempt, in a retry sleep, or settled. */
  datatype Phase =
    | Acquiring(i: nat, attempt: nat)
    | Attempting(i: nat, attempt: nat, t0: int, effectiveTimeoutMs: int)
    | BackingOff(i: nat, attempt: nat, until: int)
    | Answered
    | Rejected(reason: Reason)
  {
    predicate Settled() {
      Answered? || Rejected?
    }
  }

  datatype Request = Request(
    rpcMethod: Option<Method>, deadline: int, attempts: nat, seenRate: bool, seenTimeout: bool,
    considered: nat, unsupported: nat, circuit: nat, phase: Phase)

  datatype Gate = Gate(health: seq<Health>, inFlight: int, logicalRequests: nat, logicalFailures: nat, answered: nat)

  /** What ends an await. A backoff is the jittered delay drawn when the answer gives none. */
  datatype Event =
    | SlotGranted
    | SlotRefused
    | Responded(status: int, methodLimitZero: bool, retryAfterMs: Option<nat>, backoff: nat)
    | AttemptTimedOut(backoff: nat)
    | AttemptAbandoned(backoff: nat)
    | NetworkFailed(backoff: nat)
    | SleepOver
    | SleepAborted

  datatype EndpointOutcome = Ok | FailedThere | NotAttempted | LocalDeadline

  datatype Verdict = Success | Retry(delayMs: nat) | GiveUp | CutShort

  /** A segment either leaves the request resting at the endpoint or concludes its turn there. */
  datatype Progress =
    | Rests(gate: Gate, request: Request)
    | Concludes(gate: Gate, request: Request, outcome: EndpointOutcome)

  datatype Turn = Turn(gate: Gate, request: Request)

  function EffectiveTimeout(o: Options, deadline: int, t0: int): int {
    var left := if o.timeoutMs < deadline - t0 then o.timeoutMs else deadline - t0;
    if left < 1 then 1 else left
  }

  predicate Fits(phase: Phase, e: Event) {
    match phase
    case Acquiring(_, _) => e.SlotGranted? || e.SlotRefused?
    case Attempting(_, _, _, _) => e.Responded? || e.AttemptTimedOut? || e.AttemptAbandoned? || e.NetworkFailed?
    case BackingOff(_, _, _) => e.SleepOver? || e.SleepAborted?
    case _ => false
  }

  /** How an attempt is judged; a timeout in a window our own deadline cut short says nothing about the endpoint. */
  function Judge(rpcMethod: Option<Method>, truncated: bool, aborted: bool, e: Event): Verdict
    requires e.Responded? || e.AttemptTimedOut? || e.AttemptAbandoned? || e.NetworkFailed?
  {
    match e
    case Responded(status, methodLimitZero, retryAfterMs, backoff) =>
      if 200 <= status < 300 then Success
      else if status == 429 then
        if methodLimitZero && rpcMethod.Some? then GiveUp else Retry(retryAfterMs.GetOr(backoff))
      else if status == 403 && rpcMethod.Some? then GiveUp
      else if status >= 500 then Retry(retryAfterMs.GetOr(backoff))
      else Success
    case AttemptAbandoned(backoff) => if truncated then CutShort else Retry(backoff)
    case AttemptTimedOut(backoff) =>
      if aborted then GiveUp else if truncated then CutShort else Retry(backoff)
    case NetworkFailed(backoff) => if aborted then GiveUp else Retry(backoff)
  }

  predicate NeverServed(rpcMethod: Option<Method>, e: Event) {
    e.Responded? && rpcMethod.Some? && ((e.status == 429 && e.methodLimitZero) || e.status == 403)
  }

  /** What an attempt leaves on record: unsupported methods at the endpoint, the kinds of trouble at the request. */
  function AttemptRecorded(o: Options, g: Gate, r: Request, i: nat, truncated: bool, aborted: bool, e: Event, now: int): Turn
    requires i < |g.health|
  {
    if NeverServed(r.rpcMethod, e) then
      var h := g.health[i];
      var known := h.unsupportedUntil[r.rpcMethod.value := now + o.unsupportedCooldownMs];
      Turn(g.(health := g.health[i := h.(unsupportedUntil := known)]), r)
    else if e.Responded? && e.status == 429 then Turn(g, r.(seenRate := true))
    else if !truncated && (e.AttemptAbandoned? || (e.AttemptTimedOut? && !aborted)) then Turn(g, r.(seenTimeout := true))
    else Turn(g, r)
  }

  /** The part of tryEndpoint between two awaits. */
  function Continue(o: Options, g: Gate, r: Request, e: Event, now: int, aborted: bool): Progress
    requires Fits(r.phase, e) && r.phase.i < |g.health|
  {
    var i, attempt := r.phase.i, r.phase.attempt;
    match e
    case SlotGranted =>
      var begun := Attempting(i, attempt, now, EffectiveTimeout(o, r.deadline, now));
      Rests(g, r.(attempts := r.attempts + 1, phase := begun))
    case SlotRefused => Concludes(g, r, if attempt > 0 then FailedThere else NotAttempted)
    case SleepOver =>
      if aborted then Concludes(g, r, FailedThere)
      else Rests(g, r.(phase := Acquiring(i, attempt + 1)))
    case SleepAborted => Concludes(g, r, FailedThere)
    case _ =>
      var truncated := r.phase.effectiveTimeoutMs < o.timeoutMs;
      var t := AttemptRecorded(o, g, r, i, truncated, aborted, e, now);
      match Judge(r.rpcMethod, truncated, aborted, e)
      case Success => Concludes(t.gate, t.request, Ok)
      case CutShort => Concludes(t.gate, t.request, LocalDeadline)
      case GiveUp => Concludes(t.gate, t.request, FailedThere)
      case Retry(delayMs) =>
        if attempt >= o.maxRetries || now + delayMs >= r.deadline then Concludes(t.gate, t.request, FailedThere)
        else Rests(t.gate, t.request.(phase := BackingOff(i, attempt, now + delayMs)))
  }

  function FailureReason(r: Request, now: int, aborted: bool): Reason {
    if aborted then ShutDown
    else if r.considered == 0 then if r.unsupported > 0 && r.circuit == 0 then Unsupported else CircuitOpen
    else if r.unsupported >= r.considered && !r.seenRate && !r.seenTimeout then Unsupported
    else if r.seenRate then RateLimited
    else if r.seenTimeout then TimedOutReason
    else if now >= r.deadline then DeadlineExceeded
    else Unavailable
  }

  function Reject(g: Gate, r: Request, now: int, aborted: bool): Turn {
    Turn(g.(logicalFailures := g.logicalFailures + 1, inFlight := g.inFlight - 1),
         r.(phase := Rejected(FailureReason(r, now, aborted))))
  }

  /** Looks for the next endpoint that is neither cooling down nor known not to serve the method. */
  function Examine(g: Gate, r: Request, i: nat, now: int): Turn
    decreases |g.health| - i
  {
    if i >= |g.health| then Reject(g, r, now, false)
    else if g.health[i].openUntil > now then Examine(g, r.(circuit := r.circuit + 1), i + 1, now)
    else if g.health[i].Unsupports(r.rpcMethod, now) then Examine(g, r.(unsupported := r.unsupported + 1), i + 1, now)
    else Turn(g, r.(considered := r.considered + 1, phase := Acquiring(i, 0)))
  }

  /** Whether an outcome is evidence against the endpoint: never a method it does not serve, never our own deadline. */
  predicate Blames(h: Health, rpcMethod: Option<Method>, outcome: EndpointOutcome, now: int) {
    outcome.FailedThere? && !h.Unsupports(rpcMethod, now)
  }

  function AfterFailure(o: Options, h: Health, now: int): Health {
    var failures := h.consecutiveFailures + 1;
    if failures >= o.circuitFailureThreshold && h.openUntil <= now then
      h.(consecutiveFailures := failures, openUntil := now + o.circuitCooldownMs)
    else h.(consecutiveFailures := failures)
  }

  /** The part of execute that follows a concluded turn at endpoint i. */
  function Settle(o: Options, g: Gate, r: Request, i: nat, outcome: EndpointOutcome, now: int, aborted: bool): Turn
    requires i < |g.health|
  {
    var h := g.health[i];
    if outcome.Ok? then
      var cleared := g.(health := g.health[i := h.(consecutiveFailures := 0)]);
      Turn(cleared.(answered := g.answered + 1, inFlight := g.inFlight - 1), r.(phase := Answered))
    else if aborted then Reject(g, r, now, true)
    else
      var noted := if h.Unsupports(r.rpcMethod, now) then r.(unsupported := r.unsupported + 1) else r;
      var blamed :=
        if Blames(h, r.rpcMethod, outcome, now) then g.(health := g.health[i := AfterFailure(o, h, now)]) else g;
      if now >= r.deadline then Reject(blamed, noted, now, false) else Examine(blamed, noted, i + 1, now)
  }

  function Advance(o: Options, g: Gate, r: Request, e: Event, now: int, aborted: bool): Turn
    requires Fits(r.phase, e) && r.phase.i < |g.health|
  {
    match Continue(o, g, r, e, now, aborted)
    case Rests(gate, request) => Turn(gate, request)
    case Concludes(gate, request, outcome) => Settle(o, gate, request, r.phase.i, outcome, now, aborted)
  }

  function Begin(o: Options, g: Gate, rpcMethod: Option<Method>, now: int, aborted: bool): Turn {
    var counted := g.(logicalRequests := g.logicalRequests + 1);
    var r := Request(rpcMethod, now + o.maxTotalMs, 0, false, false, 0, 0, 0, Answered);
    if aborted then
      Turn(counted.(logicalFailures := g.logicalFailures + 1), r.(phase := Rejected(ShutDown)))
    else Examine(counted.(inFlight := g.inFlight + 1), r, 0, now)
  }

  // ---- one request's life, whatever other requests do to the endpoints meanwhile -------------------------------------

  /** An await that ended: the gate as others left it, what happened, when, and whether shutdown was signalled. */
  datatype Moment = Moment(gate: Gate, event: Event, now: int, aborted: bool)

  function Lived(o: Options, r: Request, m: Moment): Request
    requires Fits(r.phase, m.event) && r.phase.i < |m.gate.health|
  {
    Advance(o, m.gate, r, m.event, m.now, m.aborted).request
  }

  ghost predicate Life(o: Options, n: nat, r: Request, moments: seq<Moment>, end: Request)
    decreases |moments|
  {
    if moments == [] then end == r
    else
      var m := moments[0];
      && |m.gate.health| == n && Fits(r.phase, m.event) && r.phase.i < n
      && Life(o, n, Lived(o, r, m), moments[1..], end)
  }

  /** Looking for an endpoint spends no attempt and never goes back. */
  lemma {:induction false} ExamineMovesForward(g: Gate, r: Request, i: nat, now: int)
    requires i <= |g.health|
    ensures var t := Examine(g, r, i, now);
      && t.request.attempts == r.attempts && t.request.deadline == r.deadline && t.gate.health == g.health
      && ((t.request.phase.Rejected? && t.gate == Reject(g, r, now, false).gate)
          || (t.request.phase.Acquiring? && i <= t.request.phase.i < |g.health| && t.request.phase.attempt == 0
              && t.gate == g))
    decreases |g.health| - i
  {
    if i < |g.health| {
      if g.health[i].openUntil > now {
        ExamineMovesForward(g, r.(circuit := r.circuit + 1), i + 1, now);
      } else if g.health[i].Unsupports(r.rpcMethod, now) {
        ExamineMovesForward(g, r.(unsupported := r.unsupported + 1), i + 1, now);
      }
    }
  }

  /** After a turn at endpoint i the request is settled or waits at a later endpoint. */
  lemma SettleMovesForward(o: Options, g: Gate, r: Request, i: nat, outcome: EndpointOutcome, now: int, aborted: bool)
    requires i < |g.health|
    ensures var t := Settle(o, g, r, i, outcome, now, aborted);
      && t.request.attempts == r.attempts && t.request.deadline == r.deadline
      && |t.gate.health| == |g.health|
      && (t.request.phase.Settled()
          || (t.request.phase.Acquiring? && i < t.request.phase.i < |g.health| && t.request.phase.attempt == 0
              && now < r.deadline && !aborted))
  {
    if !outcome.Ok? && !aborted && now < r.deadline {
      var h := g.health[i];
      var noted := if h.Unsupports(r.rpcMethod, now) then r.(unsupported := r.unsupported + 1) else r;
      var blamed :=
        if Blames(h, r.rpcMethod, outcome, now) then g.(health := g.health[i := AfterFailure(o, h, now)]) else g;
      ExamineMovesForward(blamed, noted, i + 1, now);
    }
  }

  /** What one moment does to the request's place, its attempts and its wait. */
  lemma OneMoment(o: Options, n: nat, r: Request, m: Moment)
    requires |m.gate.health| == n && Fits(r.phase, m.event) && r.phase.i < n
    ensures var q := Lived(o, r, m); var p := r.phase;
      && q.deadline == r.deadline
      && match q.phase
         case Acquiring(i, attempt) =>
           && q.attempts == r.attempts
           && if i == p.i then p.BackingOff? && attempt == p.attempt + 1
              else p.i < i < n && attempt == 0 && m.now < r.deadline
         case Attempting(i, attempt, t0, window) =>
           && p == Acquiring(i, attempt) && q.attempts == r.attempts + 1
           && t0 == m.now && window == EffectiveTimeout(o, r.deadline, t0) && m.event.SlotGranted?
         case BackingOff(i, attempt, until) =>
           && p.Attempting? && p.i == i && p.attempt == attempt && q.attempts == r.attempts
           && attempt < o.maxRetries && until < r.deadline
         case _ => q.attempts == r.attempts
  {
    var progress := Continue(o, m.gate, r, m.event, m.now, m.aborted);
    assert |progress.gate.health| == n && progress.request.deadline == r.deadline;
    if progress.Concludes? {
      SettleMovesForward(o, progress.gate, progress.request, r.phase.i, progress.outcome, m.now, m.aborted);
    }
  }

  /** Attempts a request may have spent by the time it rests at a place. */
  function Allowance(o: Options, n: nat, phase: Phase): int {
    match phase
    case Acquiring(i, attempt) => i * (o.maxRetries + 1) + attempt
    case Attempting(i, attempt, _, _) => i * (o.maxRetries + 1) + attempt + 1
    case BackingOff(i, attempt, _) => i * (o.maxRetries + 1) + attempt + 1
    case _ => n * (o.maxRetries + 1)
  }

  ghost predicate WithinAllowance(o: Options, n: nat, r: Request) {
    && r.attempts <= Allowance(o, n, r.phase)
    && (!r.phase.Settled() ==> r.phase.i < n && r.phase.attempt <= o.maxRetries)
    && (r.phase.BackingOff? ==> r.phase.attempt < o.maxRetries)
  }

  lemma {:induction false} MoreRounds(i: nat, j: nat, round: nat)
    requires i <= j
    ensures i * round <= j * round
    decreases j - i
  {
    if i < j {
      MoreRounds(i, j - 1, round);
      OneMoreRound(j - 1, round);
    }
  }

  lemma OneMoreRound(i: nat, round: nat)
    ensures (i + 1) * round == i * round + round
  {}

  /** A full round of attempts fits between two places when the endpoint advances. */
  lemma LaterPlaceAllowsMore(o: Options, i: nat, j: nat, attempt: nat)
    requires i < j && attempt <= o.maxRetries
    ensures i * (o.maxRetries + 1) + attempt + 1 <= j * (o.maxRetries + 1)
  {
    OneMoreRound(i, o.maxRetries + 1);
    MoreRounds(i + 1, j, o.maxRetries + 1);
  }

  lemma MomentKeepsAllowance(o: Options, n: nat, r: Request, m: Moment)
    requires |m.gate.health| == n && Fits(r.phase, m.event) && r.phase.i < n && WithinAllowance(o, n, r)
    ensures WithinAllowance(o, n, Lived(o, r, m))
  {
    var q := Lived(o, r, m);
    OneMoment(o, n, r, m);
    if q.phase.Settled() {
      LaterPlaceAllowsMore(o, r.phase.i, n, r.phase.attempt);
    } else if q.phase.i != r.phase.i {
      LaterPlaceAllowsMore(o, r.phase.i, q.phase.i, r.phase.attempt);
    }
  }

  /** Awaits still possible: three for each attempt left. */
  ghost function AwaitsLeft(o: Options, n: nat, phase: Phase): int {
    match phase
    case Acquiring(i, attempt) => 3 * ((n - i) * (o.maxRetries + 1) - attempt)
    case Attempting(i, attempt, _, _) => 3 * ((n - i) * (o.maxRetries + 1) - attempt) - 1
    case BackingOff(i, attempt, _) => 3 * ((n - i) * (o.maxRetries + 1) - attempt) - 2
    case _ => 0
  }

  lemma AwaitsRunOut(o: Options, n: nat, r: Request, m: Moment)
    requires |m.gate.health| == n && Fits(r.phase, m.event) && r.phase.i < n && WithinAllowance(o, n, r)
    ensures 0 <= AwaitsLeft(o, n, Lived(o, r, m).phase) < AwaitsLeft(o, n, r.phase)
  {
    var q := Lived(o, r, m);
    OneMoment(o, n, r, m);
    MomentKeepsAllowance(o, n, r, m);
    AwaitsRemain(o, n, r.phase);
    if !q.phase.Settled() {
      AwaitsRemain(o, n, q.phase);
      if q.phase.i != r.phase.i {
        LaterPlaceAwaitsLess(o, n, r.phase, q.phase);
      }
    }
  }

  lemma AwaitsRemain(o: Options, n: nat, phase: Phase)
    requires !phase.Settled() && phase.i < n && phase.attempt <= o.maxRetries
    ensures AwaitsLeft(o, n, phase) > 0
  {
    LaterPlaceAllowsMore(o, 0, n - phase.i, phase.attempt);
  }

  lemma LaterPlaceAwaitsLess(o: Options, n: nat, p: Phase, q: Phase)
    requires !p.Settled() && p.attempt <= o.maxRetries && q.Acquiring? && p.i < q.i < n && q.attempt == 0
    ensures AwaitsLeft(o, n, q) < AwaitsLeft(o, n, p)
  {
    var round := o.maxRetries + 1;
    LaterPlaceAllowsMore(o, 0, q.i - p.i, p.attempt);
    assert (n - p.i) * round == (n - q.i) * round + (q.i - p.i) * round;
  }

  /**
   * However endpoints answer and whatever other requests do, a request spends at most maxRetries + 1 attempts at each
   * endpoint and settles within three awaits for each.
   */
  lemma {:induction false} AttemptsAreBounded(o: Options, n: nat, r: Request, moments: seq<Moment>, end: Request)
    requires WithinAllowance(o, n, r) && Life(o, n, r, moments, end)
    ensures end.attempts <= n * (o.maxRetries + 1)
    ensures moments != [] ==> |moments| <= AwaitsLeft(o, n, r.phase)
    decreases |moments|
  {
    if moments == [] {
      if !r.phase.Settled() {
        LaterPlaceAllowsMore(o, r.phase.i, n, r.phase.attempt);
      }
    } else {
      var m := moments[0];
      MomentKeepsAllowance(o, n, r, m);
      AwaitsRunOut(o, n, r, m);
      AttemptsAreBounded(o, n, Lived(o, r, m), moments[1..], end);
    }
  }

  lemma BegunWithinAllowance(o: Options, g: Gate, rpcMethod: Option<Method>, now: int, aborted: bool)
    ensures var r := Begin(o, g, rpcMethod, now, aborted).request;
      && WithinAllowance(o, |g.health|, r) && r.deadline == now + o.maxTotalMs
      && AwaitsLeft(o, |g.health|, r.phase) <= 3 * (|g.health| * (o.maxRetries + 1))
  {
    if !aborted {
      var counted := g.(logicalRequests := g.logicalRequests + 1, inFlight := g.inFlight + 1);
      var unbegun := Request(rpcMethod, now + o.maxTotalMs, 0, false, false, 0, 0, 0, Answered);
      ExamineMovesForward(counted, unbegun, 0, now);
      var r := Examine(counted, unbegun, 0, now).request;
      if r.phase.Acquiring? && r.phase.i > 0 {
        LaterPlaceAllowsMore(o, 0, r.phase.i, 0);
        assert (|g.health| - r.phase.i) * (o.maxRetries + 1) + r.phase.i * (o.maxRetries + 1)
          == |g.health| * (o.maxRetries + 1);
      }
    }
  }

  /** The whole life of a request. */
  lemma RequestSettlesInBoundedAttempts(
      o: Options, g: Gate, rpcMethod: Option<Method>, begin: int, moments: seq<Moment>, end: Request)
    requires Life(o, |g.health|, Begin(o, g, rpcMethod, begin, false).request, moments, end)
    ensures end.attempts <= |g.health| * (o.maxRetries + 1)
    ensures |moments| <= 3 * (|g.health| * (o.maxRetries + 1))
  {
    BegunWithinAllowance(o, g, rpcMethod, begin, false);
    AttemptsAreBounded(o, |g.health|, Begin(o, g, rpcMethod, begin, false).request, moments, end);
    if |g.health| > 0 {
      LaterPlaceAllowsMore(o, 0, |g.health|, 0);
    }
  }

  // ---- what counts as evidence ---------------------------------------------------------------------------------------

  /**
   * An endpoint is blamed only after an attempt was made there; a turn without one is told apart, and so is an attempt
   * whose window our own deadline cut short. A timeout is held against it only when the window was the full one.
   */
  lemma EvidenceIsFair(o: Options, g: Gate, r: Request, e: Event, now: int, aborted: bool)
    requires Fits(r.phase, e) && r.phase.i < |g.health|
    ensures var p := Continue(o, g, r, e, now, aborted); p.Concludes? ==>
      && (p.outcome.NotAttempted? <==> r.phase.Acquiring? && r.phase.attempt == 0)
      && (p.outcome.LocalDeadline? ==> r.phase.Attempting? && r.phase.effectiveTimeoutMs < o.timeoutMs)
      && (p.outcome.FailedThere? && !aborted && (e.AttemptTimedOut? || e.AttemptAbandoned?)
          ==> r.phase.effectiveTimeoutMs >= o.timeoutMs)
  {}

  /** What a concluded turn does to the endpoint: nothing but blame or a success moves its failure count. */
  lemma OnlyEvidenceMovesTheCircuit(
      o: Options, g: Gate, r: Request, i: nat, outcome: EndpointOutcome, now: int, aborted: bool)
    requires i < |g.health|
    ensures var after := Settle(o, g, r, i, outcome, now, aborted).gate;
      && |after.health| == |g.health|
      && (forall k | 0 <= k < |g.health| && k != i :: after.health[k] == g.health[k])
      && after.health[i].unsupportedUntil == g.health[i].unsupportedUntil
      && after.health[i].consecutiveFailures ==
         (if outcome.Ok? then 0
          else g.health[i].consecutiveFailures
               + if !aborted && Blames(g.health[i], r.rpcMethod, outcome, now) then 1 else 0)
      && (after.health[i].openUntil != g.health[i].openUntil
          ==> after.health[i].consecutiveFailures >= o.circuitFailureThreshold)
      && after.logicalRequests == g.logicalRequests
  {
    if !outcome.Ok? && !aborted && now < r.deadline {
      var h := g.health[i];
      var noted := if h.Unsupports(r.rpcMethod, now) then r.(unsupported := r.unsupported + 1) else r;
      var blamed :=
        if Blames(h, r.rpcMethod, outcome, now) then g.(health := g.health[i := AfterFailure(o, h, now)]) else g;
      ExamineMovesForward(blamed, noted, i + 1, now);
    }
  }

  // ---- the gate's own fields -------------------------------------------------------------------------------------------

  /** The gate's counters and the health of its endpoints, changed in place by each part of execute. */
  class ProviderGate {
    const o: Options
    var health: seq<Health>
    var inFlight: int
    var logicalRequests: nat
    var logicalFailures: nat
    var answered: nat

    ghost function View(): Gate
      reads this
    {
      Gate(health, inFlight, logicalRequests, logicalFailures, answered)
    }

    constructor (options: Options, endpoints: nat)
      requires endpoints > 0
      ensures o == options && View() == Gate(seq(endpoints, _ => Health(0, 0, map[])), 0, 0, 0, 0)
    {
      o := options;
      health := seq(endpoints, _ => Health(0, 0, map[]));
      inFlight, logicalRequests, logicalFailures, answered := 0, 0, 0, 0;
    }

    method RejectRequest(r: Request, now: int, aborted: bool) returns (q: Request)
      modifies this
      ensures Turn(View(), q) == Reject(old(View()), r, now, aborted)
    {
      logicalFailures := logicalFailures + 1;
      inFlight := inFlight - 1;
      q := r.(phase := Rejected(FailureReason(r, now, aborted)));
    }

    method ExamineFrom(r: Request, first: nat, now: int) returns (q: Request)
      modifies this
      ensures Turn(View(), q) == Examine(old(View()), r, first, now)
    {
      q := r;
      var i := first;
      while i < |health|
        invariant View() == old(View())
        invariant Examine(View(), q, i, now) == Examine(View(), r, first, now)
        decreases |health| - i
      {
        if health[i].openUntil > now {
          q := q.(circuit := q.circuit + 1);
        } else if health[i].Unsupports(q.rpcMethod, now) {
          q := q.(unsupported := q.unsupported + 1);
        } else {
          q := q.(considered := q.considered + 1, phase := Acquiring(i, 0));
          return;
        }
        i := i + 1;
      }
      q := RejectRequest(q, now, false);
    }

    method BeginRequest(rpcMethod: Option<Method>, now: int, aborted: bool) returns (q: Request)
      modifies this
      ensures Turn(View(), q) == Begin(o, old(View()), rpcMethod, now, aborted)
    {
      logicalRequests := logicalRequests + 1;
      q := Request(rpcMethod, now + o.maxTotalMs, 0, false, false, 0, 0, 0, Answered);
      if aborted {
        logicalFailures := logicalFailures + 1;
        q := q.(phase := Rejected(ShutDown));
        return;
      }
      inFlight := inFlight + 1;
      q := ExamineFrom(q, 0, now);
    }

    method SettleTurn(r: Request, i: nat, outcome: EndpointOutcome, now: int, aborted: bool) returns (q: Request)
      requires i < |health|
      modifies this
      ensures Turn(View(), q) == Settle(o, old(View()), r, i, outcome, now, aborted)
    {
      q := r;
      if outcome.Ok? {
        health := health[i := health[i].(consecutiveFailures := 0)];
        answered := answered + 1;
        inFlight := inFlight - 1;
        q := q.(phase := Answered);
        return;
      }
      if aborted {
        q := RejectRequest(q, now, true);
        return;
      }
      if health[i].Unsupports(r.rpcMethod, now) {
        q := q.(unsupported := q.unsupported + 1);
      } else if outcome.FailedThere? {
        var h := health[i].(consecutiveFailures := health[i].consecutiveFailures + 1);
        if h.consecutiveFailures >= o.circuitFailureThreshold && h.openUntil <= now {
          h := h.(openUntil := now + o.circuitCooldownMs);
        }
        health := health[i := h];
      }
      if now >= r.deadline {
        q := RejectRequest(q, now, false);
      } else {
        q := ExamineFrom(q, i + 1, now);
      }
    }

    /** The segment of tryEndpoint after an await; the outcome is present when the turn at the endpoint is over. */
    method ContinueTurn(r: Request, e: Event, now: int, aborted: bool)
      returns (q: Request, outcome: Option<EndpointOutcome>)
      requires Fits(r.phase, e) && r.phase.i < |health|
      modifies this
      ensures Continue(o, old(View()), r, e, now, aborted)
        == if outcome.Some? then Concludes(View(), q, outcome.value) else Rests(View(), q)
    {
      q, outcome := r, None;
      var i, attempt := r.phase.i, r.phase.attempt;
      if e.SlotGranted? {
        var begun := Attempting(i, attempt, now, EffectiveTimeout(o, r.deadline, now));
        q := q.(attempts := q.attempts + 1, phase := begun);
      } else if e.SlotRefused? {
        outcome := Some(if attempt > 0 then FailedThere else NotAttempted);
      } else if e.SleepAborted? || (e.SleepOver? && aborted) {
        outcome := Some(FailedThere);
      } else if e.SleepOver? {
        q := q.(phase := Acquiring(i, attempt + 1));
      } else {
        var truncated := r.phase.effectiveTimeoutMs < o.timeoutMs;
        if NeverServed(r.rpcMethod, e) {
          var known := health[i].unsupportedUntil[r.rpcMethod.value := now + o.unsupportedCooldownMs];
          health := health[i := health[i].(unsupportedUntil := known)];
        } else if e.Responded? && e.status == 429 {
          q := q.(seenRate := true);
        } else if !truncated && (e.AttemptAbandoned? || (e.AttemptTimedOut? && !aborted)) {
          q := q.(seenTimeout := true);
        }
        match Judge(r.rpcMethod, truncated, aborted, e) {
          case Success => outcome := Some(Ok);
          case CutShort => outcome := Some(LocalDeadline);
          case GiveUp => outcome := Some(FailedThere);
          case Retry(delayMs) =>
            if attempt >= o.maxRetries || now + delayMs >= r.deadline {
              outcome := Some(FailedThere);
            } else {
              q := q.(phase := BackingOff(i, attempt, now + delayMs));
            }
        }
      }
    }

    method AdvanceRequest(r: Request, e: Event, now: int, aborted: bool) returns (q: Request)
      requires Fits(r.phase, e) && r.phase.i < |health|
      modifies this
      ensures Turn(View(), q) == Advance(o, old(View()), r, e, now, aborted)
    {
      var outcome;
      q, outcome := ContinueTurn(r, e, now, aborted);
      if outcome.Some? {
        q := SettleTurn(q, r.phase.i, outcome.value, now, aborted);
      }
    }
  }

  // ---- every request at once -----------------------------------------------------------------------------------------

  /** An attempt that ended: where, the window it had, and whether its timers ended it. */
  datatype Attempt = Attempt(endpoint: nat, window: int, timedOut: bool)

  /** What a concluded turn taught about its endpoint; a blame carries the attempts of the turn. */
  datatype Lesson = Cleared | Blamed(attempts: seq<Attempt>) | Nothing

  function LessonOf(
    h: Health, rpcMethod: Option<Method>, outcome: EndpointOutcome, now: int, aborted: bool, attempts: seq<Attempt>): Lesson
  {
    if outcome.Ok? then Cleared
    else if !aborted && Blames(h, rpcMethod, outcome, now) then Blamed(attempts)
    else Nothing
  }

  /** Blames since the last success. */
  function TrailingBlames(lessons: seq<Lesson>): nat {
    if lessons == [] then 0
    else
      var rest := lessons[..|lessons| - 1];
      match lessons[|lessons| - 1]
      case Cleared => 0
      case Blamed(_) => TrailingBlames(rest) + 1
      case Nothing => TrailingBlames(rest)
  }

  /** The gate, the requests in flight with the attempts of their turns so far, and what each endpoint's turns taught. */
  datatype World = World(
    gate: Gate, live: map<nat, Request>, turns: map<nat, seq<Attempt>>, lessons: seq<seq<Lesson>>)

  function TurnOf(w: World, id: nat): seq<Attempt> {
    if id in w.turns then w.turns[id] else []
  }

  /** The attempt an event ends. */
  function EndedBy(phase: Phase, e: Event): seq<Attempt> {
    if phase.Attempting? then
      [Attempt(phase.i, phase.effectiveTimeoutMs, e.AttemptTimedOut? || e.AttemptAbandoned?)]
    else []
  }

  datatype Step =
    | Begins(id: nat, rpcMethod: Option<Method>, now: int, aborted: bool)
    | Happens(id: nat, event: Event, now: int, aborted: bool)

  ghost predicate Enabled(w: World, step: Step) {
    match step
    case Begins(id, _, _, _) => id !in w.live
    case Happens(id, e, _, _) =>
      id in w.live && Fits(w.live[id].phase, e) && w.live[id].phase.i < |w.gate.health| == |w.lessons|
  }

  ghost function Placed(w: World, id: nat, t: Turn): World {
    w.(gate := t.gate, live := if t.request.phase.Settled() then w.live - {id} else w.live[id := t.request])
  }

  ghost function Next(o: Options, w: World, step: Step): World
    requires Enabled(w, step)
  {
    match step
    case Begins(id, rpcMethod, now, aborted) =>
      Placed(w, id, Begin(o, w.gate, rpcMethod, now, aborted)).(turns := w.turns[id := []])
    case Happens(id, e, now, aborted) =>
      var r := w.live[id];
      var after := Placed(w, id, Advance(o, w.gate, r, e, now, aborted));
      var p := Continue(o, w.gate, r, e, now, aborted);
      var turn := TurnOf(w, id) + EndedBy(r.phase, e);
      if p.Rests? then after.(turns := w.turns[id := turn])
      else
        var i := r.phase.i;
        var lesson := LessonOf(p.gate.health[i], r.rpcMethod, p.outcome, now, aborted, turn);
        after.(turns := w.turns[id := []], lessons := w.lessons[i := w.lessons[i] + [lesson]])
  }

  ghost predicate Reachable(o: Options, w: World, steps: seq<Step>, end: World)
    decreases |steps|
  {
    if steps == [] then end == w
    else Enabled(w, steps[0]) && Reachable(o, Next(o, w, steps[0]), steps[1..], end)
  }

  ghost predicate Accounted(g: Gate, live: nat) {
    g.inFlight == live && g.logicalRequests == g.answered + g.logicalFailures + g.inFlight
  }

  ghost predicate Counted(w: World) {
    Accounted(w.gate, |w.live.Keys|) && forall id | id in w.live :: !w.live[id].phase.Settled()
  }

  ghost predicate Learned(w: World) {
    && |w.lessons| == |w.gate.health|
    && forall k | 0 <= k < |w.lessons| :: w.gate.health[k].consecutiveFailures == TrailingBlames(w.lessons[k])
  }

  /** A turn's effect on the counts: a request that settles is answered or failed, once. */
  lemma SettleAccounts(
      o: Options, g: Gate, r: Request, i: nat, outcome: EndpointOutcome, now: int, aborted: bool, live: nat)
    requires i < |g.health| && Accounted(g, live) && live > 0
    ensures var t := Settle(o, g, r, i, outcome, now, aborted);
      Accounted(t.gate, if t.request.phase.Settled() then live - 1 else live)
  {
    if !outcome.Ok? && !aborted && now < r.deadline {
      var h := g.health[i];
      var noted := if h.Unsupports(r.rpcMethod, now) then r.(unsupported := r.unsupported + 1) else r;
      var blamed :=
        if Blames(h, r.rpcMethod, outcome, now) then g.(health := g.health[i := AfterFailure(o, h, now)]) else g;
      ExamineMovesForward(blamed, noted, i + 1, now);
    }
  }

  lemma AdvanceAccounts(o: Options, g: Gate, r: Request, e: Event, now: int, aborted: bool, live: nat)
    requires Fits(r.phase, e) && r.phase.i < |g.health| && Accounted(g, live) && live > 0
    ensures var t := Advance(o, g, r, e, now, aborted);
      Accounted(t.gate, if t.request.phase.Settled() then live - 1 else live)
  {
    var p := Continue(o, g, r, e, now, aborted);
    assert p.gate == g.(health := p.gate.health);
    if p.Concludes? {
      SettleAccounts(o, p.gate, p.request, r.phase.i, p.outcome, now, aborted, live);
    }
  }

  lemma HappeningKeepsCounts(o: Options, w: World, step: Step)
    requires Counted(w) && step.Happens? && Enabled(w, step)
    ensures Counted(Next(o, w, step))
  {
    var after := Next(o, w, step);
    var id := step.id;
    assert id in w.live.Keys;
    AdvanceAccounts(o, w.gate, w.live[id], step.event, step.now, step.aborted, |w.live.Keys|);
    assert after.live.Keys == w.live.Keys || after.live.Keys == w.live.Keys - {id};
  }

  lemma BeginAccounts(o: Options, g: Gate, rpcMethod: Option<Method>, now: int, aborted: bool, live: nat)
    requires Accounted(g, live)
    ensures var t := Begin(o, g, rpcMethod, now, aborted);
      Accounted(t.gate, if t.request.phase.Settled() then live else live + 1) && t.gate.health == g.health
  {
    if !aborted {
      var begun := g.(logicalRequests := g.logicalRequests + 1, inFlight := g.inFlight + 1);
      var r := Request(rpcMethod, now + o.maxTotalMs, 0, false, false, 0, 0, 0, Answered);
      ExamineMovesForward(begun, r, 0, now);
    }
  }

  lemma BeginningKeepsCounts(o: Options, w: World, step: Step)
    requires Counted(w) && step.Begins? && Enabled(w, step)
    ensures Counted(Next(o, w, step)) && Next(o, w, step).gate.health == w.gate.health
  {
    var after := Next(o, w, step);
    BeginAccounts(o, w.gate, step.rpcMethod, step.now, step.aborted, |w.live.Keys|);
    assert after.live.Keys == w.live.Keys || after.live.Keys == w.live.Keys + {step.id};
  }

  /** An attempt in progress does not move any failure count. */
  lemma ContinueKeepsFailures(o: Options, g: Gate, r: Request, e: Event, now: int, aborted: bool, k: nat)
    requires Fits(r.phase, e) && r.phase.i < |g.health| && k < |g.health|
    ensures var p := Continue(o, g, r, e, now, aborted);
      && |p.gate.health| == |g.health| && p.request.rpcMethod == r.rpcMethod
      && p.gate.health[k].consecutiveFailures == g.health[k].consecutiveFailures
  {}

  lemma HappeningKeepsLessons(o: Options, w: World, step: Step)
    requires Learned(w) && step.Happens? && Enabled(w, step)
    ensures Learned(Next(o, w, step))
  {
    var r := w.live[step.id];
    var p := Continue(o, w.gate, r, step.event, step.now, step.aborted);
    var after := Next(o, w, step);
    var i := r.phase.i;
    ContinueKeepsFailures(o, w.gate, r, step.event, step.now, step.aborted, i);
    if p.Concludes? {
      OnlyEvidenceMovesTheCircuit(o, p.gate, p.request, i, p.outcome, step.now, step.aborted);
      var turn := TurnOf(w, step.id) + EndedBy(r.phase, step.event);
      var lesson := LessonOf(p.gate.health[i], r.rpcMethod, p.outcome, step.now, step.aborted, turn);
      assert (w.lessons[i] + [lesson])[..|w.lessons[i]|] == w.lessons[i];
    }
    forall k | 0 <= k < |after.lessons|
      ensures after.gate.health[k].consecutiveFailures == TrailingBlames(after.lessons[k])
    {
      ContinueKeepsFailures(o, w.gate, r, step.event, step.now, step.aborted, k);
    }
  }

  /**
   * Over every run of every request: each logical request is answered, failed or in flight; and an endpoint's failure
   * count is the number of blames since its last success, whatever else happened there meanwhile.
   */
  lemma {:induction false} RequestsAreAccountedFor(o: Options, w: World, steps: seq<Step>, end: World)
    requires Counted(w) && Learned(w) && Reachable(o, w, steps, end)
    ensures Counted(end) && Learned(end)
    decreases |steps|
  {
    if steps != [] {
      var step := steps[0];
      if step.Begins? {
        BeginningKeepsCounts(o, w, step);
      } else {
        HappeningKeepsCounts(o, w, step);
        HappeningKeepsLessons(o, w, step);
      }
      RequestsAreAccountedFor(o, Next(o, w, step), steps[1..], end);
    }
  }

  ghost function Start(endpoints: nat): World {
    World(Gate(seq(endpoints, _ => Health(0, 0, map[])), 0, 0, 0, 0), map[], map[], seq(endpoints, _ => []))
  }

  lemma EveryRunIsAccountedFor(o: Options, endpoints: nat, steps: seq<Step>, end: World)
    requires Reachable(o, Start(endpoints), steps, end)
    ensures end.gate.inFlight == |end.live.Keys|
    ensures end.gate.logicalRequests == end.gate.answered + end.gate.logicalFailures + end.gate.inFlight
    ensures |end.lessons| == |end.gate.health|
    ensures forall k | 0 <= k < |end.lessons| ::
      end.gate.health[k].consecutiveFailures == TrailingBlames(end.lessons[k])
  {
    RequestsAreAccountedFor(o, Start(endpoints), steps, end);
  }

  // ---- blame over whole runs -----------------------------------------------------------------------------------------

  /** Attempts made at one endpoint, of which none that timed out had less than the full window. */
  ghost predicate FairAttempts(o: Options, attempts: seq<Attempt>, endpoint: nat) {
    forall j | 0 <= j < |attempts| ::
      attempts[j].endpoint == endpoint && (attempts[j].timedOut ==> attempts[j].window >= o.timeoutMs)
  }

  ghost predicate FairBlame(o: Options, lesson: Lesson, endpoint: nat) {
    lesson.Blamed? ==> lesson.attempts != [] && FairAttempts(o, lesson.attempts, endpoint)
  }

  /** The attempts of a turn that goes on are fair, and as many as its attempt number says. */
  ghost predicate FairTurn(o: Options, phase: Phase, turn: seq<Attempt>) {
    !phase.Settled() ==>
      && FairAttempts(o, turn, phase.i)
      && |turn| == phase.attempt + if phase.BackingOff? then 1 else 0
  }

  ghost predicate Fair(o: Options, w: World) {
    && (forall id | id in w.live :: FairTurn(o, w.live[id].phase, TurnOf(w, id)))
    && (forall k, j | 0 <= k < |w.lessons| && 0 <= j < |w.lessons[k]| :: FairBlame(o, w.lessons[k][j], k))
  }

  /** A turn that goes on after an attempt goes on with a fair one; a turn that ends in a blame ended fairly. */
  lemma ContinueIsFair(o: Options, g: Gate, r: Request, e: Event, now: int, aborted: bool, turn: seq<Attempt>)
    requires Fits(r.phase, e) && r.phase.i < |g.health| && FairTurn(o, r.phase, turn)
    ensures var p := Continue(o, g, r, e, now, aborted);
      var longer := turn + EndedBy(r.phase, e);
      && (p.Rests? ==> FairTurn(o, p.request.phase, longer))
      && (p.Concludes? && !aborted && p.outcome.FailedThere?
          ==> longer != [] && FairAttempts(o, longer, r.phase.i))
  {
    EvidenceIsFair(o, g, r, e, now, aborted);
  }

  lemma BeginningIsFair(o: Options, w: World, step: Step)
    requires Fair(o, w) && step.Begins? && Enabled(w, step)
    ensures Fair(o, Next(o, w, step))
  {
    var after := Next(o, w, step);
    BegunWithinAllowance(o, w.gate, step.rpcMethod, step.now, step.aborted);
    BeginsAtFirstAttempt(o, w.gate, step.rpcMethod, step.now, step.aborted);
    forall id | id in after.live
      ensures FairTurn(o, after.live[id].phase, TurnOf(after, id))
    {
      assert id != step.id ==> after.live[id] == w.live[id] && TurnOf(after, id) == TurnOf(w, id);
    }
  }

  lemma BeginsAtFirstAttempt(o: Options, g: Gate, rpcMethod: Option<Method>, now: int, aborted: bool)
    ensures var phase := Begin(o, g, rpcMethod, now, aborted).request.phase;
      phase.Settled() || (phase.Acquiring? && phase.attempt == 0)
  {
    if !aborted {
      var begun := g.(logicalRequests := g.logicalRequests + 1, inFlight := g.inFlight + 1);
      ExamineMovesForward(begun, Request(rpcMethod, now + o.maxTotalMs, 0, false, false, 0, 0, 0, Answered), 0, now);
    }
  }

  lemma HappeningIsFair(o: Options, w: World, step: Step)
    requires Fair(o, w) && step.Happens? && Enabled(w, step)
    ensures Fair(o, Next(o, w, step))
  {
    var after, id, r := Next(o, w, step), step.id, w.live[step.id];
    ContinueIsFair(o, w.gate, r, step.event, step.now, step.aborted, TurnOf(w, id));
    var p := Continue(o, w.gate, r, step.event, step.now, step.aborted);
    if p.Concludes? {
      SettleMovesForward(o, p.gate, p.request, r.phase.i, p.outcome, step.now, step.aborted);
    }
    forall other | other in after.live
      ensures FairTurn(o, after.live[other].phase, TurnOf(after, other))
    {
      assert other != id ==> after.live[other] == w.live[other] && TurnOf(after, other) == TurnOf(w, other);
    }
    LessonsStayFair(o, w, step, after, p);
  }

  lemma LessonsStayFair(o: Options, w: World, step: Step, after: World, p: Progress)
    requires Fair(o, w) && step.Happens? && Enabled(w, step) && after == Next(o, w, step)
    requires p == Continue(o, w.gate, w.live[step.id], step.event, step.now, step.aborted)
    ensures forall k, j | 0 <= k < |after.lessons| && 0 <= j < |after.lessons[k]| ::
      FairBlame(o, after.lessons[k][j], k)
  {
    var r := w.live[step.id];
    ContinueIsFair(o, w.gate, r, step.event, step.now, step.aborted, TurnOf(w, step.id));
    forall k, j | 0 <= k < |after.lessons| && 0 <= j < |after.lessons[k]|
      ensures FairBlame(o, after.lessons[k][j], k)
    {
      if j < |w.lessons[k]| {
        assert after.lessons[k][j] == w.lessons[k][j];
      }
    }
  }

  lemma {:induction false} BlamesStayFair(o: Options, w: World, steps: seq<Step>, end: World)
    requires Fair(o, w) && Reachable(o, w, steps, end)
    ensures Fair(o, end)
    decreases |steps|
  {
    if steps != [] {
      if steps[0].Begins? {
        BeginningIsFair(o, w, steps[0]);
      } else {
        HappeningIsFair(o, w, steps[0]);
      }
      BlamesStayFair(o, Next(o, w, steps[0]), steps[1..], end);
    }
  }

  /**
   * Over every run of every request: each blame that counts toward an endpoint's failures rests on at least one
   * attempt, all of them made at that endpoint in the turn that was blamed, and any of them that timed out had the
   * full window; requests that were never given a slot, or whose window our own deadline cut short, count for nothing.
   */
  lemma EveryBlameIsFair(o: Options, endpoints: nat, steps: seq<Step>, end: World, k: nat, j: nat)
    requires Reachable(o, Start(endpoints), steps, end)
    requires k < |end.lessons| && j < |end.lessons[k]| && end.lessons[k][j].Blamed?
    ensures k < |end.gate.health| && end.gate.health[k].consecutiveFailures == TrailingBlames(end.lessons[k])
    ensures end.lessons[k][j].attempts != [] && FairAttempts(o, end.lessons[k][j].attempts, k)
  {
    BlamesStayFair(o, Start(endpoints), steps, end);
    EveryRunIsAccountedFor(o, endpoints, steps, end);
    assert FairBlame(o, end.lessons[k][j], k);
  }
}
