/**
 * One endpoint of the request gate: a bound on concurrent attempts, a rate-limit clock and a first-come waiting line.
 *
 * Each segment between two awaits is one transition. A waiter that is woken takes its place in `active` only when its
 * await resumes, so between the two it is counted by nobody.
 */
module EndpointGate {
  import opened Prelude

  type Ms = x: real | x >= 0.0

  /** Bound on concurrent attempts, and milliseconds between two rate-limit slots. */
  datatype Limits = Limits(maxConcurrent: nat, spacing: Ms)

  function LimitsFor(maxConcurrent: nat, maxRequestsPerSecond: real): Limits {
    Limits(maxConcurrent, if maxRequestsPerSecond > 0.0 then 1000.0 / maxRequestsPerSecond else 0.0)
  }

  /** The time n spacings take. */
  function Spacings(n: nat, spacing: Ms): Ms {
    if n == 0 then 0.0 else Spacings(n - 1, spacing) + spacing
  }

  lemma {:induction false} SpacingsAreAProduct(n: nat, spacing: Ms)
    ensures Spacings(n, spacing) == n as real * spacing
  {
    if n > 0 {
      SpacingsAreAProduct(n - 1, spacing);
    }
  }

  lemma {:induction false} MoreSpacings(a: nat, b: nat, spacing: Ms)
    requires a <= b
    ensures Spacings(a, spacing) <= Spacings(b, spacing)
  {
    if a < b {
      MoreSpacings(a, b - 1, spacing);
    }
  }

  /** A caller of acquire with the deadline of its logical request. */
  datatype Ticket = Ticket(id: nat, deadline: real)

  datatype Gate = Gate(active: nat, nextSlotAt: real, waiters: seq<Ticket>)

  datatype Outcome = Refused | Queued | Sleeping(slot: real) | Granted(slot: real)

  /** What a segment leaves behind: the endpoint, where the caller now stands, and the waiter it woke. */
  datatype Effect = Effect(gate: Gate, outcome: Outcome, woken: Option<Ticket>)

  function PlaceIn(t: Ticket, line: seq<Ticket>): (i: nat)
    ensures i <= |line|
    ensures i < |line| ==> line[i] == t
  {
    if line == [] || line[0] == t then 0 else 1 + PlaceIn(t, line[1..])
  }

  function Release(g: Gate): Effect {
    var left := g.(active := if g.active == 0 then 0 else g.active - 1);
    if g.waiters == [] then Effect(left, Refused, None)
    else Effect(left.(waiters := g.waiters[1..]), Refused, Some(g.waiters[0]))
  }

  /** The spacing section: runs with a concurrency slot in hand and moves the clock only for a slot it can honour. */
  function Reserve(o: Limits, g: Gate, t: Ticket, now: real): Effect {
    var slot := if g.nextSlotAt > now then g.nextSlotAt else now;
    if slot >= t.deadline then Release(g)
    else
      var moved := g.(nextSlotAt := slot + o.spacing);
      Effect(moved, if slot > now then Sleeping(slot) else Granted(slot), None)
  }

  function Acquire(o: Limits, g: Gate, t: Ticket, now: real): Effect {
    if g.active >= o.maxConcurrent then
      if t.deadline - now <= 0.0 then Effect(g, Refused, None)
      else Effect(g.(waiters := g.waiters + [t]), Queued, None)
    else Reserve(o, g.(active := g.active + 1), t, now)
  }

  function Resume(o: Limits, g: Gate, t: Ticket, now: real, aborted: bool): Effect {
    if aborted then Effect(g, Refused, None) else Reserve(o, g.(active := g.active + 1), t, now)
  }

  function Expire(g: Gate, t: Ticket): Gate {
    var i := PlaceIn(t, g.waiters);
    if i < |g.waiters| then g.(waiters := g.waiters[..i] + g.waiters[i + 1..]) else g
  }

  function WakeFromSleep(g: Gate, slot: real, aborted: bool): Effect {
    if aborted then Release(g) else Effect(g, Granted(slot), None)
  }

  /** The endpoint's fields, changed in place by each segment. */
  class EndpointState {
    const o: Limits
    var active: nat
    var nextSlotAt: real
    var waiters: seq<Ticket>

    ghost function View(): Gate
      reads this
    {
      Gate(active, nextSlotAt, waiters)
    }

    constructor (maxConcurrent: nat, maxRequestsPerSecond: real)
      ensures o == LimitsFor(maxConcurrent, maxRequestsPerSecond) && View() == Gate(0, 0.0, [])
    {
      o := LimitsFor(maxConcurrent, maxRequestsPerSecond);
      active, nextSlotAt, waiters := 0, 0.0, [];
    }

    method ReleaseSlot() returns (woken: Option<Ticket>)
      modifies this
      ensures View() == Release(old(View())).gate && woken == Release(old(View())).woken
    {
      active := if active == 0 then 0 else active - 1;
      woken := None;
      if |waiters| > 0 {
        woken := Some(waiters[0]);
        waiters := waiters[1..];
      }
    }

    method ReserveSlot(t: Ticket, now: real) returns (outcome: Outcome, woken: Option<Ticket>)
      modifies this
      ensures Effect(View(), outcome, woken) == Reserve(o, old(View()), t, now)
    {
      var slot := now;
      if nextSlotAt > now {
        slot := nextSlotAt;
      }
      if slot >= t.deadline {
        woken := ReleaseSlot();
        return Refused, woken;
      }
      nextSlotAt := slot + o.spacing;
      outcome := if slot > now then Sleeping(slot) else Granted(slot);
      woken := None;
    }

    method AcquireSlot(t: Ticket, now: real) returns (outcome: Outcome, woken: Option<Ticket>)
      modifies this
      ensures Effect(View(), outcome, woken) == Acquire(o, old(View()), t, now)
    {
      if active >= o.maxConcurrent {
        var remaining := t.deadline - now;
        if remaining <= 0.0 {
          return Refused, None;
        }
        waiters := waiters + [t];
        return Queued, None;
      }
      active := active + 1;
      outcome, woken := ReserveSlot(t, now);
    }

    method ResumeWaiter(t: Ticket, now: real, aborted: bool) returns (outcome: Outcome, woken: Option<Ticket>)
      modifies this
      ensures Effect(View(), outcome, woken) == Resume(o, old(View()), t, now, aborted)
    {
      if aborted {
        return Refused, None;
      }
      active := active + 1;
      outcome, woken := ReserveSlot(t, now);
    }

    method ExpireWaiter(t: Ticket)
      modifies this
      ensures View() == Expire(old(View()), t)
    {
      var i := 0;
      while i < |waiters| && waiters[i] != t
        invariant i <= |waiters|
        invariant PlaceIn(t, waiters) == i + PlaceIn(t, waiters[i..])
        invariant View() == old(View())
      {
        assert waiters[i..][1..] == waiters[i + 1..];
        i := i + 1;
      }
      if i < |waiters| {
        waiters := waiters[..i] + waiters[i + 1..];
      }
    }

    method EndSleep(slot: real, aborted: bool) returns (outcome: Outcome, woken: Option<Ticket>)
      modifies this
      ensures Effect(View(), outcome, woken) == WakeFromSleep(old(View()), slot, aborted)
    {
      outcome, woken := Granted(slot), None;
      if aborted {
        woken := ReleaseSlot();
        outcome := Refused;
      }
    }
  }

  // ---- runs --------------------------------------------------------------------------------------------------------

  datatype Grant = Grant(ticket: Ticket, slot: real)

  /**
   * The endpoint with everyone concerned by it: waiters woken but not yet resumed, callers asleep until their slot,
   * callers whose attempt runs; the waits begun and resolved so far, and every slot handed out, in order.
   */
  datatype World = World(
    gate: Gate, now: real, aborted: bool,
    woken: set<Ticket>, sleeping: map<Ticket, real>, running: set<Ticket>,
    queued: multiset<Ticket>, resolved: multiset<Ticket>, grants: seq<Grant>)

  datatype Step =
    | Tick(to: real)
    | Arrive(t: Ticket)
    | WaiterResumes(t: Ticket)
    | WaiterTimesOut(t: Ticket)
    | SleepEnds(t: Ticket)
    | AttemptEnds(t: Ticket)
    | Shutdown

  ghost function Start(now: real): World {
    World(Gate(0, 0.0, []), now, false, {}, map[], {}, multiset{}, multiset{}, [])
  }

  /** Waiters whose promise is still pending: the abort signal resolves all of them at once. */
  ghost function Waiting(w: World): seq<Ticket> {
    if w.aborted then [] else w.gate.waiters
  }

  ghost predicate Busy(w: World, t: Ticket) {
    t in Waiting(w) || t in w.woken || t in w.sleeping || t in w.running
  }

  /** Timers are never early: a sleep ends at its slot or later, a wait times out at its deadline or later. */
  ghost predicate Enabled(w: World, step: Step) {
    match step
    case Tick(to) => to >= w.now
    case Arrive(t) => !w.aborted && !Busy(w, t)
    case WaiterResumes(t) => t in w.woken
    case WaiterTimesOut(t) => !w.aborted && t in w.gate.waiters && w.now >= t.deadline
    case SleepEnds(t) => t in w.sleeping && (w.aborted || w.sleeping[t] <= w.now)
    case AttemptEnds(t) => t in w.running
    case Shutdown => !w.aborted
  }

  /** A promise already settled by the abort is not resolved a second time. */
  ghost function Wake(w: World, woken: Option<Ticket>): World {
    if woken.None? || w.aborted then w
    else w.(woken := w.woken + {woken.value}, resolved := w.resolved + multiset{woken.value})
  }

  ghost function Settle(w: World, t: Ticket, e: Effect): World {
    var after := Wake(w.(gate := e.gate), e.woken);
    match e.outcome
    case Refused => after
    case Queued => after.(queued := w.queued + multiset{t})
    case Sleeping(slot) => after.(sleeping := w.sleeping[t := slot], grants := w.grants + [Grant(t, slot)])
    case Granted(slot) => after.(running := w.running + {t}, grants := w.grants + [Grant(t, slot)])
  }

  ghost function Next(o: Limits, w: World, step: Step): World
    requires Enabled(w, step)
  {
    match step
    case Tick(to) => w.(now := to)
    case Arrive(t) => Settle(w, t, Acquire(o, w.gate, t, w.now))
    case WaiterResumes(t) => Settle(w.(woken := w.woken - {t}), t, Resume(o, w.gate, t, w.now, w.aborted))
    case WaiterTimesOut(t) => w.(gate := Expire(w.gate, t), resolved := w.resolved + multiset{t})
    case SleepEnds(t) =>
      var e := WakeFromSleep(w.gate, w.sleeping[t], w.aborted);
      var after := Wake(w.(gate := e.gate, sleeping := w.sleeping - {t}), e.woken);
      if e.outcome.Granted? then after.(running := w.running + {t}) else after
    case AttemptEnds(t) =>
      var e := Release(w.gate);
      Wake(w.(gate := e.gate, running := w.running - {t}), e.woken)
    case Shutdown =>
      w.(aborted := true, woken := w.woken + (set t | t in w.gate.waiters),
         resolved := w.resolved + multiset(w.gate.waiters))
  }

  ghost predicate Reachable(o: Limits, w: World, steps: seq<Step>, end: World)
    decreases |steps|
  {
    if steps == [] then end == w
    else Enabled(w, steps[0]) && Reachable(o, Next(o, w, steps[0]), steps[1..], end)
  }

  // ---- what every step keeps ---------------------------------------------------------------------------------------

  /** Nobody stands in two places. */
  ghost predicate Apart(w: World) {
    && NoRepeats(Waiting(w))
    && (forall t | t in Waiting(w) :: t !in w.woken && t !in w.sleeping && t !in w.running)
    && (forall t | t in w.woken :: t !in w.sleeping && t !in w.running)
    && (forall t | t in w.sleeping :: t !in w.running)
  }

  /** Every concurrency slot is held by one sleeper or one running attempt, but for those in hand within a segment. */
  ghost predicate SlotsHeld(w: World, inHand: nat) {
    w.gate.active == |w.sleeping.Keys| + |w.running| + inHand
  }

  ghost predicate NoSlotLost(o: Limits, w: World) {
    Waiting(w) != [] ==> w.gate.active + |w.woken| >= o.maxConcurrent
  }

  ghost predicate WaitsResolved(w: World) {
    w.queued == w.resolved + multiset(Waiting(w))
  }

  ghost predicate Places(o: Limits, w: World, inHand: nat) {
    Apart(w) && SlotsHeld(w, inHand) && NoSlotLost(o, w) && WaitsResolved(w)
  }

  /** Callers asleep toward a slot still ahead at an instant. */
  ghost function Ahead(sleeping: map<Ticket, real>, at: real): set<Ticket> {
    set t | t in sleeping && sleeping[t] > at
  }

  /** At an instant the clock is no further ahead than the sleepers account for. */
  ghost predicate Covered(spacing: Ms, nextSlotAt: real, sleeping: map<Ticket, real>, at: real) {
    nextSlotAt <= at + Spacings(|Ahead(sleeping, at)| + 1, spacing)
  }

  ghost predicate ClockTruthful(spacing: Ms, nextSlotAt: real, now: real, sleeping: map<Ticket, real>) {
    forall at: real | at >= now :: Covered(spacing, nextSlotAt, sleeping, at)
  }

  ghost predicate ClockFollowsGrants(spacing: Ms, nextSlotAt: real, grants: seq<Grant>) {
    nextSlotAt == if grants == [] then 0.0 else grants[|grants| - 1].slot + spacing
  }

  ghost predicate GrantsSpaced(spacing: Ms, grants: seq<Grant>) {
    forall i, j | 0 <= i < j < |grants| :: grants[j].slot >= grants[i].slot + Spacings(j - i, spacing)
  }

  ghost predicate GrantsInTime(grants: seq<Grant>) {
    forall i | 0 <= i < |grants| :: grants[i].slot < grants[i].ticket.deadline
  }

  ghost predicate Clock(o: Limits, w: World) {
    && (!w.aborted ==> ClockTruthful(o.spacing, w.gate.nextSlotAt, w.now, w.sleeping))
    && ClockFollowsGrants(o.spacing, w.gate.nextSlotAt, w.grants)
    && GrantsSpaced(o.spacing, w.grants) && GrantsInTime(w.grants)
  }

  ghost predicate Inv(o: Limits, w: World) {
    Places(o, w, 0) && Clock(o, w)
  }

  // Releasing a slot in hand.

  ghost function Freed(w: World): World {
    var e := Release(w.gate);
    Wake(w.(gate := e.gate), e.woken)
  }

  /** Taking one ticket out of a line without repeats. */
  lemma OneLeaves(line: seq<Ticket>, i: nat, rest: seq<Ticket>)
    requires NoRepeats(line) && i < |line| && rest == line[..i] + line[i + 1..]
    ensures NoRepeats(rest) && multiset(line) == multiset(rest) + multiset{line[i]}
    ensures forall t :: t in rest <==> t in line && t != line[i]
  {
    assert line == line[..i] + [line[i]] + line[i + 1..];
    OthersStay(line, i, rest);
  }

  lemma OthersStay(line: seq<Ticket>, i: nat, rest: seq<Ticket>)
    requires NoRepeats(line) && i < |line| && rest == line[..i] + line[i + 1..]
    ensures NoRepeats(rest) && forall t :: t in rest <==> t in line && t != line[i]
  {
    assert forall k | 0 <= k < |rest| :: rest[k] == line[if k < i then k else k + 1];
    forall k | 0 <= k < |line| && k != i
      ensures line[k] in rest
    {
      assert line[k] == rest[if k < i then k else k - 1];
    }
  }

  lemma FreeingKeepsPlaces(o: Limits, w: World)
    requires Places(o, w, 1)
    ensures Places(o, Freed(w), 0)
  {
    var line := w.gate.waiters;
    var after := Freed(w);
    if line == [] || w.aborted {
      assert Waiting(after) == Waiting(w) && after.woken == w.woken;
    } else {
      OneLeaves(line, 0, line[1..]);
      assert after.gate == Gate(w.gate.active - 1, w.gate.nextSlotAt, line[1..]);
      assert after.woken == w.woken + {line[0]} && after.resolved == w.resolved + multiset{line[0]};
      assert Apart(after);
    }
  }

  /** The clock does not depend on who waits or runs. */
  ghost predicate SameClock(v: World, w: World) {
    && v.gate.nextSlotAt == w.gate.nextSlotAt && v.now == w.now && v.aborted == w.aborted
    && v.sleeping == w.sleeping && v.grants == w.grants
  }

  lemma FreeingKeepsClock(w: World)
    ensures SameClock(Freed(w), w)
  {}

  // Reserving a rate-limit slot with a concurrency slot in hand.

  ghost function Reserved(o: Limits, w: World, t: Ticket): World {
    Settle(w, t, Reserve(o, w.gate, t, w.now))
  }

  /** The caller with a slot in hand keeps it, asleep or running. */
  lemma SleepingKeepsPlaces(o: Limits, w: World, t: Ticket, gate: Gate, slot: real, grants: seq<Grant>)
    requires Places(o, w, 1) && !Busy(w, t) && gate == w.gate.(nextSlotAt := gate.nextSlotAt)
    ensures Places(o, w.(gate := gate, sleeping := w.sleeping[t := slot], grants := grants), 0)
  {
    assert w.sleeping[t := slot].Keys == w.sleeping.Keys + {t};
  }

  lemma RunningKeepsPlaces(o: Limits, w: World, t: Ticket, gate: Gate, grants: seq<Grant>)
    requires Places(o, w, 1) && !Busy(w, t) && gate == w.gate.(nextSlotAt := gate.nextSlotAt)
    ensures Places(o, w.(gate := gate, running := w.running + {t}, grants := grants), 0)
  {}

  lemma ReservingKeepsPlaces(o: Limits, w: World, t: Ticket)
    requires Places(o, w, 1) && !w.aborted && !Busy(w, t)
    ensures Places(o, Reserved(o, w, t), 0)
  {
    var e := Reserve(o, w.gate, t, w.now);
    if e.outcome.Refused? {
      FreeingKeepsPlaces(o, w);
      assert Reserved(o, w, t) == Freed(w);
    } else if e.outcome.Sleeping? {
      SleepingKeepsPlaces(o, w, t, e.gate, e.outcome.slot, w.grants + [Grant(t, e.outcome.slot)]);
    } else {
      RunningKeepsPlaces(o, w, t, e.gate, w.grants + [Grant(t, e.outcome.slot)]);
    }
  }

  lemma ReservingKeepsClock(o: Limits, w: World, t: Ticket)
    requires Clock(o, w) && !w.aborted && !Busy(w, t)
    ensures Clock(o, Reserved(o, w, t))
  {
    var slot := if w.gate.nextSlotAt > w.now then w.gate.nextSlotAt else w.now;
    var after := Reserved(o, w, t);
    if slot >= t.deadline {
      FreeingKeepsClock(w);
      assert after == Freed(w);
    } else {
      AnotherGrant(o.spacing, w.gate.nextSlotAt, w.grants, Grant(t, slot));
      if slot > w.now {
        SleeperCovers(o.spacing, slot, w.now, w.sleeping, t);
      } else {
        OneSpacingIsCovered(o.spacing, slot, w.sleeping);
      }
    }
  }

  lemma AnotherGrant(spacing: Ms, nextSlotAt: real, grants: seq<Grant>, grant: Grant)
    requires ClockFollowsGrants(spacing, nextSlotAt, grants) && GrantsSpaced(spacing, grants)
    requires grant.slot >= nextSlotAt
    ensures GrantsSpaced(spacing, grants + [grant])
  {
    var n := |grants|;
    forall i | 0 <= i < n
      ensures grant.slot >= grants[i].slot + Spacings(n - i, spacing)
    {
      assert Spacings(n - i, spacing) == Spacings(n - 1 - i, spacing) + spacing;
    }
  }

  /** A clock at most one spacing past now needs no sleeper. */
  lemma OneSpacingIsCovered(spacing: Ms, now: real, sleeping: map<Ticket, real>)
    ensures ClockTruthful(spacing, now + spacing, now, sleeping)
  {
    var next := now + spacing;
    forall at: real | at >= now
      ensures Covered(spacing, next, sleeping, at)
    {
      MoreSpacings(1, |Ahead(sleeping, at)| + 1, spacing);
      assert Spacings(1, spacing) == Spacings(0, spacing) + spacing;
    }
  }

  /** A caller put to sleep until the clock's slot accounts for the spacing the clock moves. */
  lemma SleeperCovers(spacing: Ms, slot: real, now: real, sleeping: map<Ticket, real>, t: Ticket)
    requires ClockTruthful(spacing, slot, now, sleeping) && t !in sleeping
    ensures ClockTruthful(spacing, slot + spacing, now, sleeping[t := slot])
  {
    var asleep, next := sleeping[t := slot], slot + spacing;
    forall at: real | at >= now
      ensures Covered(spacing, next, asleep, at)
    {
      assert Covered(spacing, slot, sleeping, at);
      SleeperCoversAt(spacing, slot, sleeping, t, at);
    }
  }

  lemma SleeperCoversAt(spacing: Ms, slot: real, sleeping: map<Ticket, real>, t: Ticket, at: real)
    requires Covered(spacing, slot, sleeping, at) && t !in sleeping
    ensures Covered(spacing, slot + spacing, sleeping[t := slot], at)
  {
    var before := Ahead(sleeping, at);
    var later := Ahead(sleeping[t := slot], at);
    if slot > at {
      assert later == before + {t} && |later| == |before| + 1;
    } else {
      MoreSpacings(1, |later| + 1, spacing);
      assert Spacings(1, spacing) == Spacings(0, spacing) + spacing;
    }
  }

  // The seven steps.

  lemma {:induction false} FoundIn(t: Ticket, line: seq<Ticket>)
    requires t in line
    ensures PlaceIn(t, line) < |line|
  {
    if line[0] != t {
      FoundIn(t, line[1..]);
    }
  }

  lemma QueueingKeepsPlaces(o: Limits, w: World, t: Ticket)
    requires Places(o, w, 0) && !w.aborted && !Busy(w, t) && w.gate.active >= o.maxConcurrent
    ensures Places(o, w.(gate := w.gate.(waiters := w.gate.waiters + [t]), queued := w.queued + multiset{t}), 0)
  {
    var after := w.(gate := w.gate.(waiters := w.gate.waiters + [t]), queued := w.queued + multiset{t});
    assert Apart(after);
  }

  lemma TakingKeeps(o: Limits, w: World)
    requires Inv(o, w)
    ensures var taken := w.(gate := w.gate.(active := w.gate.active + 1)); Places(o, taken, 1) && Clock(o, taken)
  {}

  lemma ArrivalAtFullKeeps(o: Limits, w: World, t: Ticket)
    requires Inv(o, w) && Enabled(w, Arrive(t)) && w.gate.active >= o.maxConcurrent
    ensures Inv(o, Next(o, w, Arrive(t)))
  {
    var after := Next(o, w, Arrive(t));
    if t.deadline - w.now <= 0.0 {
      assert after == w;
    } else {
      QueueingKeepsPlaces(o, w, t);
      assert SameClock(after, w);
    }
  }

  /** Settling overwrites the endpoint with the effect's. */
  lemma SettlingIgnoresGate(w: World, v: World, t: Ticket, e: Effect)
    requires v == w.(gate := v.gate)
    ensures Settle(w, t, e) == Settle(v, t, e)
  {}

  /** With room, an arrival is a reservation with the slot already in hand. */
  lemma ArrivalWithRoomReserves(o: Limits, w: World, t: Ticket)
    requires Enabled(w, Arrive(t)) && w.gate.active < o.maxConcurrent
    ensures Next(o, w, Arrive(t)) == Reserved(o, w.(gate := w.gate.(active := w.gate.active + 1)), t)
  {
    var taken := w.(gate := w.gate.(active := w.gate.active + 1));
    SettlingIgnoresGate(w, taken, t, Reserve(o, taken.gate, t, w.now));
  }

  lemma ArrivalWithRoomKeeps(o: Limits, w: World, t: Ticket)
    requires Inv(o, w) && Enabled(w, Arrive(t)) && w.gate.active < o.maxConcurrent
    ensures Inv(o, Next(o, w, Arrive(t)))
  {
    var taken := w.(gate := w.gate.(active := w.gate.active + 1));
    TakingKeeps(o, w);
    ReservingKeepsPlaces(o, taken, t);
    ReservingKeepsClock(o, taken, t);
    ArrivalWithRoomReserves(o, w, t);
  }

  lemma ResumptionReserves(o: Limits, w: World, t: Ticket)
    requires Enabled(w, WaiterResumes(t)) && !w.aborted
    ensures Next(o, w, WaiterResumes(t))
      == Reserved(o, w.(gate := w.gate.(active := w.gate.active + 1), woken := w.woken - {t}), t)
  {
    var left := w.(woken := w.woken - {t});
    var taken := left.(gate := w.gate.(active := w.gate.active + 1));
    SettlingIgnoresGate(left, taken, t, Reserve(o, taken.gate, t, w.now));
  }

  lemma TakingUpKeeps(o: Limits, w: World, t: Ticket)
    requires Inv(o, w) && t in w.woken
    ensures var taken := w.(gate := w.gate.(active := w.gate.active + 1), woken := w.woken - {t});
      Places(o, taken, 1) && Clock(o, taken) && !Busy(taken, t)
  {}

  lemma ResumptionKeeps(o: Limits, w: World, t: Ticket)
    requires Inv(o, w) && Enabled(w, WaiterResumes(t)) && !w.aborted
    ensures Inv(o, Next(o, w, WaiterResumes(t)))
  {
    var taken := w.(gate := w.gate.(active := w.gate.active + 1), woken := w.woken - {t});
    TakingUpKeeps(o, w, t);
    ReservingKeepsPlaces(o, taken, t);
    ReservingKeepsClock(o, taken, t);
    ResumptionReserves(o, w, t);
  }

  lemma LateResumptionKeeps(o: Limits, w: World, t: Ticket)
    requires Inv(o, w) && Enabled(w, WaiterResumes(t)) && w.aborted
    ensures Inv(o, Next(o, w, WaiterResumes(t)))
  {
    assert Next(o, w, WaiterResumes(t)) == w.(woken := w.woken - {t});
  }

  lemma LeavingKeepsPlaces(o: Limits, w: World, t: Ticket, rest: seq<Ticket>)
    requires Places(o, w, 0) && !w.aborted && NoRepeats(rest) && t in w.gate.waiters
    requires multiset(w.gate.waiters) == multiset(rest) + multiset{t}
    requires forall u :: u in rest <==> u in w.gate.waiters && u != t
    ensures Places(o, w.(gate := w.gate.(waiters := rest), resolved := w.resolved + multiset{t}), 0)
  {}

  lemma TimeoutTakesOut(o: Limits, w: World, t: Ticket) returns (i: nat, left: World)
    requires Enabled(w, WaiterTimesOut(t))
    ensures i < |w.gate.waiters| && w.gate.waiters[i] == t && Next(o, w, WaiterTimesOut(t)) == left
    ensures left == w.(gate := w.gate.(waiters := w.gate.waiters[..i] + w.gate.waiters[i + 1..]),
                       resolved := w.resolved + multiset{t})
  {
    FoundIn(t, w.gate.waiters);
    i := PlaceIn(t, w.gate.waiters);
    left := Next(o, w, WaiterTimesOut(t));
  }

  lemma TimeoutKeeps(o: Limits, w: World, t: Ticket)
    requires Inv(o, w) && Enabled(w, WaiterTimesOut(t))
    ensures Inv(o, Next(o, w, WaiterTimesOut(t)))
  {
    var i, left := TimeoutTakesOut(o, w, t);
    OneLeaves(w.gate.waiters, i, left.gate.waiters);
    LeavingKeepsPlaces(o, w, t, left.gate.waiters);
    assert SameClock(left, w);
  }

  lemma WakingKeepsPlaces(o: Limits, w: World, t: Ticket)
    requires Places(o, w, 0) && t in w.sleeping
    ensures Places(o, w.(sleeping := w.sleeping - {t}), 1)
    ensures !w.aborted ==> Places(o, w.(sleeping := w.sleeping - {t}, running := w.running + {t}), 0)
  {
    assert (w.sleeping - {t}).Keys == w.sleeping.Keys - {t};
  }

  lemma WakingKeepsClock(o: Limits, w: World, t: Ticket)
    requires Clock(o, w) && Enabled(w, SleepEnds(t))
    ensures Clock(o, w.(sleeping := w.sleeping - {t}))
  {
    if !w.aborted {
      var left := w.sleeping - {t};
      forall at: real | at >= w.now
        ensures Covered(o.spacing, w.gate.nextSlotAt, left, at)
      {
        assert Covered(o.spacing, w.gate.nextSlotAt, w.sleeping, at);
        assert Ahead(left, at) == Ahead(w.sleeping, at);
      }
    }
  }

  lemma SleepEndKeeps(o: Limits, w: World, t: Ticket)
    requires Inv(o, w) && Enabled(w, SleepEnds(t))
    ensures Inv(o, Next(o, w, SleepEnds(t)))
  {
    var awake := w.(sleeping := w.sleeping - {t});
    WakingKeepsPlaces(o, w, t);
    WakingKeepsClock(o, w, t);
    var after := Next(o, w, SleepEnds(t));
    if w.aborted {
      FreeingKeepsPlaces(o, awake);
      FreeingKeepsClock(awake);
      assert after == Freed(awake);
    } else {
      assert after == awake.(running := w.running + {t});
    }
  }

  lemma AttemptEndKeeps(o: Limits, w: World, t: Ticket)
    requires Inv(o, w) && Enabled(w, AttemptEnds(t))
    ensures Inv(o, Next(o, w, AttemptEnds(t)))
  {
    var ended := w.(running := w.running - {t});
    assert Places(o, ended, 1);
    FreeingKeepsPlaces(o, ended);
    FreeingKeepsClock(ended);
    assert Next(o, w, AttemptEnds(t)) == Freed(ended);
  }

  lemma StepKeeps(o: Limits, w: World, step: Step)
    requires Inv(o, w) && Enabled(w, step)
    ensures Inv(o, Next(o, w, step))
  {
    match step
    case Arrive(t) =>
      if w.gate.active >= o.maxConcurrent {
        ArrivalAtFullKeeps(o, w, t);
      } else {
        ArrivalWithRoomKeeps(o, w, t);
      }
    case WaiterResumes(t) =>
      if w.aborted {
        LateResumptionKeeps(o, w, t);
      } else {
        ResumptionKeeps(o, w, t);
      }
    case WaiterTimesOut(t) => TimeoutKeeps(o, w, t);
    case SleepEnds(t) => SleepEndKeeps(o, w, t);
    case AttemptEnds(t) => AttemptEndKeeps(o, w, t);
    case Tick(_) =>
    case Shutdown =>
  }

  lemma {:induction false} RunKeeps(o: Limits, w: World, steps: seq<Step>, end: World)
    requires Inv(o, w) && Reachable(o, w, steps, end)
    ensures Inv(o, end)
    decreases |steps|
  {
    if steps != [] {
      StepKeeps(o, w, steps[0]);
      RunKeeps(o, Next(o, w, steps[0]), steps[1..], end);
    }
  }

  // ---- over every run ----------------------------------------------------------------------------------------------

  /**
   * The rate-limit clock cannot outrun real time: before shutdown it is ahead of now by at most one spacing more than
   * there are callers asleep toward a slot still ahead, and each of them holds a concurrency slot.
   */
  lemma ClockStaysNearNow(o: Limits, begin: real, steps: seq<Step>, end: World)
    requires begin >= 0.0 && Reachable(o, Start(begin), steps, end) && !end.aborted
    ensures var asleep := |Ahead(end.sleeping, end.now)|;
      && end.gate.nextSlotAt <= end.now + Spacings(asleep + 1, o.spacing)
      && asleep <= end.gate.active
  {
    StartHolds(o, begin);
    RunKeeps(o, Start(begin), steps, end);
    ClockNearNow(o, end);
  }

  lemma ClockNearNow(o: Limits, w: World)
    requires Inv(o, w) && !w.aborted
    ensures w.gate.nextSlotAt <= w.now + Spacings(|Ahead(w.sleeping, w.now)| + 1, o.spacing)
    ensures |Ahead(w.sleeping, w.now)| <= w.gate.active
  {
    assert Covered(o.spacing, w.gate.nextSlotAt, w.sleeping, w.now);
    SubsetSize(Ahead(w.sleeping, w.now), w.sleeping.Keys);
  }

  lemma StartHolds(o: Limits, begin: real)
    requires begin >= 0.0
    ensures Inv(o, Start(begin))
  {
    forall at: real | at >= begin
      ensures Covered(o.spacing, 0.0, map[], at)
    {}
  }

  /** Slots handed out are pairwise a spacing apart, in order, and each lies before its request's deadline. */
  lemma SlotsAreSpacedAndInTime(o: Limits, begin: real, steps: seq<Step>, end: World, i: nat, j: nat)
    requires begin >= 0.0 && Reachable(o, Start(begin), steps, end) && i < j < |end.grants|
    ensures end.grants[j].slot >= end.grants[i].slot + Spacings(j - i, o.spacing)
    ensures end.grants[i].slot < end.grants[i].ticket.deadline && end.grants[j].slot < end.grants[j].ticket.deadline
  {
    StartHolds(o, begin);
    RunKeeps(o, Start(begin), steps, end);
    TwoGrants(o, end, i, j);
  }

  lemma TwoGrants(o: Limits, w: World, i: nat, j: nat)
    requires Clock(o, w) && i < j < |w.grants|
    ensures w.grants[j].slot >= w.grants[i].slot + Spacings(j - i, o.spacing)
    ensures w.grants[i].slot < w.grants[i].ticket.deadline && w.grants[j].slot < w.grants[j].ticket.deadline
  {}

  /** Only a slot that is handed out moves the clock: a step that grants nothing leaves it where it was. */
  lemma RefusalsNeverMoveTheClock(o: Limits, w: World, step: Step)
    requires Enabled(w, step)
    ensures var after := Next(o, w, step);
      after.gate.nextSlotAt != w.gate.nextSlotAt ==> |after.grants| == |w.grants| + 1
    ensures w.grants <= Next(o, w, step).grants
  {
    if step.Arrive? || step.WaiterResumes? {
      var g := if step.Arrive? then Acquire(o, w.gate, step.t, w.now) else Resume(o, w.gate, step.t, w.now, w.aborted);
      assert g.outcome.Refused? || g.outcome.Queued? ==> g.gate.nextSlotAt == w.gate.nextSlotAt;
    }
  }

  /** Once shut down, an endpoint hands out no slot and starts no attempt. */
  lemma {:induction false} NothingGrantedAfterShutdown(o: Limits, w: World, steps: seq<Step>, end: World)
    requires w.aborted && Reachable(o, w, steps, end)
    ensures end.aborted && end.grants == w.grants && end.running <= w.running
    decreases |steps|
  {
    if steps != [] {
      var after := Next(o, w, steps[0]);
      assert after.aborted && after.grants == w.grants && after.running <= w.running;
      NothingGrantedAfterShutdown(o, after, steps[1..], end);
    }
  }

  /**
   * No concurrency slot is lost. Before shutdown somebody waits only while every slot is taken or promised to a woken
   * waiter; every wait begun is either pending or was resolved once; and every release gives back a slot that is held.
   */
  lemma NoConcurrencySlotIsLost(o: Limits, begin: real, steps: seq<Step>, end: World)
    requires begin >= 0.0 && Reachable(o, Start(begin), steps, end)
    ensures !end.aborted && end.gate.waiters != [] ==> end.gate.active + |end.woken| >= o.maxConcurrent
    ensures end.queued == end.resolved + multiset(Waiting(end)) && NoRepeats(Waiting(end))
    ensures end.gate.active == |end.sleeping.Keys| + |end.running|
    ensures end.running != {} || end.sleeping != map[] ==> end.gate.active > 0
  {
    StartHolds(o, begin);
    RunKeeps(o, Start(begin), steps, end);
    if end.sleeping != map[] {
      assert end.sleeping.Keys != {};
    }
  }

  // ---- the concurrency bound -----------------------------------------------------------------------------------------

  /** A newcomer takes a slot that is already promised to a woken waiter. */
  ghost predicate Overtakes(o: Limits, w: World, step: Step) {
    step.Arrive? && w.gate.active < o.maxConcurrent <= w.gate.active + |w.woken|
  }

  ghost predicate OvertakingFree(o: Limits, w: World, steps: seq<Step>, end: World)
    requires Reachable(o, w, steps, end)
    decreases |steps|
  {
    steps == [] || (!Overtakes(o, w, steps[0]) && OvertakingFree(o, Next(o, w, steps[0]), steps[1..], end))
  }

  /** Slots taken or promised: only an arrival that finds room adds one. */
  ghost function Claimed(w: World): nat {
    w.gate.active + if w.aborted then 0 else |w.woken|
  }

  lemma FreeingKeepsClaims(w: World)
    requires w.gate.active > 0
    ensures Claimed(Freed(w)) <= Claimed(w)
  {}

  lemma ReservingKeepsClaims(o: Limits, w: World, t: Ticket)
    requires w.gate.active > 0
    ensures Claimed(Reserved(o, w, t)) <= Claimed(w)
  {
    if Reserve(o, w.gate, t, w.now).outcome.Refused? {
      FreeingKeepsClaims(w);
      assert Reserved(o, w, t) == Freed(w);
    }
  }

  lemma EndingAddsNoClaim(o: Limits, w: World, step: Step)
    requires SlotsHeld(w, 0) && Enabled(w, step) && (step.AttemptEnds? || (step.SleepEnds? && w.aborted))
    ensures Claimed(Next(o, w, step)) <= Claimed(w)
  {
    var t := step.t;
    var ended := if step.AttemptEnds? then w.(running := w.running - {t}) else w.(sleeping := w.sleeping - {t});
    assert step.AttemptEnds? || w.sleeping.Keys != {};
    FreeingKeepsClaims(ended);
    assert Next(o, w, step) == Freed(ended);
  }

  lemma ClaimsGrowOnlyOnArrival(o: Limits, w: World, step: Step)
    requires SlotsHeld(w, 0) && Enabled(w, step)
    ensures Claimed(Next(o, w, step)) <= Claimed(w) + if step.Arrive? && w.gate.active < o.maxConcurrent then 1 else 0
  {
    if step.Arrive? && w.gate.active < o.maxConcurrent {
      ArrivalWithRoomReserves(o, w, step.t);
      ReservingKeepsClaims(o, w.(gate := w.gate.(active := w.gate.active + 1)), step.t);
    } else if step.WaiterResumes? && !w.aborted {
      ResumptionReserves(o, w, step.t);
      ReservingKeepsClaims(o, w.(gate := w.gate.(active := w.gate.active + 1), woken := w.woken - {step.t}), step.t);
    } else if step.AttemptEnds? || (step.SleepEnds? && w.aborted) {
      EndingAddsNoClaim(o, w, step);
    } else {
      OtherStepsAddNoClaim(o, w, step);
    }
  }

  lemma OtherStepsAddNoClaim(o: Limits, w: World, step: Step)
    requires Enabled(w, step) && (step.Arrive? ==> w.gate.active >= o.maxConcurrent)
    requires (step.WaiterResumes? ==> w.aborted) && (step.SleepEnds? ==> !w.aborted) && !step.AttemptEnds?
    ensures Claimed(Next(o, w, step)) <= Claimed(w)
  {}

  /** Without overtaking the gate keeps its own bound. */
  lemma {:induction false} BoundedWithoutOvertaking(o: Limits, w: World, steps: seq<Step>, end: World)
    requires Inv(o, w) && Claimed(w) <= o.maxConcurrent
    requires Reachable(o, w, steps, end) && OvertakingFree(o, w, steps, end)
    ensures end.gate.active <= Claimed(end) <= o.maxConcurrent
    decreases |steps|
  {
    if steps != [] {
      StepKeeps(o, w, steps[0]);
      ClaimsGrowOnlyOnArrival(o, w, steps[0]);
      BoundedWithoutOvertaking(o, Next(o, w, steps[0]), steps[1..], end);
    }
  }

  ghost predicate TimeEnough(o: Limits, w: World, t: Ticket, slots: nat) {
    t.deadline > w.now + Spacings(slots, o.spacing) && t.deadline > w.gate.nextSlotAt + Spacings(slots, o.spacing)
  }

  /** A caller with time enough takes a slot and moves the clock by at most one spacing past now or its own slot. */
  lemma ReservesWithTime(o: Limits, g: Gate, t: Ticket, now: real)
    requires t.deadline > now && t.deadline > g.nextSlotAt
    ensures var e := Reserve(o, g, t, now);
      && (e.outcome.Sleeping? || e.outcome.Granted?) && e.woken.None?
      && e.gate.active == g.active && e.gate.waiters == g.waiters
      && (e.gate.nextSlotAt == now + o.spacing || e.gate.nextSlotAt == g.nextSlotAt + o.spacing)
  {}

  lemma Prepend(o: Limits, w: World, step: Step, rest: seq<Step>, end: World)
    requires Enabled(w, step) && Reachable(o, Next(o, w, step), rest, end)
    ensures Reachable(o, w, [step] + rest, end)
  {
    assert ([step] + rest)[1..] == rest;
  }

  /** One woken waiter with time enough takes its place. */
  lemma OneWokenResumes(o: Limits, w: World, t: Ticket, n: nat)
    requires !w.aborted && t in w.woken && TimeEnough(o, w, t, n + 1)
    ensures var after := Next(o, w, WaiterResumes(t));
      && !after.aborted && after.woken == w.woken - {t} && after.now == w.now
      && after.gate.active == w.gate.active + 1
      && forall u :: TimeEnough(o, w, u, n + 1) ==> TimeEnough(o, after, u, n)
  {
    ReservesWithTime(o, w.gate.(active := w.gate.active + 1), t, w.now);
  }

  lemma PrependFree(o: Limits, w: World, step: Step, rest: seq<Step>, end: World)
    requires Enabled(w, step) && !Overtakes(o, w, step)
    requires Reachable(o, Next(o, w, step), rest, end) && OvertakingFree(o, Next(o, w, step), rest, end)
    ensures Reachable(o, w, [step] + rest, end) && OvertakingFree(o, w, [step] + rest, end)
  {
    assert ([step] + rest)[1..] == rest;
  }

  /** Every woken waiter with time enough takes its place, whatever the count has become meanwhile. */
  lemma {:induction false} AllWokenResume(o: Limits, w: World) returns (steps: seq<Step>, end: World)
    requires !w.aborted && forall t | t in w.woken :: TimeEnough(o, w, t, |w.woken|)
    ensures Reachable(o, w, steps, end) && OvertakingFree(o, w, steps, end)
    ensures end.gate.active == w.gate.active + |w.woken|
    decreases |w.woken|
  {
    if w.woken == {} {
      return [], w;
    }
    var t :| t in w.woken;
    var n := |w.woken - {t}|;
    assert |w.woken| == n + 1;
    OneWokenResumes(o, w, t, n);
    var rest;
    rest, end := AllWokenResume(o, Next(o, w, WaiterResumes(t)));
    PrependFree(o, w, WaiterResumes(t), rest, end);
    steps := [WaiterResumes(t)] + rest;
  }

  /** A newcomer and everyone woken could still be given slots before their deadlines. */
  ghost predicate TimeForAll(o: Limits, w: World, t: Ticket) {
    TimeEnough(o, w, t, 0) && forall u | u in w.woken :: TimeEnough(o, w, u, |w.woken| + 1)
  }

  /** After a newcomer overtakes, the bound breaks as soon as the woken waiters resume, if their deadlines allow. */
  lemma OvertakingBreaksTheBound(o: Limits, w: World, t: Ticket) returns (steps: seq<Step>, end: World)
    requires Overtakes(o, w, Arrive(t)) && Enabled(w, Arrive(t)) && TimeForAll(o, w, t)
    ensures var after := Next(o, w, Arrive(t)); Reachable(o, after, steps, end) && OvertakingFree(o, after, steps, end)
    ensures end.gate.active > o.maxConcurrent
  {
    var after := Next(o, w, Arrive(t));
    ReservesWithTime(o, w.gate.(active := w.gate.active + 1), t, w.now);
    assert after.woken == w.woken && after.now == w.now && after.gate.active == w.gate.active + 1;
    var n := |w.woken|;
    forall u | u in after.woken
      ensures TimeEnough(o, after, u, n)
    {
      assert TimeEnough(o, w, u, n + 1);
    }
    steps, end := AllWokenResume(o, after);
  }

  /** Whatever follows without overtaking, the bound holds. */
  ghost predicate KeepsBound(o: Limits, w: World) {
    forall steps, end | Reachable(o, w, steps, end) && OvertakingFree(o, w, steps, end) ::
      end.gate.active <= o.maxConcurrent
  }

  /** An arrival keeps the bound of the gate alone exactly when it does not take a slot promised to a woken waiter. */
  lemma ArrivalKeepsBoundExactlyWhenNotOvertaking(o: Limits, w: World, t: Ticket)
    requires Inv(o, w) && Claimed(w) <= o.maxConcurrent && Enabled(w, Arrive(t)) && TimeForAll(o, w, t)
    ensures KeepsBound(o, Next(o, w, Arrive(t))) <==> !Overtakes(o, w, Arrive(t))
  {
    var after := Next(o, w, Arrive(t));
    if Overtakes(o, w, Arrive(t)) {
      var steps, end := OvertakingBreaksTheBound(o, w, t);
    } else {
      StepKeeps(o, w, Arrive(t));
      ClaimsGrowOnlyOnArrival(o, w, Arrive(t));
      forall steps, end | Reachable(o, after, steps, end) && OvertakingFree(o, after, steps, end)
        ensures end.gate.active <= o.maxConcurrent
      {
        BoundedWithoutOvertaking(o, after, steps, end);
      }
    }
  }

  lemma {:induction false} RunsJoin(o: Limits, w: World, first: seq<Step>, mid: World, second: seq<Step>, end: World)
    requires Reachable(o, w, first, mid) && Reachable(o, mid, second, end)
    ensures Reachable(o, w, first + second, end)
    decreases |first|
  {
    if first == [] {
      assert first + second == second;
    } else {
      RunsJoin(o, Next(o, w, first[0]), first[1..], mid, second, end);
      Prepend(o, w, first[0], first[1..] + second, end);
      assert [first[0]] + (first[1..] + second) == first + second;
    }
  }

  lemma ThenOne(o: Limits, w: World, steps: seq<Step>, mid: World, step: Step)
    requires Reachable(o, w, steps, mid) && Enabled(mid, step)
    ensures Reachable(o, w, steps + [step], Next(o, mid, step))
  {
    var none: seq<Step> := [];
    Prepend(o, mid, step, none, Next(o, mid, step));
    assert [step] + none == [step];
    RunsJoin(o, w, steps, mid, [step], Next(o, mid, step));
  }

  /** The first callers, all at once, hold every slot: the first runs, the others run or sleep toward their slots. */
  ghost predicate Filled(o: Limits, w: World, holders: seq<Ticket>) {
    && !w.aborted && w.now == 0.0 && w.woken == {}
    && w.gate == Gate(|holders|, Spacings(|holders|, o.spacing), [])
    && (holders != [] ==> holders[0] in w.running)
    && forall t :: Busy(w, t) ==> t in holders
  }

  lemma OneMoreHolds(o: Limits, w: World, holders: seq<Ticket>, t: Ticket)
    requires Filled(o, w, holders) && |holders| < o.maxConcurrent && t !in holders
    requires t.deadline > Spacings(|holders|, o.spacing)
    ensures Enabled(w, Arrive(t)) && Filled(o, Next(o, w, Arrive(t)), holders + [t])
  {
    var after := Next(o, w, Arrive(t));
    ArrivalWithRoomReserves(o, w, t);
    assert after.gate == Gate(|holders| + 1, Spacings(|holders| + 1, o.spacing), []);
    if holders != [] {
      assert (holders + [t])[0] == holders[0];
    }
  }

  lemma {:induction false} HoldersFill(o: Limits, holders: seq<Ticket>) returns (steps: seq<Step>, w: World)
    requires |holders| <= o.maxConcurrent && NoRepeats(holders)
    requires forall i | 0 <= i < |holders| :: holders[i].deadline > Spacings(i, o.spacing)
    ensures Reachable(o, Start(0.0), steps, w) && Filled(o, w, holders)
    decreases |holders|
  {
    if holders == [] {
      return [], Start(0.0);
    }
    var n := |holders| - 1;
    var before;
    steps, before := HoldersFill(o, holders[..n]);
    OneMoreHolds(o, before, holders[..n], holders[n]);
    ThenOne(o, Start(0.0), steps, before, Arrive(holders[n]));
    assert holders == holders[..n] + [holders[n]];
    steps, w := steps + [Arrive(holders[n])], Next(o, before, Arrive(holders[n]));
  }

  /** One more waits, the first ends and wakes it: nobody holds the slot, which is promised. */
  lemma SlotPromised(o: Limits, w: World, holders: seq<Ticket>, b: Ticket) returns (w2: World)
    requires Filled(o, w, holders) && |holders| == o.maxConcurrent > 0 && b !in holders && b.deadline > 0.0
    ensures Enabled(w, Arrive(b)) && Enabled(Next(o, w, Arrive(b)), AttemptEnds(holders[0]))
    ensures w2 == Next(o, Next(o, w, Arrive(b)), AttemptEnds(holders[0]))
    ensures !w2.aborted && w2.now == 0.0 && w2.woken == {b}
    ensures w2.gate == Gate(o.maxConcurrent - 1, Spacings(o.maxConcurrent, o.spacing), [])
    ensures forall t :: Busy(w2, t) ==> t in holders || t == b
  {
    var w1 := Next(o, w, Arrive(b));
    assert w1 == w.(gate := w.gate.(waiters := [b]), queued := w.queued + multiset{b});
    w2 := Next(o, w1, AttemptEnds(holders[0]));
    assert w2 == w1.(gate := w.gate.(active := w.gate.active - 1, waiters := []), running := w.running - {holders[0]},
                     woken := {b}, resolved := w.resolved + multiset{b});
  }

  /**
   * The gate alone does not keep its bound, whatever it is: while as many callers as it allows hold its slots another
   * one waits, the first ends and wakes it, and a newcomer takes the slot promised to it; then all of them hold slots.
   */
  lemma GateAloneExceedsItsBound(o: Limits, holders: seq<Ticket>, b: Ticket, c: Ticket)
    returns (steps: seq<Step>, end: World)
    requires |holders| == o.maxConcurrent > 0 && NoRepeats(holders + [b, c])
    requires forall i | 0 <= i < |holders| :: holders[i].deadline > Spacings(i, o.spacing)
    requires b.deadline > Spacings(o.maxConcurrent, o.spacing) + Spacings(2, o.spacing)
    requires c.deadline > Spacings(o.maxConcurrent, o.spacing)
    ensures Reachable(o, Start(0.0), steps, end) && end.gate.active > o.maxConcurrent
  {
    var all := holders + [b, c];
    assert all[|holders|] == b && all[|holders| + 1] == c;
    assert forall i | 0 <= i < |holders| :: all[i] == holders[i];
    var w;
    steps, w := HoldersFill(o, holders);
    var w2 := SlotPromised(o, w, holders, b);
    ThenOne(o, Start(0.0), steps, w, Arrive(b));
    ThenOne(o, Start(0.0), steps + [Arrive(b)], Next(o, w, Arrive(b)), AttemptEnds(holders[0]));
    steps := steps + [Arrive(b)] + [AttemptEnds(holders[0])];
    var rest;
    rest, end := OvertakingBreaksTheBound(o, w2, c);
    ThenOne(o, Start(0.0), steps, w2, Arrive(c));
    RunsJoin(o, Start(0.0), steps + [Arrive(c)], Next(o, w2, Arrive(c)), rest, end);
    steps := steps + [Arrive(c)] + rest;
  }
}
