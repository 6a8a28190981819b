/**
 * The composed RPC stack: every logical request passes the priority admission, sized to the gate's own concurrency
 * bound, before it reaches any endpoint, and keeps its admission ticket until it settles.
 */
module ProviderStack {
  import opened Prelude
  import E = EndpointGate
  import P = PriorityAdmission

  type Ticket = E.Ticket

  /** The admission gate and, behind it, one endpoint gate per configured endpoint. */
  datatype Stack = Stack(admission: P.World, endpoints: seq<E.World>)

  datatype Step =
    | Offered(priority: P.Priority, t: Ticket)
    | Settled(t: Ticket)
    | AtEndpoint(k: nat, step: E.Step)
    | ShutDown

  /** A request works on one endpoint at a time. */
  ghost predicate Idle(s: Stack, t: Ticket) {
    forall k | 0 <= k < |s.endpoints| :: !E.Busy(s.endpoints[k], t)
  }

  ghost predicate Enabled(s: Stack, step: Step) {
    match step
    case Offered(_, t) => !P.Known(s.admission, t)
    case Settled(t) => t in s.admission.inside && Idle(s, t)
    case AtEndpoint(k, e) =>
      && k < |s.endpoints| && E.Enabled(s.endpoints[k], e) && !e.Shutdown?
      && (e.Arrive? ==> e.t in s.admission.inside && Idle(s, e.t))
    case ShutDown => !s.admission.gate.shutdown
  }

  ghost function Aborted(w: E.World): E.World {
    if w.aborted then w else E.Next(E.Limits(0, 0.0), w, E.Shutdown)
  }

  ghost function Next(o: E.Limits, s: Stack, step: Step): Stack
    requires Enabled(s, step)
  {
    match step
    case Offered(priority, t) => s.(admission := P.Next(o.maxConcurrent, s.admission, P.Offered(priority, t)))
    case Settled(t) => s.(admission := P.Next(o.maxConcurrent, s.admission, P.Returned(t)))
    case AtEndpoint(k, e) => s.(endpoints := s.endpoints[k := E.Next(o, s.endpoints[k], e)])
    case ShutDown =>
      Stack(P.Next(o.maxConcurrent, s.admission, P.ShutsDown),
            seq(|s.endpoints|, k requires 0 <= k < |s.endpoints| => Aborted(s.endpoints[k])))
  }

  ghost predicate Reachable(o: E.Limits, s: Stack, steps: seq<Step>, end: Stack)
    decreases |steps|
  {
    if steps == [] then end == s
    else Enabled(s, steps[0]) && Reachable(o, Next(o, s, steps[0]), steps[1..], end)
  }

  ghost function Start(endpoints: nat, now: real): Stack {
    Stack(P.START, seq(endpoints, _ => E.Start(now)))
  }

  ghost function Holders(w: E.World): set<Ticket> {
    w.sleeping.Keys + w.running
  }

  /** Nobody waits, nobody was woken, and every slot is held by an admitted request. */
  ghost predicate Direct(w: E.World, inside: set<Ticket>) {
    && w.gate.waiters == [] && w.woken == {}
    && (forall t | t in w.sleeping :: t in inside) && (forall t | t in w.running :: t in inside)
  }

  ghost predicate Inv(o: E.Limits, s: Stack) {
    && P.Inv(o.maxConcurrent, s.admission)
    && forall k | 0 <= k < |s.endpoints| :: Direct(s.endpoints[k], s.admission.inside) && E.Inv(o, s.endpoints[k])
  }

  lemma ActiveCountsHolders(w: E.World)
    requires E.Apart(w) && E.SlotsHeld(w, 0)
    ensures w.gate.active == |Holders(w)|
  {}

  /** An admitted request that holds no slot finds one free. */
  lemma ArriverFindsRoom(w: E.World, inside: set<Ticket>, t: Ticket)
    requires Direct(w, inside) && E.Apart(w) && E.SlotsHeld(w, 0) && t in inside && t !in Holders(w)
    ensures w.gate.active < |inside|
  {
    ActiveCountsHolders(w);
    SubsetSize(Holders(w), inside - {t});
  }

  lemma ReservingStaysDirect(o: E.Limits, w: E.World, inside: set<Ticket>, t: Ticket)
    requires Direct(w, inside) && t in inside
    ensures Direct(E.Reserved(o, w, t), inside)
  {}

  lemma ArrivalStaysDirect(o: E.Limits, w: E.World, inside: set<Ticket>, t: Ticket)
    requires Direct(w, inside) && E.Inv(o, w) && |inside| <= o.maxConcurrent && E.Enabled(w, E.Arrive(t))
    requires t in inside
    ensures Direct(E.Next(o, w, E.Arrive(t)), inside)
  {
    ArriverFindsRoom(w, inside, t);
    ReservingStaysDirect(o, w.(gate := w.gate.(active := w.gate.active + 1)), inside, t);
    E.ArrivalWithRoomReserves(o, w, t);
  }

  lemma EndpointStaysDirect(o: E.Limits, w: E.World, inside: set<Ticket>, step: E.Step)
    requires Direct(w, inside) && E.Inv(o, w) && |inside| <= o.maxConcurrent && E.Enabled(w, step)
    requires step.Arrive? ==> step.t in inside
    ensures Direct(E.Next(o, w, step), inside)
  {
    if step.Arrive? {
      ArrivalStaysDirect(o, w, inside, step.t);
    } else {
      OthersStayDirect(o, w, inside, step);
    }
  }

  lemma OthersStayDirect(o: E.Limits, w: E.World, inside: set<Ticket>, step: E.Step)
    requires Direct(w, inside) && E.Enabled(w, step) && !step.Arrive?
    ensures Direct(E.Next(o, w, step), inside)
  {}

  lemma EndpointStepKeeps(o: E.Limits, s: Stack, k: nat, e: E.Step)
    requires Inv(o, s) && Enabled(s, AtEndpoint(k, e))
    ensures Inv(o, Next(o, s, AtEndpoint(k, e)))
  {
    EndpointStaysDirect(o, s.endpoints[k], s.admission.inside, e);
    E.StepKeeps(o, s.endpoints[k], e);
  }

  lemma SettlingKeeps(o: E.Limits, s: Stack, t: Ticket)
    requires Inv(o, s) && Enabled(s, Settled(t))
    ensures Inv(o, Next(o, s, Settled(t)))
  {
    P.StepKeeps(o.maxConcurrent, s.admission, P.Returned(t));
    var after := Next(o, s, Settled(t));
    forall k | 0 <= k < |s.endpoints|
      ensures Direct(s.endpoints[k], after.admission.inside)
    {
      assert !E.Busy(s.endpoints[k], t);
    }
  }

  lemma ShutdownKeeps(o: E.Limits, s: Stack)
    requires Inv(o, s) && Enabled(s, ShutDown)
    ensures Inv(o, Next(o, s, ShutDown))
  {
    var after := Next(o, s, ShutDown);
    forall k | 0 <= k < |s.endpoints|
      ensures Direct(after.endpoints[k], s.admission.inside) && E.Inv(o, after.endpoints[k])
    {
      var w := s.endpoints[k];
      if !w.aborted {
        E.StepKeeps(o, w, E.Shutdown);
        assert after.endpoints[k] == E.Next(o, w, E.Shutdown);
      }
    }
  }

  lemma StepKeeps(o: E.Limits, s: Stack, step: Step)
    requires Inv(o, s) && Enabled(s, step)
    ensures Inv(o, Next(o, s, step))
  {
    match step
    case Offered(priority, t) => P.StepKeeps(o.maxConcurrent, s.admission, P.Offered(priority, t));
    case Settled(t) => SettlingKeeps(o, s, t);
    case AtEndpoint(k, e) => EndpointStepKeeps(o, s, k, e);
    case ShutDown => ShutdownKeeps(o, s);
  }

  lemma {:induction false} RunKeeps(o: E.Limits, s: Stack, steps: seq<Step>, end: Stack)
    requires Inv(o, s) && Reachable(o, s, steps, end)
    ensures Inv(o, end) && |end.endpoints| == |s.endpoints|
    decreases |steps|
  {
    if steps != [] {
      StepKeeps(o, s, steps[0]);
      RunKeeps(o, Next(o, s, steps[0]), steps[1..], end);
    }
  }

  /**
   * The composition keeps what the gate alone does not: at every endpoint at most maxConcurrent requests are active,
   * nobody ever waits in the endpoint's own line, and the rate-limit clock stays within maxConcurrent + 1 spacings of
   * now until shutdown.
   */
  lemma ComposedStackKeepsTheBound(o: E.Limits, endpoints: nat, begin: real, steps: seq<Step>, end: Stack, k: nat)
    requires o.maxConcurrent > 0 && begin >= 0.0 && k < endpoints
    requires Reachable(o, Start(endpoints, begin), steps, end)
    ensures k < |end.endpoints|
    ensures var w := end.endpoints[k];
      && w.gate.active <= o.maxConcurrent && w.gate.waiters == [] && w.woken == {}
      && (!w.aborted ==> w.gate.nextSlotAt <= w.now + E.Spacings(o.maxConcurrent + 1, o.spacing))
  {
    var start := Start(endpoints, begin);
    forall i | 0 <= i < endpoints
      ensures Direct(start.endpoints[i], {}) && E.Inv(o, start.endpoints[i])
    {
      E.StartHolds(o, begin);
    }
    RunKeeps(o, start, steps, end);
    FromInv(o, end, k);
  }

  lemma FromInv(o: E.Limits, s: Stack, k: nat)
    requires Inv(o, s) && k < |s.endpoints|
    ensures var w := s.endpoints[k];
      && w.gate.active <= o.maxConcurrent && w.gate.waiters == [] && w.woken == {}
      && (!w.aborted ==> w.gate.nextSlotAt <= w.now + E.Spacings(o.maxConcurrent + 1, o.spacing))
  {
    var w := s.endpoints[k];
    assert Direct(w, s.admission.inside) && E.Inv(o, w);
    ActiveCountsHolders(w);
    SubsetSize(Holders(w), s.admission.inside);
    if !w.aborted {
      ClockWithinBound(o, w);
    }
  }

  lemma ClockWithinBound(o: E.Limits, w: E.World)
    requires E.Inv(o, w) && !w.aborted && w.gate.active <= o.maxConcurrent
    ensures w.gate.nextSlotAt <= w.now + E.Spacings(o.maxConcurrent + 1, o.spacing)
  {
    var asleep := |E.Ahead(w.sleeping, w.now)|;
    E.ClockNearNow(o, w);
    E.MoreSpacings(asleep + 1, o.maxConcurrent + 1, o.spacing);
  }
}
