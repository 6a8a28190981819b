/** The admission gate above the RPC gate: a bounded number of requests inside, waiting high callers before low ones. */
module PriorityAdmission {
  import opened Prelude
  import EndpointGate

  type Ticket = EndpointGate.Ticket

  datatype Priority = High | Low

  datatype Admission = Admission(active: int, high: seq<Ticket>, low: seq<Ticket>, shutdown: bool)

  datatype Answer = Admitted | MustWait | Rejected

  datatype Promotion = Promotion(admission: Admission, woken: Option<Ticket>)

  const FRESH := Admission(0, [], [], false)

  function AnswerTo(max: int, a: Admission): Answer {
    if a.shutdown then Rejected else if a.active < max then Admitted else MustWait
  }

  function Offer(max: int, a: Admission, priority: Priority, t: Ticket): Admission {
    match AnswerTo(max, a)
    case Rejected => a
    case Admitted => a.(active := a.active + 1)
    case MustWait => if priority.High? then a.(high := a.high + [t]) else a.(low := a.low + [t])
  }

  /** Giving a ticket back hands it straight to the next waiter, who is counted before anyone else runs. */
  function GiveBack(a: Admission): Promotion {
    if a.high != [] then Promotion(a.(high := a.high[1..]), Some(a.high[0]))
    else if a.low != [] then Promotion(a.(low := a.low[1..]), Some(a.low[0]))
    else Promotion(a.(active := a.active - 1), None)
  }

  function ShutDown(a: Admission): Admission {
    if a.shutdown then a else Admission(a.active, [], [], true)
  }

  class PriorityAdmissionGate {
    const maxConcurrentAdmissions: int
    var active: int
    var highWaiters: seq<Ticket>
    var lowWaiters: seq<Ticket>
    var shutdownFlag: bool

    ghost function View(): Admission
      reads this
    {
      Admission(active, highWaiters, lowWaiters, shutdownFlag)
    }

    constructor (max: int)
      requires max > 0
      ensures maxConcurrentAdmissions == max && View() == FRESH
    {
      maxConcurrentAdmissions := max;
      active, highWaiters, lowWaiters, shutdownFlag := 0, [], [], false;
    }

    method Acquire(priority: Priority, t: Ticket) returns (answer: Answer)
      modifies this
      ensures answer == AnswerTo(maxConcurrentAdmissions, old(View()))
      ensures View() == Offer(maxConcurrentAdmissions, old(View()), priority, t)
    {
      if shutdownFlag {
        return Rejected;
      }
      if active < maxConcurrentAdmissions {
        active := active + 1;
        return Admitted;
      }
      if priority.High? {
        highWaiters := highWaiters + [t];
      } else {
        lowWaiters := lowWaiters + [t];
      }
      answer := MustWait;
    }

    method Release() returns (woken: Option<Ticket>)
      modifies this
      ensures Promotion(View(), woken) == GiveBack(old(View()))
    {
      active := active - 1;
      woken := None;
      if |highWaiters| > 0 {
        woken := Some(highWaiters[0]);
        highWaiters := highWaiters[1..];
      } else if |lowWaiters| > 0 {
        woken := Some(lowWaiters[0]);
        lowWaiters := lowWaiters[1..];
      }
      if woken.Some? {
        active := active + 1;
      }
    }

    method Shutdown() returns (rejected: seq<Ticket>)
      modifies this
      ensures View() == ShutDown(old(View()))
      ensures rejected == if old(shutdownFlag) then [] else old(highWaiters) + old(lowWaiters)
    {
      if shutdownFlag {
        return [];
      }
      shutdownFlag := true;
      rejected := highWaiters + lowWaiters;
      highWaiters, lowWaiters := [], [];
    }
  }

  // ---- runs --------------------------------------------------------------------------------------------------------

  /** The gate with the callers holding a ticket, and the callers that ever waited or were promoted, in order. */
  datatype World = World(
    gate: Admission, inside: set<Ticket>,
    waitedHigh: seq<Ticket>, promotedHigh: seq<Ticket>, waitedLow: seq<Ticket>, promotedLow: seq<Ticket>)

  datatype Step = Offered(priority: Priority, t: Ticket) | Returned(t: Ticket) | ShutsDown

  const START := World(FRESH, {}, [], [], [], [])

  ghost predicate Known(w: World, t: Ticket) {
    t in w.inside || t in w.gate.high || t in w.gate.low
  }

  ghost predicate Enabled(w: World, step: Step) {
    match step
    case Offered(_, t) => !Known(w, t)
    case Returned(t) => t in w.inside
    case ShutsDown => true
  }

  ghost function Next(max: int, w: World, step: Step): World {
    match step
    case Offered(priority, t) =>
      var after := w.(gate := Offer(max, w.gate, priority, t));
      (match AnswerTo(max, w.gate)
       case Rejected => after
       case Admitted => after.(inside := w.inside + {t})
       case MustWait =>
         if priority.High? then after.(waitedHigh := w.waitedHigh + [t]) else after.(waitedLow := w.waitedLow + [t]))
    case Returned(t) =>
      var p := GiveBack(w.gate);
      var after := w.(gate := p.admission, inside := w.inside - {t} + if p.woken.Some? then {p.woken.value} else {});
      if w.gate.high != [] then after.(promotedHigh := w.promotedHigh + [w.gate.high[0]])
      else if w.gate.low != [] then after.(promotedLow := w.promotedLow + [w.gate.low[0]])
      else after
    case ShutsDown => w.(gate := ShutDown(w.gate))
  }

  ghost predicate Reachable(max: int, w: World, steps: seq<Step>, end: World)
    decreases |steps|
  {
    if steps == [] then end == w
    else Enabled(w, steps[0]) && Reachable(max, Next(max, w, steps[0]), steps[1..], end)
  }

  ghost predicate Apart(w: World) {
    && NoRepeats(w.gate.high) && NoRepeats(w.gate.low)
    && (forall t | t in w.gate.high :: t !in w.gate.low && t !in w.inside)
    && (forall t | t in w.gate.low :: t !in w.inside)
  }

  /** Every ticket is held by one caller inside; nobody waits while a ticket is free; after shutdown nobody waits. */
  ghost predicate Counted(max: int, w: World) {
    && w.gate.active == |w.inside| <= max
    && (w.gate.high != [] || w.gate.low != [] ==> w.gate.active == max)
    && (w.gate.shutdown ==> w.gate.high == [] && w.gate.low == [])
  }

  /** Those who waited are, in order, those promoted and those still waiting, each in its own class. */
  ghost predicate FirstComeFirstServed(w: World) {
    !w.gate.shutdown ==> w.waitedHigh == w.promotedHigh + w.gate.high && w.waitedLow == w.promotedLow + w.gate.low
  }

  ghost predicate Inv(max: int, w: World) {
    Apart(w) && Counted(max, w) && FirstComeFirstServed(w)
  }

  lemma OfferKeeps(max: int, w: World, priority: Priority, t: Ticket)
    requires Inv(max, w) && !Known(w, t)
    ensures Inv(max, Next(max, w, Offered(priority, t)))
  {
    var after := Next(max, w, Offered(priority, t));
    assert Apart(after);
    assert FirstComeFirstServed(after);
  }

  lemma ReturnKeeps(max: int, w: World, t: Ticket)
    requires Inv(max, w) && t in w.inside
    ensures Inv(max, Next(max, w, Returned(t)))
  {
    var after := Next(max, w, Returned(t));
    if w.gate.high != [] || w.gate.low != [] {
      var next := if w.gate.high != [] then w.gate.high[0] else w.gate.low[0];
      assert next !in w.inside;
      assert after.inside == w.inside - {t} + {next} && |after.inside| == |w.inside|;
    } else {
      assert after.inside == w.inside - {t};
    }
  }

  lemma StepKeeps(max: int, w: World, step: Step)
    requires Inv(max, w) && Enabled(w, step)
    ensures Inv(max, Next(max, w, step))
  {
    match step
    case Offered(priority, t) => OfferKeeps(max, w, priority, t);
    case Returned(t) => ReturnKeeps(max, w, t);
    case ShutsDown =>
  }

  lemma {:induction false} RunKeeps(max: int, w: World, steps: seq<Step>, end: World)
    requires Inv(max, w) && Reachable(max, w, steps, end)
    ensures Inv(max, end)
    decreases |steps|
  {
    if steps != [] {
      StepKeeps(max, w, steps[0]);
      RunKeeps(max, Next(max, w, steps[0]), steps[1..], end);
    }
  }

  /**
   * At most max requests are inside, somebody waits only while all tickets are held, and within its class each waiter
   * is promoted in the order it came.
   */
  lemma AdmissionIsBoundedAndFair(max: int, steps: seq<Step>, end: World)
    requires max > 0 && Reachable(max, START, steps, end)
    ensures end.gate.active == |end.inside| <= max
    ensures end.gate.high != [] || end.gate.low != [] ==> end.gate.active == max
    ensures !end.gate.shutdown ==> end.promotedHigh <= end.waitedHigh && end.promotedLow <= end.waitedLow
    ensures end.gate.shutdown ==> end.gate.high == [] && end.gate.low == []
  {
    RunKeeps(max, START, steps, end);
  }

  ghost function Returns(steps: seq<Step>): nat
    decreases |steps|
  {
    if steps == [] then 0 else (if steps[0].Returned? then 1 else 0) + Returns(steps[1..])
  }

  ghost predicate KeepsOpen(steps: seq<Step>) {
    forall i | 0 <= i < |steps| :: !steps[i].ShutsDown?
  }

  /**
   * A waiting high caller cannot be starved: whatever else is offered meanwhile, the one at place k is promoted by the
   * (k+1)-th return at the latest.
   */
  lemma {:induction false} HighWaiterIsPromotedInTurn(max: int, w: World, steps: seq<Step>, end: World, k: nat)
    requires Reachable(max, w, steps, end) && KeepsOpen(steps) && !w.gate.shutdown
    requires k < |w.gate.high| && Returns(steps) > k && w.gate.active >= max
    ensures w.gate.high[k] in end.promotedHigh
    decreases |steps|
  {
    var after := Next(max, w, steps[0]);
    var t := w.gate.high[k];
    assert !steps[0].ShutsDown?;
    if steps[0].Returned? && k == 0 {
      assert after.promotedHigh == w.promotedHigh + [t];
      PromotionsStay(max, after, steps[1..], end);
      assert end.promotedHigh[|w.promotedHigh|] == t;
    } else {
      HighWaiterIsPromotedInTurn(max, after, steps[1..], end, if steps[0].Returned? then k - 1 else k);
    }
  }

  lemma {:induction false} PromotionsStay(max: int, w: World, steps: seq<Step>, end: World)
    requires Reachable(max, w, steps, end)
    ensures w.promotedHigh <= end.promotedHigh
    decreases |steps|
  {
    if steps != [] {
      PromotionsStay(max, Next(max, w, steps[0]), steps[1..], end);
    }
  }
}
