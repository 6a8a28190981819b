/**
 * The bridge between the engine's class and the runs of VolumeSafety: every call the program makes on the engine is a
 * run of a few steps, so what holds after every run holds after every sequence of calls.
 */
module VolumeCalls {
  import opened Prelude
  import opened BoundedStructures
  import opened VolumeModel
  import opened VolumeSafety
  import VolumeEngine

  datatype Call =
    | Starts
    | Disconnects(reason: Reason)
    | Reconnects
    | Breaks(reason: Reason)
    | Notifies(notification: Notification, receivedAtMs: int)
    | ReplaysTrade(trade: TradeEvent)
    | ReplaysLifecycle(lifecycle: LifecycleEvent)
    | ChecksLiveness(nowMs: int)
    | AsksVolume(mint: Mint, nowMs: int)
    | AsksCurve(mint: Mint, nowMs: int)

  ghost function After(o: Options, s: Engine, call: Call): Engine {
    match call
    case Starts => MarkStreamStarted(s)
    case Disconnects(reason) => MarkDisconnected(s, reason)
    case Reconnects => MarkReconnected(s)
    case Breaks(reason) => BreakCoverage(s, reason)
    case Notifies(n, receivedAtMs) => OnNotification(o, s, n, receivedAtMs)
    case ReplaysTrade(e) => AcceptTrade(o, s.(lastNotificationMs := None), e)
    case ReplaysLifecycle(l) => AcceptLifecycle(o, s, l)
    case ChecksLiveness(nowMs) => CheckLiveness(o, s, nowMs)
    case AsksVolume(mint, nowMs) => Compute(o, s, mint, nowMs).0
    case AsksCurve(mint, nowMs) => ResolveCurve(o, s, mint, nowMs).0
  }

  ghost function AfterAll(o: Options, s: Engine, calls: seq<Call>): Engine
    decreases |calls|
  {
    if calls == [] then s else AfterAll(o, After(o, s, calls[0]), calls[1..])
  }

  /** A call on the object is the call on its value. */
  method Perform(engine: VolumeEngine.PumpfunVolumeEngine, call: Call)
    requires engine.Valid()
    modifies engine, engine.buckets, engine.seen
    ensures engine.Valid() && engine.View() == After(engine.o, old(engine.View()), call)
  {
    match call
    case Starts => engine.MarkStreamStarted();
    case Disconnects(reason) => engine.MarkDisconnected(reason);
    case Reconnects => engine.MarkReconnected();
    case Breaks(reason) => engine.BreakCoverage(reason);
    case Notifies(n, receivedAtMs) => engine.OnNotification(n, receivedAtMs);
    case ReplaysTrade(e) => engine.IngestNormalizedTrade(e);
    case ReplaysLifecycle(l) => engine.IngestNormalizedLifecycle(l);
    case ChecksLiveness(nowMs) => engine.CheckLiveness(nowMs);
    case AsksVolume(mint, nowMs) => var _ := engine.GetOneMinuteVolume(mint, nowMs);
    case AsksCurve(mint, nowMs) => var _ := engine.ResolveCurve(mint, nowMs);
  }

  // ---- calls as steps --------------------------------------------------------------------------------------------

  function LifecycleSteps(ls: seq<LifecycleEvent>): seq<Step> {
    if ls == [] then [] else LifecycleSteps(ls[..|ls| - 1]) + [LifecycleArrives(ls[|ls| - 1])]
  }

  function TradeSteps(es: seq<TradeEvent>): seq<Step> {
    if es == [] then [] else TradeSteps(es[..|es| - 1]) + [TradeArrives(es[|es| - 1])]
  }

  function BreakSteps(broken: bool, reason: Reason): seq<Step> {
    if broken then [Broken(reason)] else []
  }

  /** Damage first, then lifecycles, then trades, and a break when an exception cut them short. */
  function NotificationSteps(n: Notification): seq<Step> {
    match n
    case Undecodable => [Broken(DecodeError)]
    case FailedTransaction => []
    case UnknownStatus => []
    case Decoded(errors, truncated, _, _, _) =>
      BreakSteps(errors > 0, DecodeError) + (BreakSteps(truncated, LogsTruncated)
      + (LifecycleSteps(n.LifecyclesTaken()) + (TradeSteps(n.TradesTaken()) + BreakSteps(n.Throws(), DecodeError))))
  }

  function StepsOf(call: Call): seq<Step> {
    match call
    case Starts => [StreamStarted]
    case Disconnects(reason) => [Disconnected(reason)]
    case Reconnects => [Reconnected]
    case Breaks(reason) => [Broken(reason)]
    case Notifies(n, receivedAtMs) => [Heard(Some(receivedAtMs))] + NotificationSteps(n)
    case ReplaysTrade(e) => [Heard(None)] + [TradeArrives(e)]
    case ReplaysLifecycle(l) => [LifecycleArrives(l)]
    case ChecksLiveness(nowMs) => [LivenessChecked(nowMs)]
    case AsksVolume(_, nowMs) => [LivenessChecked(nowMs)]
    case AsksCurve(_, nowMs) => [LivenessChecked(nowMs)]
  }

  function AllSteps(calls: seq<Call>): seq<Step> {
    if calls == [] then [] else StepsOf(calls[0]) + AllSteps(calls[1..])
  }

  lemma {:induction false} RunInTwo(o: Options, w: World, a: seq<Step>, b: seq<Step>)
    ensures Run(o, w, a + b) == Run(o, Run(o, w, a), b)
    decreases |a|
  {
    if a == [] {
      assert a + b == b;
    } else {
      assert (a + b)[1..] == a[1..] + b;
      RunInTwo(o, Next(o, w, a[0]), a[1..], b);
    }
  }

  lemma RunOfOne(o: Options, w: World, step: Step)
    ensures Run(o, w, [step]) == Next(o, w, step)
  {
    assert [step][1..] == [];
    assert Run(o, Next(o, w, step), []) == Next(o, w, step);
  }

  lemma {:induction false} LifecyclesAreARun(o: Options, w: World, ls: seq<LifecycleEvent>)
    ensures Run(o, w, LifecycleSteps(ls)).engine == AcceptLifecycles(o, w.engine, ls)
    decreases |ls|
  {
    if ls != [] {
      var front, l := ls[..|ls| - 1], ls[|ls| - 1];
      LifecyclesAreARun(o, w, front);
      RunInTwo(o, w, LifecycleSteps(front), [LifecycleArrives(l)]);
      RunOfOne(o, Run(o, w, LifecycleSteps(front)), LifecycleArrives(l));
    }
  }

  lemma {:induction false} TradesAreARun(o: Options, w: World, es: seq<TradeEvent>)
    ensures Run(o, w, TradeSteps(es)).engine == AcceptTrades(o, w.engine, es)
    decreases |es|
  {
    if es != [] {
      var front, e := es[..|es| - 1], es[|es| - 1];
      TradesAreARun(o, w, front);
      RunInTwo(o, w, TradeSteps(front), [TradeArrives(e)]);
      RunOfOne(o, Run(o, w, TradeSteps(front)), TradeArrives(e));
    }
  }

  lemma BreakIsARun(o: Options, w: World, broken: bool, reason: Reason)
    ensures Run(o, w, BreakSteps(broken, reason)).engine == BreakWhen(w.engine, broken, reason)
  {
    if broken {
      RunOfOne(o, w, Broken(reason));
    }
  }

  /** A decoded notification, once heard. */
  lemma DecodedIsARun(o: Options, w: World, n: Notification)
    requires n.Decoded?
    ensures Run(o, w, NotificationSteps(n)).engine
      == (var s1 := BreakWhen(BreakWhen(w.engine, n.decodeErrors > 0, DecodeError), n.truncated, LogsTruncated);
          var s2 := AcceptTrades(o, AcceptLifecycles(o, s1, n.LifecyclesTaken()), n.TradesTaken());
          BreakWhen(s2, n.Throws(), DecodeError))
  {
    var a, b := BreakSteps(n.decodeErrors > 0, DecodeError), BreakSteps(n.truncated, LogsTruncated);
    var ls, es := LifecycleSteps(n.LifecyclesTaken()), TradeSteps(n.TradesTaken());
    var end := BreakSteps(n.Throws(), DecodeError);
    BreakIsARun(o, w, n.decodeErrors > 0, DecodeError);
    RunInTwo(o, w, a, b + (ls + (es + end)));
    var w1 := Run(o, w, a);
    BreakIsARun(o, w1, n.truncated, LogsTruncated);
    RunInTwo(o, w1, b, ls + (es + end));
    var w2 := Run(o, w1, b);
    LifecyclesAreARun(o, w2, n.LifecyclesTaken());
    RunInTwo(o, w2, ls, es + end);
    var w3 := Run(o, w2, ls);
    TradesAreARun(o, w3, n.TradesTaken());
    RunInTwo(o, w3, es, end);
    BreakIsARun(o, Run(o, w3, es), n.Throws(), DecodeError);
  }

  /** A notification, heard. */
  lemma NotificationIsARun(o: Options, w: World, n: Notification, receivedAtMs: int)
    ensures Run(o, w, StepsOf(Notifies(n, receivedAtMs))).engine == OnNotification(o, w.engine, n, receivedAtMs)
  {
    var heard := Next(o, w, Heard(Some(receivedAtMs)));
    RunOfOne(o, w, Heard(Some(receivedAtMs)));
    RunInTwo(o, w, [Heard(Some(receivedAtMs))], NotificationSteps(n));
    match n
    case Undecodable => RunOfOne(o, heard, Broken(DecodeError));
    case Decoded(_, _, _, _, _) => DecodedIsARun(o, heard, n);
    case _ =>
  }

  lemma ReplayedIsARun(o: Options, w: World, step: Step)
    ensures Run(o, w, [Heard(None)] + [step]) == Next(o, Next(o, w, Heard(None)), step)
  {
    RunInTwo(o, w, [Heard(None)], [step]);
    RunOfOne(o, w, Heard(None));
    RunOfOne(o, Next(o, w, Heard(None)), step);
  }

  lemma CallIsARun(o: Options, w: World, call: Call)
    ensures Run(o, w, StepsOf(call)).engine == After(o, w.engine, call)
  {
    match call
    case Notifies(n, receivedAtMs) => NotificationIsARun(o, w, n, receivedAtMs);
    case ReplaysTrade(e) => ReplayedIsARun(o, w, TradeArrives(e));
    case _ => RunOfOne(o, w, StepsOf(call)[0]);
  }

  /** Whatever calls are made on the engine, it ends where the run of their steps ends. */
  lemma {:induction false} CallsAreARun(o: Options, w: World, calls: seq<Call>)
    ensures Run(o, w, AllSteps(calls)).engine == AfterAll(o, w.engine, calls)
    decreases |calls|
  {
    if calls != [] {
      CallIsARun(o, w, calls[0]);
      RunInTwo(o, w, StepsOf(calls[0]), AllSteps(calls[1..]));
      CallsAreARun(o, Run(o, w, StepsOf(calls[0])), calls[1..]);
    }
  }

  /** What a volume answers are answers in the sense of the runs. */
  ghost predicate AnsweredBy(o: Options, w: World, mint: Mint, nowMs: int, v: Volume) {
    v.current.Some? || v.previous.Some? ==>
      && v.windowEnd.Some?
      && (v.current.Some? ==> Answered(o, w, mint, nowMs, v.current.value, v.windowEnd.value - 59, v.windowEnd.value))
      && (v.previous.Some? ==>
            Answered(o, w, mint, nowMs, v.previous.value, v.windowEnd.value - 119, v.windowEnd.value - 60))
  }

  /** Each window answered totals the log over the 60 seconds that end at the window's end, or the 60 before. */
  ghost predicate TotalsLog(v: Volume, log: seq<TradeEvent>, mint: Mint) {
    v.current.Some? || v.previous.Some? ==>
      && v.windowEnd.Some?
      && (v.current.Some? ==> v.current.value == LogSum(log, mint, v.windowEnd.value - 59, v.windowEnd.value))
      && (v.previous.Some? ==> v.previous.value == LogSum(log, mint, v.windowEnd.value - 119, v.windowEnd.value - 60))
  }

  lemma ComputedIsAnswered(o: Options, w: World, mint: Mint, nowMs: int)
    ensures AnsweredBy(o, w, mint, nowMs, Compute(o, w.engine, mint, nowMs).1)
  {
    var s := CheckLiveness(o, w.engine, nowMs);
    assert s.watermark == w.engine.watermark;
    var v := Answer(o, s, mint, nowMs);
    assert v.current.Some? || v.previous.Some? ==> StreamGate(o, s, nowMs).None?;
  }

  lemma AnswersTotal(o: Options, steps: seq<Step>, mint: Mint, nowMs: int, v: Volume)
    requires o.Accepted() && CreationsHeldRun(o, START, steps)
    requires AnsweredBy(o, Run(o, START, steps), mint, nowMs, v)
    ensures TotalsLog(v, Run(o, START, steps).counted, mint)
  {
    if v.current.Some? {
      var T := v.windowEnd.value;
      AnswersTotalTheCountedLog(o, steps, mint, nowMs, v.current.value, T - 59, T);
    }
    if v.previous.Some? {
      var T := v.windowEnd.value;
      AnswersTotalTheCountedLog(o, steps, mint, nowMs, v.previous.value, T - 119, T - 60);
    }
  }

  /** So after any calls on a new engine, what it answers totals the trades it counted. */
  lemma VolumesAfterCallsTotalTheCountedLog(o: Options, calls: seq<Call>, mint: Mint, nowMs: int)
    requires o.Accepted() && CreationsHeldRun(o, START, AllSteps(calls))
    ensures TotalsLog(Compute(o, AfterAll(o, FRESH, calls), mint, nowMs).1, Run(o, START, AllSteps(calls)).counted, mint)
  {
    CallsAreARun(o, START, calls);
    ComputedIsAnswered(o, Run(o, START, AllSteps(calls)), mint, nowMs);
    AnswersTotal(o, AllSteps(calls), mint, nowMs, Compute(o, AfterAll(o, FRESH, calls), mint, nowMs).1);
  }
}
