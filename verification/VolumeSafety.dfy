/**
 * What the volume engine keeps over every run: an answered window totals every trade the stream carried for that mint,
 * counted or lost, and a trade is counted at most once.
 *
 * A run is a sequence of stream-health signals, arriving events and losses. Losses happen only while coverage is
 * broken; each has a second no later than the next accepted event, because events leave the chain in that order.
 */
module VolumeSafety {
  import opened Prelude
  import opened OrderedMaps
  import opened BoundedStructures
  import opened VolumeModel

  /** Totals of a log over the seconds of [fromSec, toSec]. */
  ghost function LogSum(log: seq<TradeEvent>, mint: Mint, fromSec: int, toSec: int): Bucket
    decreases |log|
  {
    if log == [] then EMPTY_BUCKET
    else
      var h := log[|log| - 1];
      var rest := LogSum(log[..|log| - 1], mint, fromSec, toSec);
      if h.mint == mint && fromSec <= h.sec <= toSec then rest.Plus(OneTrade(h.lamports, h.isBuy)) else rest
  }

  ghost predicate Mentions(log: seq<TradeEvent>, mint: Mint) {
    exists i :: 0 <= i < |log| && log[i].mint == mint
  }

  /**
   * The engine with its history: trades counted, trades lost, how many losses precede the last accepted event, and the
   * watermark at the last capacity drop.
   */
  datatype World = World(
    engine: Engine, counted: seq<TradeEvent>, lost: seq<TradeEvent>, settled: nat, dropHorizon: Option<int>)

  const START := World(FRESH, [], [], 0, None)

  datatype Step =
    | StreamStarted
    | Disconnected(reason: Reason)
    | Reconnected
    | Broken(reason: Reason)
    | Heard(lastNotificationMs: Option<int>)
    | LivenessChecked(nowMs: int)
    | TradeArrives(trade: TradeEvent)
    | LifecycleArrives(lifecycle: LifecycleEvent)
    | Lost(event: TradeEvent)

  ghost function Next(o: Options, w: World, step: Step): World {
    var s := w.engine;
    match step
    case StreamStarted => w.(engine := MarkStreamStarted(s))
    case Disconnected(reason) => w.(engine := MarkDisconnected(s, reason))
    case Reconnected => w.(engine := MarkReconnected(s))
    case Broken(reason) => w.(engine := BreakCoverage(s, reason))
    case Heard(ms) => w.(engine := s.(lastNotificationMs := ms))
    case LivenessChecked(nowMs) => w.(engine := CheckLiveness(o, s, nowMs))
    case Lost(h) => w.(lost := w.lost + [h])
    case LifecycleArrives(l) =>
      if !Accepts(o, s, l.identity, l.sec, l.receivedAtMs) then w
      else w.(engine := AcceptLifecycle(o, s, l), settled := |w.lost|)
    case TradeArrives(e) =>
      if !Accepts(o, s, e.identity, e.sec, e.receivedAtMs) then w
      else if !Counts(o, s, e) then w.(engine := AcceptTrade(o, s, e), settled := |w.lost|)
      else
        var after := AcceptTrade(o, s, e);
        World(after, w.counted + [e], w.lost, |w.lost|,
              if after.epoch != s.epoch then after.watermark else w.dropHorizon)
  }

  ghost function Run(o: Options, w: World, steps: seq<Step>): World
    decreases |steps|
  {
    if steps == [] then w else Run(o, Next(o, w, steps[0]), steps[1..])
  }

  // ---- what the environment may do -------------------------------------------------------------------------------

  /** Every loss since the last accepted event has a second no later than this one. */
  ghost predicate LossesUpTo(w: World, sec: int) {
    forall i | w.settled <= i < |w.lost| :: w.lost[i].sec <= sec
  }

  ghost predicate Admissible(o: Options, w: World, step: Step) {
    match step
    case Lost(h) => w.engine.coverageSince.None? && h.quote.NativeSol?
    case TradeArrives(e) => Accepts(o, w.engine, e.identity, e.sec, e.receivedAtMs) ==> LossesUpTo(w, e.sec)
    case LifecycleArrives(l) => Accepts(o, w.engine, l.identity, l.sec, l.receivedAtMs) ==> LossesUpTo(w, l.sec)
    case _ => true
  }

  /** The oldest second a window can still ask for once the watermark stands there. */
  function Oldest(o: Options, watermark: int): int {
    watermark - o.settleSec - 119
  }

  /** The oldest second asked for once an event of this second is accepted. */
  function OldestAfter(o: Options, s: Engine, sec: int): int {
    Oldest(o, Max(sec, s.watermark.GetOr(sec)))
  }

  /** An accepted creation that makes its mint count as created in the current epoch: the first the mint's state sees. */
  ghost predicate Claims(o: Options, s: Engine, l: LifecycleEvent) {
    && l.isCreate && Accepts(o, s, l.identity, l.sec, l.receivedAtMs)
    && var s1 := AdvanceWatermark(o, Remember(o, s, l.identity, l.sec), l.sec);
       TouchMint(o, s1, l.mint, l.sec, true).1.creationSec.None?
  }

  /** The buckets still hold all that was counted of the created mint in the seconds windows can ask for. */
  ghost predicate HeldYoung(o: Options, w: World, l: LifecycleEvent) {
    forall sec | sec >= OldestAfter(o, w.engine, l.sec) :: Faithful(w.engine.buckets, w.counted, l.mint, sec)
  }

  /** Nothing of the created mint was lost in the seconds windows can ask for. */
  ghost predicate LostNoneYoung(o: Options, w: World, l: LifecycleEvent) {
    forall i | 0 <= i < |w.lost| && w.lost[i].mint == l.mint :: w.lost[i].sec < OldestAfter(o, w.engine, l.sec)
  }

  /** A claiming creation finds its mint's young seconds held. */
  ghost predicate CreationHeld(o: Options, w: World, step: Step) {
    step.LifecycleArrives? && Claims(o, w.engine, step.lifecycle) ==> HeldYoung(o, w, step.lifecycle)
  }

  /** A claiming creation is accepted while connected, after no young loss of its mint. */
  ghost predicate CreationWatched(o: Options, w: World, step: Step) {
    step.LifecycleArrives? && Claims(o, w.engine, step.lifecycle)
    ==> w.engine.connected && LostNoneYoung(o, w, step.lifecycle)
  }

  ghost predicate AdmissibleRun(o: Options, w: World, steps: seq<Step>)
    decreases |steps|
  {
    steps == [] || (Admissible(o, w, steps[0]) && AdmissibleRun(o, Next(o, w, steps[0]), steps[1..]))
  }

  ghost predicate CreationsHeldRun(o: Options, w: World, steps: seq<Step>)
    decreases |steps|
  {
    steps == [] || (CreationHeld(o, w, steps[0]) && CreationsHeldRun(o, Next(o, w, steps[0]), steps[1..]))
  }

  ghost predicate CreationsWatchedRun(o: Options, w: World, steps: seq<Step>)
    decreases |steps|
  {
    steps == [] || (CreationWatched(o, w, steps[0]) && CreationsWatchedRun(o, Next(o, w, steps[0]), steps[1..]))
  }

  // ---- the invariant ---------------------------------------------------------------------------------------------

  /** Mints whose creation was observed in the current epoch. */
  ghost function CreatedNow(s: Engine): set<Mint> {
    set i | 0 <= i < |s.mints| && s.mints[i].1.createdInEpoch == Some(s.epoch) :: s.mints[i].0
  }

  ghost predicate Coverage(s: Engine) {
    && (s.awaitingFirst <==> s.coverageSince.None?) && (s.connected ==> s.started)
    && (s.coverageSince.Some? ==> s.connected && s.watermark.Some? && s.coverageSince.value <= s.watermark.value + 1)
  }

  ghost predicate Mints(s: Engine) {
    && Unique(s.mints)
    && forall i | 0 <= i < |s.mints| && s.mints[i].1.createdInEpoch.Some? :: s.mints[i].1.createdInEpoch.value <= s.epoch
  }

  ghost predicate UpToWatermark(log: seq<TradeEvent>, watermark: Option<int>) {
    forall i | 0 <= i < |log| :: watermark.Some? && log[i].sec <= watermark.value
  }

  /** Buckets hold only counted seconds. */
  ghost predicate BucketsCounted(w: World) {
    forall k | k in w.engine.buckets ::
      Mentions(w.counted, k.mint) && w.engine.watermark.Some? && k.sec <= w.engine.watermark.value
  }

  ghost predicate Horizon(w: World) {
    w.dropHorizon.Some? ==>
      && w.engine.watermark.Some? && w.dropHorizon.value <= w.engine.watermark.value
      && (w.engine.coverageSince.Some? ==> w.dropHorizon.value < w.engine.coverageSince.value)
  }

  /** A second's bucket totals what was counted in it. */
  ghost predicate Faithful(buckets: Buckets, counted: seq<TradeEvent>, mint: Mint, sec: int) {
    At(buckets, mint, sec) == LogSum(counted, mint, sec, sec)
  }

  /** A second's bucket totals what was counted in it, or was dropped with some of it. */
  ghost predicate NeverMore(buckets: Buckets, counted: seq<TradeEvent>, mint: Mint, sec: int) {
    Faithful(buckets, counted, mint, sec) || At(buckets, mint, sec).count < LogSum(counted, mint, sec, sec).count
  }

  ghost predicate Young(o: Options, s: Engine, sec: int) {
    s.watermark.Some? && sec >= Oldest(o, s.watermark.value)
  }

  /** Seconds that can be asked for are faithful past the last capacity drop, and no second holds more than its log. */
  ghost predicate Kept(o: Options, w: World) {
    && (forall mint, sec | Young(o, w.engine, sec) && (w.dropHorizon.None? || sec > w.dropHorizon.value) ::
          Faithful(w.engine.buckets, w.counted, mint, sec))
    && forall mint, sec :: NeverMore(w.engine.buckets, w.counted, mint, sec)
  }

  /** Mints created in this epoch are faithful in every second that can be asked for. */
  ghost predicate CreatedHeld(o: Options, w: World) {
    forall mint, sec | mint in CreatedNow(w.engine) && Young(o, w.engine, sec) ::
      Faithful(w.engine.buckets, w.counted, mint, sec)
  }

  ghost predicate LossesKnown(w: World) {
    && w.settled <= |w.lost|
    && UpToWatermark(w.lost[..w.settled], w.engine.watermark)
    && (w.engine.coverageSince.Some? ==> forall i | 0 <= i < |w.lost| :: w.lost[i].sec < w.engine.coverageSince.value)
  }

  /** The mints created in this epoch are covered, and have lost nothing in a second that can be asked for. */
  ghost predicate CreatedWhole(o: Options, w: World) {
    forall mint | mint in CreatedNow(w.engine) ::
      w.engine.coverageSince.Some? && forall i | 0 <= i < |w.lost| && w.lost[i].mint == mint :: !Young(o, w.engine, w.lost[i].sec)
  }

  ghost predicate Inv(o: Options, w: World) {
    && o.retentionSec >= 120 + o.settleSec
    && Coverage(w.engine) && Mints(w.engine)
    && UpToWatermark(w.counted, w.engine.watermark)
    && BucketsCounted(w) && Horizon(w) && Kept(o, w) && LossesKnown(w)
  }

  // ---- sums ------------------------------------------------------------------------------------------------------

  lemma {:induction false} SumSplits(log: seq<TradeEvent>, mint: Mint, fromSec: int, toSec: int)
    requires fromSec <= toSec
    ensures LogSum(log, mint, fromSec, toSec)
            == LogSum(log, mint, fromSec, toSec - 1).Plus(LogSum(log, mint, toSec, toSec))
    decreases |log|
  {
    if log != [] {
      SumSplits(log[..|log| - 1], mint, fromSec, toSec);
    }
  }

  lemma {:induction false} SumOfNothing(log: seq<TradeEvent>, mint: Mint, fromSec: int, toSec: int)
    requires forall i | 0 <= i < |log| :: log[i].mint != mint || !(fromSec <= log[i].sec <= toSec)
    ensures LogSum(log, mint, fromSec, toSec) == EMPTY_BUCKET
    decreases |log|
  {
    if log != [] {
      SumOfNothing(log[..|log| - 1], mint, fromSec, toSec);
    }
  }

  lemma {:induction false} SumOfBoth(a: seq<TradeEvent>, b: seq<TradeEvent>, mint: Mint, fromSec: int, toSec: int)
    ensures LogSum(a + b, mint, fromSec, toSec) == LogSum(a, mint, fromSec, toSec).Plus(LogSum(b, mint, fromSec, toSec))
    decreases |b|
  {
    if b == [] {
      assert a + b == a;
    } else {
      var shorter, both := b[..|b| - 1], a + b;
      SumOfBoth(a, shorter, mint, fromSec, toSec);
      assert both[..|both| - 1] == a + shorter && both[|both| - 1] == b[|b| - 1];
      assert LogSum(both, mint, fromSec, toSec) == LogSum(both[..|both| - 1] + [b[|b| - 1]], mint, fromSec, toSec);
    }
  }

  lemma {:induction false} LossesOutside(
    counted: seq<TradeEvent>, lost: seq<TradeEvent>, mint: Mint, fromSec: int, toSec: int)
    requires forall i | 0 <= i < |lost| && lost[i].mint == mint :: !(fromSec <= lost[i].sec <= toSec)
    ensures LogSum(counted + lost, mint, fromSec, toSec) == LogSum(counted, mint, fromSec, toSec)
    decreases |lost|
  {
    if lost == [] {
      assert counted + lost == counted;
    } else {
      var shorter, both := lost[..|lost| - 1], counted + lost;
      assert both[..|both| - 1] == counted + shorter && both[|both| - 1] == lost[|lost| - 1];
      LossesOutside(counted, shorter, mint, fromSec, toSec);
    }
  }

  lemma {:induction false} CountNotNegative(log: seq<TradeEvent>, mint: Mint, fromSec: int, toSec: int)
    ensures LogSum(log, mint, fromSec, toSec).count >= 0
    ensures LogSum(log, mint, fromSec, toSec).count == 0 ==> LogSum(log, mint, fromSec, toSec) == EMPTY_BUCKET
    decreases |log|
  {
    if log != [] {
      CountNotNegative(log[..|log| - 1], mint, fromSec, toSec);
    }
  }

  /** A window of faithful seconds totals the log's window. */
  lemma {:induction false} FaithfulWindow(
    buckets: Buckets, counted: seq<TradeEvent>, mint: Mint, fromSec: int, toSec: int)
    requires forall sec | fromSec <= sec <= toSec :: Faithful(buckets, counted, mint, sec)
    ensures WindowSum(buckets, mint, fromSec, toSec) == LogSum(counted, mint, fromSec, toSec)
    decreases toSec - fromSec
  {
    if toSec < fromSec {
      SumOfNothing(counted, mint, fromSec, toSec);
    } else {
      FaithfulWindow(buckets, counted, mint, fromSec, toSec - 1);
      SumSplits(counted, mint, fromSec, toSec);
      assert Faithful(buckets, counted, mint, toSec);
    }
  }

  // ---- parts of a transition -------------------------------------------------------------------------------------

  /** Only younger-or-equal views of the mints: entries may go, and no entry changes its creation epoch. */
  ghost predicate FewerMints(before: OrderedMap<Mint, MintState>, after: OrderedMap<Mint, MintState>) {
    && Unique(after)
    && forall i | 0 <= i < |after| ::
         after[i].1.createdInEpoch.None?
         || exists j :: 0 <= j < |before| && before[j].0 == after[i].0
                        && before[j].1.createdInEpoch == after[i].1.createdInEpoch
  }

  lemma FewerMintsKept(s: Engine, mints: OrderedMap<Mint, MintState>)
    requires Mints(s) && FewerMints(s.mints, mints)
    ensures Mints(s.(mints := mints)) && CreatedNow(s.(mints := mints)) <= CreatedNow(s)
  {
    forall mint | mint in CreatedNow(s.(mints := mints))
      ensures mint in CreatedNow(s)
    {
      var i :| 0 <= i < |mints| && mints[i].1.createdInEpoch == Some(s.epoch) && mints[i].0 == mint;
      var j :| 0 <= j < |s.mints| && s.mints[j].0 == mint && s.mints[j].1.createdInEpoch == Some(s.epoch);
    }
  }

  lemma {:induction false} WithoutIdleIsFewer(ms: OrderedMap<Mint, MintState>, idleCut: int)
    requires Unique(ms)
    ensures FewerMints(ms, WithoutIdle(ms, idleCut))
    ensures forall i | 0 <= i < |WithoutIdle(ms, idleCut)| :: WithoutIdle(ms, idleCut)[i] in ms
    decreases |ms|
  {
    if ms != [] {
      WithoutIdleIsFewer(ms[1..], idleCut);
      var rest := WithoutIdle(ms[1..], idleCut);
      var kept := WithoutIdle(ms, idleCut);
      forall i | 0 <= i < |kept|
        ensures kept[i] in ms
      {
        if kept[i] != ms[0] {
          assert kept[i] in rest;
        }
      }
    }
  }

  /** What reaching a second changes: the watermark, coverage restored just past it, and pruning to the new horizon. */
  lemma AdvanceShape(o: Options, s: Engine, sec: int)
    requires Coverage(s) && Unique(s.mints)
    ensures Reached(o, s, AdvanceWatermark(o, s, sec), sec)
  {
    AdvanceStream(o, s, sec);
    AdvanceStores(o, s, sec);
  }

  lemma AdvanceStream(o: Options, s: Engine, sec: int)
    requires Coverage(s)
    ensures var s1 := AdvanceWatermark(o, s, sec);
            && s1.watermark == Some(Max(sec, s.watermark.GetOr(sec)))
            && s1.connected == s.connected && s1.epoch == s.epoch
            && s1.coverageSince
               == (if s.awaitingFirst && s.connected then Some(s1.watermark.value + 1) else s.coverageSince)
            && (s1.awaitingFirst <==> s.awaitingFirst && !s.connected)
  {}

  lemma AdvanceStores(o: Options, s: Engine, sec: int)
    requires Unique(s.mints)
    ensures var s1 := AdvanceWatermark(o, s, sec);
            && s1.watermark.Some?
            && (s1.buckets == s.buckets || s1.buckets == WithoutOlder(s.buckets, s1.watermark.value - o.retentionSec))
            && FewerMints(s.mints, s1.mints)
  {
    ReachedMints(o, s, sec);
    ReachedBuckets(o, s, sec);
    WithoutIdleIsFewer(s.mints, sec - o.mintStateIdleSec);
    AllIsFewer(s.mints);
  }

  lemma AllIsFewer(ms: OrderedMap<Mint, MintState>)
    requires Unique(ms)
    ensures FewerMints(ms, ms)
  {}

  lemma ReachedMints(o: Options, s: Engine, sec: int)
    ensures var s1 := AdvanceWatermark(o, s, sec);
      s1.mints == s.mints || s1.mints == WithoutIdle(s.mints, sec - o.mintStateIdleSec)
  {}

  lemma ReachedBuckets(o: Options, s: Engine, sec: int)
    ensures var s1 := AdvanceWatermark(o, s, sec);
      && s1.watermark.Some?
      && (s1.buckets == s.buckets || s1.buckets == WithoutOlder(s.buckets, s1.watermark.value - o.retentionSec))
  {}

  /** An engine that reached a second from another. */
  ghost predicate Reached(o: Options, s: Engine, s1: Engine, sec: int) {
    && s1.watermark == Some(Max(sec, s.watermark.GetOr(sec)))
    && s1.connected == s.connected && s1.epoch == s.epoch
    && s1.coverageSince
       == (if s.awaitingFirst && s.connected then Some(s1.watermark.value + 1) else s.coverageSince)
    && (s1.awaitingFirst <==> s.awaitingFirst && !s.connected)
    && (s1.buckets == s.buckets || s1.buckets == WithoutOlder(s.buckets, s1.watermark.value - o.retentionSec))
    && FewerMints(s.mints, s1.mints)
  }

  lemma AcceptedReaches(o: Options, s: Engine, identity: Key, sec: int)
    requires Coverage(s) && Unique(s.mints)
    ensures Reached(o, s, AdvanceWatermark(o, Remember(o, s, identity, sec), sec), sec)
  {
    AdvanceShape(o, Remember(o, s, identity, sec), sec);
  }

  lemma ReachingKeeps(o: Options, w: World, s1: Engine, sec: int) returns (w1: World)
    requires Inv(o, w) && LossesUpTo(w, sec) && Reached(o, w.engine, s1, sec) && s1.started == w.engine.started
    ensures w1 == w.(engine := s1, settled := |w.lost|)
    ensures Inv(o, w1) && CreatedNow(w1.engine) <= CreatedNow(w.engine)
    ensures CreatedHeld(o, w) ==> CreatedHeld(o, w1)
    ensures CreatedWhole(o, w) ==> CreatedWhole(o, w1)
  {
    w1 := w.(engine := s1, settled := |w.lost|);
    FewerMintsKept(w.engine, s1.mints);
    assert CreatedNow(s1) == CreatedNow(w.engine.(mints := s1.mints));
    AdvanceSettles(w, s1, sec);
    AdvanceKeepsBuckets(o, w, s1);
    assert w1.lost[..w1.settled] == w.lost;
  }

  /** Reaching a new second keeps the invariant, settles the losses before it and may restore coverage after it. */
  lemma AdvanceKeeps(o: Options, w: World, sec: int, identity: Key) returns (w1: World)
    requires Inv(o, w) && LossesUpTo(w, sec)
    ensures w1 == w.(engine := AdvanceWatermark(o, Remember(o, w.engine, identity, sec), sec), settled := |w.lost|)
    ensures Inv(o, w1) && CreatedNow(w1.engine) <= CreatedNow(w.engine)
    ensures CreatedHeld(o, w) ==> CreatedHeld(o, w1)
    ensures CreatedWhole(o, w) ==> CreatedWhole(o, w1)
    ensures w1.engine.watermark == Some(Max(sec, w.engine.watermark.GetOr(sec)))
    ensures w1.engine.epoch == w.engine.epoch && KeepsYoung(o, w.engine, w1.engine)
    ensures w.engine.connected ==> w1.engine.coverageSince.Some?
  {
    AcceptedReaches(o, w.engine, identity, sec);
    ReachedStarted(o, Remember(o, w.engine, identity, sec), sec);
    w1 := ReachingKeeps(o, w, AdvanceWatermark(o, Remember(o, w.engine, identity, sec), sec), sec);
  }

  lemma ReachedStarted(o: Options, s: Engine, sec: int)
    ensures AdvanceWatermark(o, s, sec).started == s.started
  {}

  /** Pruning leaves the buckets of seconds that can be asked for. */
  ghost predicate KeepsYoung(o: Options, s: Engine, s1: Engine) {
    && s1.watermark.Some?
    && forall mint, sec | sec >= Oldest(o, s1.watermark.value) :: At(s1.buckets, mint, sec) == At(s.buckets, mint, sec)
  }

  lemma AdvanceSettles(w: World, s1: Engine, sec: int)
    requires LossesKnown(w) && LossesUpTo(w, sec)
    requires s1.watermark == Some(Max(sec, w.engine.watermark.GetOr(sec)))
    requires s1.coverageSince == Some(s1.watermark.value + 1) || s1.coverageSince == w.engine.coverageSince
    ensures UpToWatermark(w.lost, s1.watermark)
    ensures s1.coverageSince.Some? ==> forall i | 0 <= i < |w.lost| :: w.lost[i].sec < s1.coverageSince.value
  {
    forall i | 0 <= i < |w.lost|
      ensures w.lost[i].sec <= s1.watermark.value
    {
      if i < w.settled { assert w.lost[..w.settled][i] == w.lost[i]; }
    }
  }

  /** Dropping a bucket leaves its second short, or loses nothing. */
  lemma DroppedIsShort(before: Buckets, after: Buckets, counted: seq<TradeEvent>, mint: Mint, sec: int)
    requires NeverMore(before, counted, mint, sec)
    requires At(after, mint, sec) == At(before, mint, sec) || At(after, mint, sec) == EMPTY_BUCKET
    ensures NeverMore(after, counted, mint, sec)
  {
    CountNotNegative(counted, mint, sec, sec);
  }

  /** Pruning to the new horizon loses nothing a window can still ask for. */
  lemma AdvanceKeepsBuckets(o: Options, w: World, s1: Engine)
    requires o.retentionSec >= 120 + o.settleSec
    requires UpToWatermark(w.counted, w.engine.watermark) && BucketsCounted(w) && Kept(o, w)
    requires s1.watermark.Some?
    requires w.engine.watermark.Some? ==> w.engine.watermark.value <= s1.watermark.value
    requires s1.buckets == w.engine.buckets
      || s1.buckets == WithoutOlder(w.engine.buckets, s1.watermark.value - o.retentionSec)
    requires CreatedNow(s1) <= CreatedNow(w.engine)
    ensures Kept(o, w.(engine := s1)) && BucketsCounted(w.(engine := s1)) && KeepsYoung(o, w.engine, s1)
    ensures CreatedHeld(o, w) ==> CreatedHeld(o, w.(engine := s1))
  {
    forall mint, sec
      ensures NeverMore(s1.buckets, w.counted, mint, sec)
    {
      assert NeverMore(w.engine.buckets, w.counted, mint, sec);
      DroppedIsShort(w.engine.buckets, s1.buckets, w.counted, mint, sec);
    }
    forall mint, sec | Young(o, s1, sec)
      ensures Faithful(s1.buckets, w.counted, mint, sec) <==> Faithful(w.engine.buckets, w.counted, mint, sec)
      ensures w.engine.watermark.None? ==> Faithful(s1.buckets, w.counted, mint, sec)
    {
      if w.engine.watermark.None? {
        SumOfNothing(w.counted, mint, sec, sec);
        assert Slot(mint, sec) !in w.engine.buckets;
      }
    }
  }

  /** Touching a mint's state creates it, or refreshes it in place; it never claims an observed creation. */
  lemma TouchKeeps(o: Options, w: World, mint: Mint, sec: int, isCreate: bool) returns (w1: World, st: MintState)
    requires Inv(o, w)
    ensures (w1.engine, st) == TouchMint(o, w.engine, mint, sec, isCreate) && w1 == w.(engine := w1.engine)
    ensures Inv(o, w1) && CreatedNow(w1.engine) <= CreatedNow(w.engine)
    ensures w1.engine == w.engine.(mints := w1.engine.mints)
    ensures st.createdInEpoch.Some? ==> st.createdInEpoch.value <= w.engine.epoch
    ensures Has(w1.engine.mints, mint) && st.createdInEpoch == Some(w.engine.epoch) ==> mint in CreatedNow(w1.engine)
  {
    var s := w.engine;
    var (s1, st0) := TouchMint(o, s, mint, sec, isCreate);
    st := st0;
    w1 := w.(engine := s1);
    NotBefore(s.mints, mint);
    if Has(s.mints, mint) {
      var at := IndexOf(s.mints, mint);
      assert s1.mints == s.mints[at := (mint, st)];
      assert s.mints[at].1.createdInEpoch == st.createdInEpoch;
      assert s1.mints[at].0 == mint;
    } else {
      assert forall i | 0 <= i < |s.mints| :: s.mints[i].0 != mint;
    }
    forall i | 0 <= i < |s1.mints| && s1.mints[i].1.createdInEpoch.Some?
      ensures exists j :: 0 <= j < |s.mints| && s.mints[j].0 == s1.mints[i].0
                          && s.mints[j].1.createdInEpoch == s1.mints[i].1.createdInEpoch
    {
      var j := if Has(s.mints, mint) then i else i + (|s.mints| + 1 - |s1.mints|);
      assert s.mints[j].0 == s1.mints[i].0;
    }
    FewerMintsKept(s, s1.mints);
  }

  /** Writing a state back changes at most whether that mint counts as created in this epoch. */
  lemma StoreKeeps(w: World, mint: Mint, st: MintState)
    requires Mints(w.engine)
    requires st.createdInEpoch.Some? ==> st.createdInEpoch.value <= w.engine.epoch
    ensures Mints(StoreMint(w.engine, mint, st))
    ensures CreatedNow(StoreMint(w.engine, mint, st))
            <= CreatedNow(w.engine) + (if st.createdInEpoch == Some(w.engine.epoch) then {mint} else {})
  {
    if Has(w.engine.mints, mint) {
      SetKeepsMints(w.engine, mint, st);
    }
  }

  lemma SetKeepsMints(s: Engine, mint: Mint, st: MintState)
    requires Mints(s) && Has(s.mints, mint) && (st.createdInEpoch.Some? ==> st.createdInEpoch.value <= s.epoch)
    ensures var s1 := s.(mints := Set(s.mints, mint, st));
      Mints(s1) && CreatedNow(s1) <= CreatedNow(s) + (if st.createdInEpoch == Some(s.epoch) then {mint} else {})
  {
    GetAfterSet(s.mints, mint, st, mint);
    var s1, at := s.(mints := Set(s.mints, mint, st)), IndexOf(s.mints, mint);
    forall m | m in CreatedNow(s1)
      ensures m in CreatedNow(s) || (m == mint && st.createdInEpoch == Some(s.epoch))
    {
      var i :| 0 <= i < |s1.mints| && s1.mints[i].1.createdInEpoch == Some(s1.epoch) && s1.mints[i].0 == m;
      if i != at {
        assert s.mints[i] == s1.mints[i];
      }
    }
  }

  /** Counting a trade adds it to its second; over the cap, everything up to the watermark stops being vouched for. */
  lemma CountKeeps(o: Options, w: World, e: TradeEvent) returns (w1: World)
    requires Inv(o, w)
    requires w.engine.watermark.Some? && e.sec <= w.engine.watermark.value
    ensures var s1 := Count(o, w.engine, e);
            w1 == World(s1, w.counted + [e], w.lost, w.settled,
                        if s1.epoch != w.engine.epoch then s1.watermark else w.dropHorizon)
    ensures Inv(o, w1)
    ensures CreatedHeld(o, w) ==> CreatedHeld(o, w1)
    ensures CreatedWhole(o, w) ==> CreatedWhole(o, w1)
  {
    var s1 := Count(o, w.engine, e);
    var counted := w.counted + [e];
    w1 := World(s1, counted, w.lost, w.settled, if s1.epoch != w.engine.epoch then s1.watermark else w.dropHorizon);
    var added := AddTrade(w.engine.buckets, e.mint, e.sec, e.lamports, e.isBuy);
    CappedDropsOldest(added, o.maxBuckets);
    CountKeepsBuckets(w, w1, e);
    AddedKeeps(w.engine.buckets, w.counted, e);
    if s1.epoch == w.engine.epoch {
      assert CreatedNow(s1) == CreatedNow(w.engine);
    } else {
      CountOverCap(o, w1, added);
      assert CreatedNow(s1) == {};
    }
  }

  lemma CountKeepsBuckets(w: World, w1: World, e: TradeEvent)
    requires UpToWatermark(w.counted, w.engine.watermark) && BucketsCounted(w)
    requires w.engine.watermark.Some? && e.sec <= w.engine.watermark.value && w1.engine.watermark == w.engine.watermark
    requires w1.counted == w.counted + [e]
    requires forall k | k in w1.engine.buckets :: k in w.engine.buckets || k == Slot(e.mint, e.sec)
    ensures UpToWatermark(w1.counted, w1.engine.watermark) && BucketsCounted(w1)
  {
    MentionsGrow(w.counted, e);
  }

  /** Counted, each second's bucket follows its log. */
  lemma AddedKeeps(buckets: Buckets, counted: seq<TradeEvent>, e: TradeEvent)
    ensures var added := AddTrade(buckets, e.mint, e.sec, e.lamports, e.isBuy);
      forall mint, sec ::
        && (Faithful(buckets, counted, mint, sec) ==> Faithful(added, counted + [e], mint, sec))
        && (NeverMore(buckets, counted, mint, sec) ==> NeverMore(added, counted + [e], mint, sec))
  {
    var longer := counted + [e];
    assert longer[|longer| - 1] == e && longer[..|longer| - 1] == counted;
  }

  /** Over the cap, nothing up to the watermark is vouched for any more, and nothing lies beyond it. */
  lemma CountOverCap(o: Options, w1: World, added: Buckets)
    requires UpToWatermark(w1.counted, w1.engine.watermark) && BucketsCounted(w1)
    requires w1.dropHorizon == w1.engine.watermark
    requires forall mint, sec :: NeverMore(added, w1.counted, mint, sec)
    requires forall k | k in w1.engine.buckets :: k in added && w1.engine.buckets[k] == added[k]
    ensures Kept(o, w1)
  {
    forall mint, sec
      ensures NeverMore(w1.engine.buckets, w1.counted, mint, sec)
    {
      assert NeverMore(added, w1.counted, mint, sec);
      DroppedIsShort(added, w1.engine.buckets, w1.counted, mint, sec);
    }
    forall mint, sec | Young(o, w1.engine, sec) && sec > w1.engine.watermark.value
      ensures Faithful(w1.engine.buckets, w1.counted, mint, sec)
    {
      SumOfNothing(w1.counted, mint, sec, sec);
      assert Slot(mint, sec) !in w1.engine.buckets;
    }
  }

  lemma MentionsGrow(log: seq<TradeEvent>, h: TradeEvent)
    ensures forall mint :: Mentions(log + [h], mint) <==> Mentions(log, mint) || mint == h.mint
  {
    var longer := log + [h];
    forall mint
      ensures Mentions(longer, mint) <==> Mentions(log, mint) || mint == h.mint
    {
      assert longer[|log|] == h;
      if Mentions(log, mint) {
        var i :| 0 <= i < |log| && log[i].mint == mint;
        assert longer[i].mint == mint;
      }
    }
  }

  /** A broken stream vouches for no creation, and keeps what it counted. */
  lemma BreakKeeps(o: Options, w: World, s1: Engine)
    requires Inv(o, w)
    requires s1.coverageSince.None? && s1.awaitingFirst && s1.epoch > w.engine.epoch && (s1.connected ==> s1.started)
    requires s1.watermark == w.engine.watermark && s1.buckets == w.engine.buckets && s1.mints == w.engine.mints
    ensures var w1 := w.(engine := s1); Inv(o, w1) && CreatedHeld(o, w1) && CreatedWhole(o, w1)
  {
    assert CreatedNow(s1) == {};
  }

  /** Writing a touched state back keeps the invariant. */
  lemma StoreKeepsInv(o: Options, w: World, mint: Mint, st: MintState) returns (w1: World)
    requires Inv(o, w)
    requires st.createdInEpoch.Some? ==> st.createdInEpoch.value <= w.engine.epoch
    ensures w1 == w.(engine := StoreMint(w.engine, mint, st)) && Inv(o, w1)
    ensures w1.engine == w.engine.(mints := w1.engine.mints)
    ensures CreatedNow(w1.engine)
            <= CreatedNow(w.engine)
               + if st.createdInEpoch == Some(w.engine.epoch) && Has(w.engine.mints, mint) then {mint} else {}
  {
    w1 := w.(engine := StoreMint(w.engine, mint, st));
    StoreKeeps(w, mint, st);
  }

  /** The mint's state once a trade has been accepted, before it is counted. */
  function AfterTrade(st: MintState, e: TradeEvent, epoch: int): MintState {
    match e.quote
    case OtherQuote => Restrict(st, NonSolQuote)
    case UnprovenQuote => Restrict(st, QuoteUnproven)
    case NativeSol =>
      if st.status.Active?
      then st.(provenEpoch := epoch, curve := CurveTracking.UpdateCurve(st.curve, CurveEventOf(e)))
      else st
  }

  /** Only the mints change, and none is newly created. */
  lemma FewerCreatedKeeps(o: Options, w: World, w1: World)
    requires w1 == w.(engine := w.engine.(mints := w1.engine.mints)) && CreatedNow(w1.engine) <= CreatedNow(w.engine)
    ensures CreatedHeld(o, w) ==> CreatedHeld(o, w1)
    ensures CreatedWhole(o, w) ==> CreatedWhole(o, w1)
  {}

  /** The stages of an accepted trade before it is counted. */
  ghost predicate TradeStages(o: Options, w: World, e: TradeEvent, w0: World, w1: World, st: MintState, w2: World) {
    && w0 == w.(engine := AdvanceWatermark(o, Remember(o, w.engine, e.identity, e.sec), e.sec), settled := |w.lost|)
    && (w1.engine, st) == TouchMint(o, w0.engine, e.mint, e.sec, false) && w1 == w0.(engine := w1.engine)
    && w2 == w1.(engine := StoreMint(w1.engine, e.mint, AfterTrade(st, e, w1.engine.epoch)))
  }

  lemma AcceptedTradeKeeps(o: Options, w: World, e: TradeEvent) returns (w0: World, w1: World, st: MintState, w2: World)
    requires Inv(o, w) && LossesUpTo(w, e.sec)
    ensures TradeStages(o, w, e, w0, w1, st, w2) && Inv(o, w1) && Inv(o, w2)
    ensures CreatedHeld(o, w) ==> CreatedHeld(o, w1) && CreatedHeld(o, w2)
    ensures CreatedWhole(o, w) ==> CreatedWhole(o, w1) && CreatedWhole(o, w2)
    ensures w2.engine.watermark.Some? && e.sec <= w2.engine.watermark.value && w2.engine.epoch == w.engine.epoch
  {
    w0 := AdvanceKeeps(o, w, e.sec, e.identity);
    w1, st, w2 := TouchedTradeKeeps(o, w0, e);
  }

  lemma TouchedTradeKeeps(o: Options, w0: World, e: TradeEvent) returns (w1: World, st: MintState, w2: World)
    requires Inv(o, w0)
    ensures (w1.engine, st) == TouchMint(o, w0.engine, e.mint, e.sec, false) && w1 == w0.(engine := w1.engine)
    ensures w2 == w1.(engine := StoreMint(w1.engine, e.mint, AfterTrade(st, e, w1.engine.epoch)))
    ensures Inv(o, w1) && Inv(o, w2)
    ensures CreatedHeld(o, w0) ==> CreatedHeld(o, w1) && CreatedHeld(o, w2)
    ensures CreatedWhole(o, w0) ==> CreatedWhole(o, w1) && CreatedWhole(o, w2)
    ensures w2.engine.watermark == w0.engine.watermark && w2.engine.epoch == w0.engine.epoch
  {
    w1, st := TouchKeeps(o, w0, e.mint, e.sec, false);
    FewerCreatedKeeps(o, w0, w1);
    w2 := StoreKeepsInv(o, w1, e.mint, AfterTrade(st, e, w1.engine.epoch));
    FewerCreatedKeeps(o, w1, w2);
  }

  lemma TradeKeeps(o: Options, w: World, e: TradeEvent)
    requires Inv(o, w) && Admissible(o, w, TradeArrives(e))
    ensures Inv(o, Next(o, w, TradeArrives(e)))
    ensures CreatedHeld(o, w) ==> CreatedHeld(o, Next(o, w, TradeArrives(e)))
    ensures CreatedWhole(o, w) ==> CreatedWhole(o, Next(o, w, TradeArrives(e)))
  {
    if Accepts(o, w.engine, e.identity, e.sec, e.receivedAtMs) {
      var w0, w1, st, w2 := AcceptedTradeKeeps(o, w, e);
      TradeIs(o, w, e, w0, w1, st, w2);
      if Counts(o, w.engine, e) {
        var w3 := CountKeeps(o, w2, e);
      }
    }
  }

  lemma TradeIs(o: Options, w: World, e: TradeEvent, w0: World, w1: World, st: MintState, w2: World)
    requires Accepts(o, w.engine, e.identity, e.sec, e.receivedAtMs) && TradeStages(o, w, e, w0, w1, st, w2)
    requires w2.engine.epoch == w.engine.epoch
    ensures Counts(o, w.engine, e) <==> e.quote.NativeSol? && st.status.Active?
    ensures Next(o, w, TradeArrives(e))
      == if !Counts(o, w.engine, e) then (if e.quote.NativeSol? then w1 else w2)
         else (var s := Count(o, w2.engine, e);
               World(s, w2.counted + [e], w2.lost, w2.settled,
                     if s.epoch != w2.engine.epoch then s.watermark else w2.dropHorizon))
  {}

  lemma AfterLifecycleClaims(st: MintState, l: LifecycleEvent, epoch: int)
    ensures var after := AfterLifecycle(st, l, epoch);
      after.createdInEpoch == if l.isCreate && st.creationSec.None? then Some(epoch) else st.createdInEpoch
  {}

  /** The stages of an accepted lifecycle event: its second reached, its mint touched, its state written back. */
  ghost predicate LifecycleStages(o: Options, w: World, l: LifecycleEvent, w1: World, w2: World, st: MintState, w3: World) {
    && w1 == w.(engine := AdvanceWatermark(o, Remember(o, w.engine, l.identity, l.sec), l.sec), settled := |w.lost|)
    && (w2.engine, st) == TouchMint(o, w1.engine, l.mint, l.sec, l.isCreate) && w2 == w1.(engine := w2.engine)
    && w3 == w2.(engine := StoreMint(w2.engine, l.mint, AfterLifecycle(st, l, w2.engine.epoch)))
  }

  lemma AcceptedLifecycleKeeps(o: Options, w: World, l: LifecycleEvent)
    returns (w1: World, w2: World, st: MintState, w3: World)
    requires Inv(o, w) && LossesUpTo(w, l.sec)
    ensures LifecycleStages(o, w, l, w1, w2, st, w3) && Inv(o, w3)
    ensures w3.engine == w1.engine.(mints := w3.engine.mints)
    ensures w1.engine.watermark == Some(Max(l.sec, w.engine.watermark.GetOr(l.sec)))
    ensures KeepsYoung(o, w.engine, w1.engine) && (w.engine.connected ==> w1.engine.coverageSince.Some?)
    ensures CreatedNow(w3.engine)
            <= CreatedNow(w1.engine) + if l.isCreate && st.creationSec.None? then {l.mint} else {}
    ensures CreatedHeld(o, w) ==> CreatedHeld(o, w1)
    ensures CreatedWhole(o, w) ==> CreatedWhole(o, w1)
  {
    w1 := AdvanceKeeps(o, w, l.sec, l.identity);
    w2, st := TouchKeeps(o, w1, l.mint, l.sec, l.isCreate);
    var after := AfterLifecycle(st, l, w2.engine.epoch);
    AfterLifecycleClaims(st, l, w2.engine.epoch);
    w3 := StoreKeepsInv(o, w2, l.mint, after);
  }

  /** A creation that claims adds its own mint to those created now. */
  lemma ClaimKeeps(o: Options, w: World, l: LifecycleEvent, w1: World, w3: World, claims: bool)
    requires w3 == w1.(engine := w1.engine.(mints := w3.engine.mints))
    requires w1.counted == w.counted && w1.lost == w.lost && KeepsYoung(o, w.engine, w1.engine)
    requires w1.engine.watermark == Some(Max(l.sec, w.engine.watermark.GetOr(l.sec)))
    requires CreatedNow(w3.engine) <= CreatedNow(w1.engine) + if claims then {l.mint} else {}
    ensures CreatedHeld(o, w1) && (claims ==> HeldYoung(o, w, l)) ==> CreatedHeld(o, w3)
    ensures CreatedWhole(o, w1) && (claims ==> LostNoneYoung(o, w, l) && w1.engine.coverageSince.Some?)
            ==> CreatedWhole(o, w3)
  {
    if claims && HeldYoung(o, w, l) {
      forall sec | Young(o, w3.engine, sec)
        ensures Faithful(w3.engine.buckets, w3.counted, l.mint, sec)
      {
        assert Faithful(w.engine.buckets, w.counted, l.mint, sec);
        assert At(w1.engine.buckets, l.mint, sec) == At(w.engine.buckets, l.mint, sec);
      }
    }
  }

  lemma LifecycleKeeps(o: Options, w: World, l: LifecycleEvent)
    requires Inv(o, w) && Admissible(o, w, LifecycleArrives(l))
    ensures Inv(o, Next(o, w, LifecycleArrives(l)))
    ensures CreatedHeld(o, w) && CreationHeld(o, w, LifecycleArrives(l))
            ==> CreatedHeld(o, Next(o, w, LifecycleArrives(l)))
    ensures CreatedWhole(o, w) && CreationWatched(o, w, LifecycleArrives(l))
            ==> CreatedWhole(o, Next(o, w, LifecycleArrives(l)))
  {
    if Accepts(o, w.engine, l.identity, l.sec, l.receivedAtMs) {
      var w1, w2, st, w3 := AcceptedLifecycleKeeps(o, w, l);
      LifecycleIs(o, w, l, w1, w2, st, w3);
      ClaimKeeps(o, w, l, w1, w3, l.isCreate && st.creationSec.None?);
    }
  }

  lemma LifecycleIs(o: Options, w: World, l: LifecycleEvent, w1: World, w2: World, st: MintState, w3: World)
    requires Accepts(o, w.engine, l.identity, l.sec, l.receivedAtMs) && LifecycleStages(o, w, l, w1, w2, st, w3)
    ensures Next(o, w, LifecycleArrives(l)) == w3
    ensures Claims(o, w.engine, l) <==> l.isCreate && st.creationSec.None?
  {}

  /**
   * Every admissible step keeps the invariant; mints created now stay held when creations find their young seconds
   * held, and stay whole when creations are watched.
   */
  lemma StepKeeps(o: Options, w: World, step: Step)
    requires Inv(o, w) && Admissible(o, w, step)
    ensures Inv(o, Next(o, w, step))
    ensures CreatedHeld(o, w) && CreationHeld(o, w, step) ==> CreatedHeld(o, Next(o, w, step))
    ensures CreatedWhole(o, w) && CreationWatched(o, w, step) ==> CreatedWhole(o, Next(o, w, step))
  {
    match step
    case TradeArrives(e) => TradeKeeps(o, w, e);
    case LifecycleArrives(l) => LifecycleKeeps(o, w, l);
    case Lost(h) =>
      assert (w.lost + [h])[..w.settled] == w.lost[..w.settled];
    case _ => SignalKeeps(o, w, step);
  }

  /** A signal breaks coverage and moves the epoch, or leaves all that the invariant is about. */
  lemma SignalKeeps(o: Options, w: World, step: Step)
    requires Inv(o, w) && !step.TradeArrives? && !step.LifecycleArrives? && !step.Lost?
    ensures Inv(o, Next(o, w, step))
    ensures CreatedHeld(o, w) ==> CreatedHeld(o, Next(o, w, step))
    ensures CreatedWhole(o, w) ==> CreatedWhole(o, Next(o, w, step))
  {
    var s, s1 := w.engine, Next(o, w, step).engine;
    if s1.epoch > s.epoch {
      BreakKeeps(o, w, s1);
    } else {
      assert CreatedNow(s1) == CreatedNow(s);
    }
  }

  lemma {:induction false} RunKeeps(o: Options, w: World, steps: seq<Step>)
    requires Inv(o, w) && AdmissibleRun(o, w, steps)
    ensures Inv(o, Run(o, w, steps))
    ensures CreatedHeld(o, w) && CreationsHeldRun(o, w, steps) ==> CreatedHeld(o, Run(o, w, steps))
    ensures CreatedWhole(o, w) && CreationsWatchedRun(o, w, steps) ==> CreatedWhole(o, Run(o, w, steps))
    decreases |steps|
  {
    if steps != [] {
      StepKeeps(o, w, steps[0]);
      RunKeeps(o, Next(o, w, steps[0]), steps[1..]);
    }
  }

  // ---- the answers -----------------------------------------------------------------------------------------------

  /** A query now answers a window with this total; the window's first and last second. */
  ghost predicate Answered(o: Options, w: World, mint: Mint, nowMs: int, total: Bucket, fromSec: int, toSec: int) {
    var v := Compute(o, w.engine, mint, nowMs).1;
    w.engine.watermark.Some? &&
    (var T := w.engine.watermark.value - o.settleSec;
     || (v.current == Some(total) && fromSec == T - 59 && toSec == T)
     || (v.previous == Some(total) && fromSec == T - 119 && toSec == T - 60))
  }

  /** The same world, had nothing been lost. */
  ghost function Lossless(w: World): World {
    w.(lost := [], settled := 0)
  }

  lemma LosslessStepKeeps(o: Options, w: World, step: Step)
    requires Inv(o, Lossless(w)) && CreatedHeld(o, Lossless(w)) && CreationHeld(o, w, step)
    ensures Inv(o, Lossless(Next(o, w, step))) && CreatedHeld(o, Lossless(Next(o, w, step)))
  {
    if step.Lost? {
      assert Lossless(Next(o, w, step)) == Lossless(w);
    } else {
      StepKeeps(o, Lossless(w), step);
      assert Lossless(Next(o, w, step)) == Next(o, Lossless(w), step);
    }
  }

  lemma {:induction false} LosslessRunKeeps(o: Options, w: World, steps: seq<Step>)
    requires Inv(o, Lossless(w)) && CreatedHeld(o, Lossless(w)) && CreationsHeldRun(o, w, steps)
    ensures Inv(o, Lossless(Run(o, w, steps))) && CreatedHeld(o, Lossless(Run(o, w, steps)))
    decreases |steps|
  {
    if steps != [] {
      LosslessStepKeeps(o, w, steps[0]);
      LosslessRunKeeps(o, Next(o, w, steps[0]), steps[1..]);
    }
  }

  /**
   * Windowed volume refines the full log: whatever the arrival order, losses, pruning and capacity drops, an answered
   * window totals every trade of the mint ever counted with a second inside it, when every creation that claims its
   * mint finds what was counted of it still held as far back as windows ask.
   */
  lemma AnswersTotalTheCountedLog(
    o: Options, steps: seq<Step>, mint: Mint, nowMs: int, total: Bucket, fromSec: int, toSec: int)
    requires o.Accepted() && CreationsHeldRun(o, START, steps)
    requires Answered(o, Run(o, START, steps), mint, nowMs, total, fromSec, toSec)
    ensures total == LogSum(Run(o, START, steps).counted, mint, fromSec, toSec)
  {
    StartKeeps(o);
    LosslessRunKeeps(o, START, steps);
    var w := Lossless(Run(o, START, steps));
    AnsweredIsVouched(o, w, mint, nowMs, total, fromSec, toSec);
    VouchedIsCounted(o, w, mint, total, fromSec, toSec);
  }

  /**
   * Coverage soundness: when those creations are also accepted while connected and after no young loss, an answered
   * window holds no lost trade, so it totals every trade of the mint that happened in it.
   */
  lemma AnswersTotalWhatHappened(
    o: Options, steps: seq<Step>, mint: Mint, nowMs: int, total: Bucket, fromSec: int, toSec: int)
    requires o.Accepted() && AdmissibleRun(o, START, steps)
    requires CreationsHeldRun(o, START, steps) && CreationsWatchedRun(o, START, steps)
    requires Answered(o, Run(o, START, steps), mint, nowMs, total, fromSec, toSec)
    ensures var w := Run(o, START, steps);
            && (forall i | 0 <= i < |w.lost| && w.lost[i].mint == mint :: !(fromSec <= w.lost[i].sec <= toSec))
            && total == LogSum(w.counted + w.lost, mint, fromSec, toSec)
  {
    StartKeeps(o);
    RunKeeps(o, START, steps);
    AnsweredIsVouched(o, Run(o, START, steps), mint, nowMs, total, fromSec, toSec);
    VouchedIsWhole(o, Run(o, START, steps), mint, total, fromSec, toSec);
  }

  lemma StartKeeps(o: Options)
    requires o.Accepted()
    ensures Inv(o, START) && CreatedHeld(o, START) && CreatedWhole(o, START) && Lossless(START) == START
  {
    assert CreatedNow(FRESH) == {};
  }

  /** The total is the buckets', over seconds that can be asked for, and the window is covered or the mint created now. */
  ghost predicate Vouched(o: Options, w: World, mint: Mint, total: Bucket, fromSec: int, toSec: int) {
    && total == WindowSum(w.engine.buckets, mint, fromSec, toSec)
    && w.engine.watermark.Some? && fromSec >= Oldest(o, w.engine.watermark.value)
    && (mint in CreatedNow(w.engine) || (w.engine.coverageSince.Some? && w.engine.coverageSince.value <= fromSec))
  }

  lemma AnsweredIsVouched(o: Options, w: World, mint: Mint, nowMs: int, total: Bucket, fromSec: int, toSec: int)
    requires Answered(o, w, mint, nowMs, total, fromSec, toSec)
    ensures Vouched(o, w, mint, total, fromSec, toSec)
  {
    var at := IndexOf(w.engine.mints, mint);
    if Get(w.engine.mints, mint).Some? && CreationCovered(w.engine, w.engine.mints[at].1) {
      assert w.engine.mints[at].0 == mint;
    }
  }

  lemma VouchedIsCounted(o: Options, w: World, mint: Mint, total: Bucket, fromSec: int, toSec: int)
    requires Inv(o, w) && CreatedHeld(o, w) && Vouched(o, w, mint, total, fromSec, toSec)
    ensures total == LogSum(w.counted, mint, fromSec, toSec)
  {
    forall sec | fromSec <= sec <= toSec
      ensures Faithful(w.engine.buckets, w.counted, mint, sec)
    {
      assert Young(o, w.engine, sec);
    }
    FaithfulWindow(w.engine.buckets, w.counted, mint, fromSec, toSec);
  }

  lemma VouchedIsWhole(o: Options, w: World, mint: Mint, total: Bucket, fromSec: int, toSec: int)
    requires Inv(o, w) && CreatedHeld(o, w) && CreatedWhole(o, w) && Vouched(o, w, mint, total, fromSec, toSec)
    ensures forall i | 0 <= i < |w.lost| && w.lost[i].mint == mint :: !(fromSec <= w.lost[i].sec <= toSec)
    ensures total == LogSum(w.counted + w.lost, mint, fromSec, toSec)
  {
    VouchedIsCounted(o, w, mint, total, fromSec, toSec);
    NothingLostInside(o, w, mint, fromSec, toSec);
    LossesOutside(w.counted, w.lost, mint, fromSec, toSec);
  }

  lemma NothingLostInside(o: Options, w: World, mint: Mint, fromSec: int, toSec: int)
    requires LossesKnown(w) && CreatedWhole(o, w)
    requires w.engine.watermark.Some? && fromSec >= Oldest(o, w.engine.watermark.value)
    requires mint in CreatedNow(w.engine)
             || (w.engine.coverageSince.Some? && w.engine.coverageSince.value <= fromSec)
    ensures forall i | 0 <= i < |w.lost| && w.lost[i].mint == mint :: !(fromSec <= w.lost[i].sec <= toSec)
  {
    forall i | 0 <= i < |w.lost| && w.lost[i].mint == mint
      ensures !(fromSec <= w.lost[i].sec <= toSec)
    {
      assert mint in CreatedNow(w.engine) ==> !Young(o, w.engine, w.lost[i].sec);
    }
  }

  // ---- a step seen from the stream -------------------------------------------------------------------------------

  /** What an accepted event does to the stream's own state: only reaching its second, and possibly a capacity break. */
  ghost predicate StreamAfter(s1: Engine, s: Engine) {
    && s.watermark == s1.watermark && s.seen == s1.seen && s.capEvictions == s1.capEvictions
    && ((s.coverageSince == s1.coverageSince && s.epoch == s1.epoch) || (s.coverageSince.None? && s.epoch == s1.epoch + 1))
  }

  lemma TradeStream(o: Options, s: Engine, e: TradeEvent)
    requires Accepts(o, s, e.identity, e.sec, e.receivedAtMs)
    ensures StreamAfter(AdvanceWatermark(o, Remember(o, s, e.identity, e.sec), e.sec), AcceptTrade(o, s, e))
  {
    var s1 := AdvanceWatermark(o, Remember(o, s, e.identity, e.sec), e.sec);
    var (s2, st) := TouchMint(o, s1, e.mint, e.sec, false);
    assert StreamAfter(s1, s2);
    var s3 := StoreMint(s2, e.mint, AfterTrade(st, e, s2.epoch));
    assert StreamAfter(s1, s3);
    assert StreamAfter(s1, Count(o, s3, e));
  }

  lemma LifecycleStream(o: Options, s: Engine, l: LifecycleEvent)
    requires Accepts(o, s, l.identity, l.sec, l.receivedAtMs)
    ensures StreamAfter(AdvanceWatermark(o, Remember(o, s, l.identity, l.sec), l.sec), AcceptLifecycle(o, s, l))
  {
    var s1 := AdvanceWatermark(o, Remember(o, s, l.identity, l.sec), l.sec);
    var (s2, st) := TouchMint(o, s1, l.mint, l.sec, l.isCreate);
    assert StreamAfter(s1, s2);
  }

  /** Identity and second of the event a step gets accepted, if any. */
  ghost function AcceptedEvent(o: Options, s: Engine, step: Step): Option<(Key, int)> {
    match step
    case TradeArrives(e) =>
      if Accepts(o, s, e.identity, e.sec, e.receivedAtMs) then Some((e.identity, e.sec)) else None
    case LifecycleArrives(l) =>
      if Accepts(o, s, l.identity, l.sec, l.receivedAtMs) then Some((l.identity, l.sec)) else None
    case _ => None
  }

  lemma ReachedWatermark(o: Options, s: Engine, sec: int)
    ensures var s1 := AdvanceWatermark(o, s, sec);
      && s1.watermark.Some? && sec <= s1.watermark.value
      && (s.watermark.Some? ==> s.watermark.value <= s1.watermark.value)
  {}

  /** An event no later than the watermark moves neither the mints nor the buckets. */
  lemma NoNewSecond(o: Options, s: Engine, identity: Key, sec: int)
    requires s.watermark.Some? && sec <= s.watermark.value
    ensures var s1 := AdvanceWatermark(o, Remember(o, s, identity, sec), sec);
      s1.mints == s.mints && s1.buckets == s.buckets && s1.epoch == s.epoch
  {}

  /** Any step, seen from the stream: it gets an event accepted, or leaves time, identities and counts alone. */
  ghost predicate StreamStep(o: Options, w: World, step: Step, w1: World) {
    var s, s1 := w.engine, w1.engine;
    match AcceptedEvent(o, s, step)
    case Some(ev) =>
      && StreamAfter(AdvanceWatermark(o, Remember(o, s, ev.0, ev.1), ev.1), s1)
      && (w1.counted == w.counted
          || (step.TradeArrives? && w1.counted == w.counted + [step.trade]))
    case None =>
      && s1.watermark == s.watermark && s1.seen == s.seen && s1.capEvictions == s.capEvictions
      && w1.counted == w.counted && s1.epoch >= s.epoch
      && (s1.coverageSince == s.coverageSince || s1.coverageSince.None?)
  }

  lemma EveryStepIsAStreamStep(o: Options, w: World, step: Step)
    ensures StreamStep(o, w, step, Next(o, w, step))
  {
    if step.TradeArrives? {
      if AcceptedEvent(o, w.engine, step).Some? { TradeStream(o, w.engine, step.trade); }
    } else if step.LifecycleArrives? {
      if AcceptedEvent(o, w.engine, step).Some? { LifecycleStream(o, w.engine, step.lifecycle); }
    }
  }

  // ---- coverage and epochs only move forward ---------------------------------------------------------------------

  /** `since` is a start of coverage the engine has had: later ones cannot precede it. */
  ghost predicate NotBeforeCoverage(s: Engine, since: int) {
    && s.watermark.Some? && since <= s.watermark.value + 1
    && (s.coverageSince.Some? ==> since <= s.coverageSince.value)
  }

  lemma StepMovesForward(o: Options, w: World, step: Step, w1: World, since: int)
    requires Inv(o, w) && NotBeforeCoverage(w.engine, since) && StreamStep(o, w, step, w1)
    ensures NotBeforeCoverage(w1.engine, since) && w.engine.epoch <= w1.engine.epoch
  {
    var ev := AcceptedEvent(o, w.engine, step);
    if ev.Some? {
      AdvanceShape(o, Remember(o, w.engine, ev.value.0, ev.value.1), ev.value.1);
    }
  }

  lemma {:induction false} RunMovesForward(o: Options, w: World, steps: seq<Step>, since: int)
    requires Inv(o, w) && AdmissibleRun(o, w, steps) && NotBeforeCoverage(w.engine, since)
    ensures NotBeforeCoverage(Run(o, w, steps).engine, since) && w.engine.epoch <= Run(o, w, steps).engine.epoch
    decreases |steps|
  {
    if steps != [] {
      StepKeeps(o, w, steps[0]);
      EveryStepIsAStreamStep(o, w, steps[0]);
      StepMovesForward(o, w, steps[0], Next(o, w, steps[0]), since);
      RunMovesForward(o, Next(o, w, steps[0]), steps[1..], since);
    }
  }

  /** Between any two points of a run the start of coverage and the epoch never go backwards. */
  lemma CoverageNeverMovesBack(o: Options, earlier: seq<Step>, later: seq<Step>)
    requires o.Accepted() && AdmissibleRun(o, START, earlier) && AdmissibleRun(o, Run(o, START, earlier), later)
    requires Run(o, START, earlier).engine.coverageSince.Some?
    ensures var a, b := Run(o, START, earlier).engine, Run(o, Run(o, START, earlier), later).engine;
            && a.epoch <= b.epoch
            && (b.coverageSince.Some? ==> a.coverageSince.value <= b.coverageSince.value)
  {
    StartKeeps(o);
    RunKeeps(o, START, earlier);
    var w := Run(o, START, earlier);
    RunMovesForward(o, w, later, w.engine.coverageSince.value);
  }
}
