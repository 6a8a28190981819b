/**
 * Exactly-once counting over whole runs of the volume engine: how often a redelivered trade reaches the buckets, and
 * what the hard cap of the identity set has to do with it.
 */
module VolumeDedupe {
  import opened Prelude
  import opened OrderedMaps
  import opened BoundedStructures
  import opened VolumeModel
  import opened VolumeSafety

  /** A redelivered identity carries the second it was counted with. */
  ghost predicate FixedSecond(w: World, step: Step) {
    step.TradeArrives? ==>
      forall i | 0 <= i < |w.counted| && w.counted[i].identity == step.trade.identity :: w.counted[i].sec == step.trade.sec
  }

  ghost predicate FixedSecondsRun(o: Options, w: World, steps: seq<Step>)
    decreases |steps|
  {
    steps == [] || (FixedSecond(w, steps[0]) && FixedSecondsRun(o, Next(o, w, steps[0]), steps[1..]))
  }

  ghost predicate CountedOnce(counted: seq<TradeEvent>) {
    forall i, j | 0 <= i < j < |counted| :: counted[i].identity != counted[j].identity
  }

  ghost predicate KnownTrade(counted: seq<TradeEvent>, identity: Key, sec: int) {
    exists i :: 0 <= i < |counted| && counted[i].identity == identity && counted[i].sec == sec
  }

  // ---- what the cap forgets --------------------------------------------------------------------------------------

  /** What remembering an identity pushes out of the set. */
  ghost function PushedOut(o: Options, s: Engine, identity: Key, sec: int): set<(Key, int)> {
    var all := s.seen + [(identity, sec)];
    if |all| <= o.maxDedupeEntries then {} else {all[0]}
  }

  ghost function EvictedBy(o: Options, w: World, step: Step): set<(Key, int)> {
    match AcceptedEvent(o, w.engine, step)
    case Some(ev) => PushedOut(o, w.engine, ev.0, ev.1)
    case None => {}
  }

  /** Every identity the cap has evicted over a run. */
  ghost function Evicted(o: Options, w: World, steps: seq<Step>): set<(Key, int)>
    decreases |steps|
  {
    if steps == [] then {} else EvictedBy(o, w, steps[0]) + Evicted(o, Next(o, w, steps[0]), steps[1..])
  }

  /** A counted identity is still remembered, or the time check already refuses its second, or the cap evicted it. */
  ghost predicate Remembered(o: Options, s: Engine, counted: seq<TradeEvent>, evicted: set<(Key, int)>) {
    forall i | 0 <= i < |counted| :: Accounted(o, s, (counted[i].identity, counted[i].sec), evicted)
  }

  ghost predicate Accounted(o: Options, s: Engine, p: (Key, int), evicted: set<(Key, int)>) {
    p in s.seen || p in evicted || (s.watermark.Some? && p.1 < s.watermark.value - o.retentionSec)
  }

  /** Reaching a second forgets only identities past the horizon. */
  lemma ReachingForgetsOnlyOld(o: Options, s: Engine, sec: int, p: (Key, int), evicted: set<(Key, int)>)
    requires Accounted(o, s, p, evicted)
    ensures Accounted(o, AdvanceWatermark(o, s, sec), p, evicted)
  {
    var s1 := AdvanceWatermark(o, s, sec);
    ReachedWatermark(o, s, sec);
    var n := PruneHeadDropsOld(s.seen, sec - o.retentionSec);
    assert s1.seen == s.seen || (s1.seen == s.seen[n..] && s1.watermark == Some(sec));
    if p in s.seen && s1.seen != s.seen {
      var i :| 0 <= i < |s.seen| && s.seen[i] == p;
      if i >= n {
        assert s.seen[n..][i - n] == p;
      }
    }
  }

  /** Remembering an identity loses at most what it pushes out. */
  lemma RememberingLosesOne(o: Options, s: Engine, identity: Key, sec: int, p: (Key, int), evicted: set<(Key, int)>)
    requires Accounted(o, s, p, evicted) || p == (identity, sec)
    ensures Accounted(o, Remember(o, s, identity, sec), p, evicted + PushedOut(o, s, identity, sec))
  {
    var all := s.seen + [(identity, sec)];
    assert p in s.seen || p == (identity, sec) ==> p in all;
    if p in all {
      var i :| 0 <= i < |all| && all[i] == p;
      if i > 0 {
        assert all[1..][i - 1] == p;
      }
    }
  }

  lemma StepRemembers(o: Options, w: World, step: Step, evicted: set<(Key, int)>)
    requires Remembered(o, w.engine, w.counted, evicted)
    ensures var w1 := Next(o, w, step);
      Remembered(o, w1.engine, w1.counted, evicted + EvictedBy(o, w, step))
  {
    var w1, later := Next(o, w, step), evicted + EvictedBy(o, w, step);
    EveryStepIsAStreamStep(o, w, step);
    forall i | 0 <= i < |w1.counted|
      ensures Accounted(o, w1.engine, (w1.counted[i].identity, w1.counted[i].sec), later)
    {
      CountedIsAccounted(o, w, step, w1, evicted, i);
    }
  }

  lemma CountedIsAccounted(o: Options, w: World, step: Step, w1: World, evicted: set<(Key, int)>, i: nat)
    requires Remembered(o, w.engine, w.counted, evicted) && StreamStep(o, w, step, w1) && i < |w1.counted|
    ensures Accounted(o, w1.engine, (w1.counted[i].identity, w1.counted[i].sec), evicted + EvictedBy(o, w, step))
  {
    var p := (w1.counted[i].identity, w1.counted[i].sec);
    match AcceptedEvent(o, w.engine, step)
    case None =>
      assert Accounted(o, w.engine, p, evicted);
    case Some(ev) =>
      assert i < |w.counted| ==> Accounted(o, w.engine, p, evicted);
      RememberingLosesOne(o, w.engine, ev.0, ev.1, p, evicted);
      ReachingForgetsOnlyOld(o, Remember(o, w.engine, ev.0, ev.1), ev.1, p, evicted + PushedOut(o, w.engine, ev.0, ev.1));
  }

  lemma {:induction false} RunRemembers(o: Options, w: World, steps: seq<Step>, evicted: set<(Key, int)>)
    requires Remembered(o, w.engine, w.counted, evicted)
    ensures var end := Run(o, w, steps); Remembered(o, end.engine, end.counted, evicted + Evicted(o, w, steps))
    decreases |steps|
  {
    if steps == [] {
      assert evicted + {} == evicted;
    } else {
      var now, w1 := EvictedBy(o, w, steps[0]), Next(o, w, steps[0]);
      StepRemembers(o, w, steps[0], evicted);
      RunRemembers(o, w1, steps[1..], evicted + now);
      assert (evicted + now) + Evicted(o, w1, steps[1..]) == evicted + (now + Evicted(o, w1, steps[1..]));
    }
  }

  // ---- when a redelivery is counted again ------------------------------------------------------------------------

  /** What the engine can tell before a trade arrives: in time, not remembered, and its mint open or not held. */
  ghost predicate WouldCount(o: Options, s: Engine, e: TradeEvent) {
    && e.quote.NativeSol? && e.sec <= e.receivedAtMs / 1000 + o.futureToleranceSec
    && (s.watermark.Some? ==> e.sec >= s.watermark.value - o.retentionSec)
    && !Has(s.seen, e.identity)
    && (Get(s.mints, e.mint).Some? ==> Get(s.mints, e.mint).value.status.Active?)
  }

  lemma CountsExactlyWhen(o: Options, w: World, e: TradeEvent)
    requires w.engine.watermark.Some? && e.sec <= w.engine.watermark.value
    ensures Next(o, w, TradeArrives(e)).counted == if WouldCount(o, w.engine, e) then w.counted + [e] else w.counted
  {
    NoNewSecond(o, w.engine, e.identity, e.sec);
  }

  lemma StepStaysUpToWatermark(o: Options, w: World, step: Step)
    requires UpToWatermark(w.counted, w.engine.watermark)
    ensures var w1 := Next(o, w, step); UpToWatermark(w1.counted, w1.engine.watermark)
  {
    EveryStepIsAStreamStep(o, w, step);
    var ev := AcceptedEvent(o, w.engine, step);
    if ev.Some? {
      ReachedWatermark(o, Remember(o, w.engine, ev.value.0, ev.value.1), ev.value.1);
    }
  }

  lemma {:induction false} RunStaysUpToWatermark(o: Options, w: World, steps: seq<Step>)
    requires UpToWatermark(w.counted, w.engine.watermark)
    ensures var end := Run(o, w, steps); UpToWatermark(end.counted, end.engine.watermark)
    decreases |steps|
  {
    if steps != [] {
      StepStaysUpToWatermark(o, w, steps[0]);
      RunStaysUpToWatermark(o, Next(o, w, steps[0]), steps[1..]);
    }
  }

  /**
   * At any point of any run, for any cap: a trade that was counted before and comes again with its second reaches the
   * buckets again exactly when its identity is no longer remembered, its second is still inside the horizon, its mint
   * is open and its arrival is not early; and the identity was then evicted by the cap, nothing else.
   */
  lemma RedeliveryCountsExactlyWhenEvicted(o: Options, steps: seq<Step>, e: TradeEvent)
    requires KnownTrade(Run(o, START, steps).counted, e.identity, e.sec)
    ensures var w := Run(o, START, steps);
      && Next(o, w, TradeArrives(e)).counted == (if WouldCount(o, w.engine, e) then w.counted + [e] else w.counted)
      && (WouldCount(o, w.engine, e) ==> (e.identity, e.sec) in Evicted(o, START, steps))
  {
    var w := Run(o, START, steps);
    RunStaysUpToWatermark(o, START, steps);
    RunRemembers(o, START, steps, {});
    var i :| 0 <= i < |w.counted| && w.counted[i].identity == e.identity && w.counted[i].sec == e.sec;
    CountsExactlyWhen(o, w, e);
    NotBefore(w.engine.seen, e.identity);
    assert Accounted(o, w.engine, (w.counted[i].identity, w.counted[i].sec), {} + Evicted(o, START, steps));
  }

  // ---- counted once over a run -----------------------------------------------------------------------------------

  /** The step brings a trade that was counted before and is counted again. */
  ghost predicate Recounts(o: Options, w: World, step: Step) {
    && step.TradeArrives? && KnownTrade(w.counted, step.trade.identity, step.trade.sec)
    && WouldCount(o, w.engine, step.trade)
  }

  ghost predicate NoneRecounts(o: Options, w: World, steps: seq<Step>)
    decreases |steps|
  {
    steps == [] || (!Recounts(o, w, steps[0]) && NoneRecounts(o, Next(o, w, steps[0]), steps[1..]))
  }

  lemma StepKeepsOnce(o: Options, w: World, step: Step)
    requires FixedSecond(w, step) && UpToWatermark(w.counted, w.engine.watermark) && CountedOnce(w.counted)
    ensures CountedOnce(Next(o, w, step).counted) <==> !Recounts(o, w, step)
  {
    if step.TradeArrives? {
      var e, after := step.trade, Next(o, w, step).counted;
      if KnownTrade(w.counted, e.identity, e.sec) {
        var i :| 0 <= i < |w.counted| && w.counted[i].identity == e.identity && w.counted[i].sec == e.sec;
        CountsExactlyWhen(o, w, e);
        assert Recounts(o, w, step) ==> after[i].identity == after[|w.counted|].identity;
      } else {
        assert forall i | 0 <= i < |w.counted| :: w.counted[i].identity != e.identity;
        assert after == w.counted || after == w.counted + [e];
      }
    }
  }

  lemma {:induction false} CountedGrows(o: Options, w: World, steps: seq<Step>)
    ensures w.counted <= Run(o, w, steps).counted
    decreases |steps|
  {
    if steps != [] {
      CountedGrows(o, Next(o, w, steps[0]), steps[1..]);
    }
  }

  lemma {:induction false} OnceExactly(o: Options, w: World, steps: seq<Step>)
    requires FixedSecondsRun(o, w, steps) && UpToWatermark(w.counted, w.engine.watermark) && CountedOnce(w.counted)
    ensures CountedOnce(Run(o, w, steps).counted) <==> NoneRecounts(o, w, steps)
    decreases |steps|
  {
    if steps != [] {
      var w1 := Next(o, w, steps[0]);
      StepKeepsOnce(o, w, steps[0]);
      StepStaysUpToWatermark(o, w, steps[0]);
      if CountedOnce(w1.counted) {
        OnceExactly(o, w1, steps[1..]);
      } else {
        CountedGrows(o, w1, steps[1..]);
        RepeatStays(w1.counted, Run(o, w1, steps[1..]).counted);
      }
    }
  }

  lemma RepeatStays(shorter: seq<TradeEvent>, longer: seq<TradeEvent>)
    requires shorter <= longer && !CountedOnce(shorter)
    ensures !CountedOnce(longer)
  {
    var i, j :| 0 <= i < j < |shorter| && shorter[i].identity == shorter[j].identity;
    assert longer[i] == shorter[i] && longer[j] == shorter[j];
  }

  /**
   * Over every run whose redeliveries keep their seconds, each trade identity is counted at most once exactly when no
   * step brings a counted trade back after the cap evicted it, while its second is still inside the horizon.
   */
  lemma CountedOnceExactlyWhenNoneRecounts(o: Options, steps: seq<Step>)
    requires FixedSecondsRun(o, START, steps)
    ensures CountedOnce(Run(o, START, steps).counted) <==> NoneRecounts(o, START, steps)
  {
    OnceExactly(o, START, steps);
  }

  lemma ReachingEvictsNothing(o: Options, s: Engine, sec: int)
    ensures AdvanceWatermark(o, s, sec).capEvictions == s.capEvictions
  {}

  lemma EvictionsGrow(o: Options, w: World, step: Step)
    ensures var w1 := Next(o, w, step);
      && w1.engine.capEvictions >= w.engine.capEvictions
      && (w1.engine.capEvictions == w.engine.capEvictions ==> EvictedBy(o, w, step) == {})
  {
    EveryStepIsAStreamStep(o, w, step);
    EvictionsGrowBy(o, w, step, Next(o, w, step));
  }

  lemma EvictionsGrowBy(o: Options, w: World, step: Step, w1: World)
    requires StreamStep(o, w, step, w1)
    ensures w1.engine.capEvictions >= w.engine.capEvictions
    ensures w1.engine.capEvictions == w.engine.capEvictions ==> EvictedBy(o, w, step) == {}
  {
    var ev := AcceptedEvent(o, w.engine, step);
    if ev.Some? {
      ReachingEvictsNothing(o, Remember(o, w.engine, ev.value.0, ev.value.1), ev.value.1);
    }
  }

  lemma {:induction false} EvictionsOnlyGrow(o: Options, w: World, steps: seq<Step>)
    ensures var end := Run(o, w, steps);
      && end.engine.capEvictions >= w.engine.capEvictions
      && (end.engine.capEvictions == w.engine.capEvictions ==> Evicted(o, w, steps) == {})
    decreases |steps|
  {
    if steps != [] {
      EvictionsGrow(o, w, steps[0]);
      EvictionsOnlyGrow(o, Next(o, w, steps[0]), steps[1..]);
    }
  }

  lemma {:induction false} NothingEvictedNothingRecounts(o: Options, w: World, steps: seq<Step>)
    requires Remembered(o, w.engine, w.counted, {}) && Evicted(o, w, steps) == {}
    ensures NoneRecounts(o, w, steps)
    decreases |steps|
  {
    if steps != [] {
      var step := steps[0];
      if Recounts(o, w, step) {
        var e := step.trade;
        var i :| 0 <= i < |w.counted| && w.counted[i].identity == e.identity && w.counted[i].sec == e.sec;
        assert Accounted(o, w.engine, (w.counted[i].identity, w.counted[i].sec), {});
        NotBefore(w.engine.seen, e.identity);
        assert false;
      }
      StepRemembers(o, w, step, {});
      assert {} + EvictedBy(o, w, step) == {};
      NothingEvictedNothingRecounts(o, Next(o, w, step), steps[1..]);
    }
  }

  /** While nothing was evicted by the cap, every trade identity is counted at most once, however often redelivered. */
  lemma EachIdentityCountsOnce(o: Options, steps: seq<Step>)
    requires FixedSecondsRun(o, START, steps)
    requires Run(o, START, steps).engine.capEvictions == 0
    ensures CountedOnce(Run(o, START, steps).counted)
  {
    EvictionsOnlyGrow(o, START, steps);
    NothingEvictedNothingRecounts(o, START, steps);
    OnceExactly(o, START, steps);
  }

  // ---- such runs exist for every cap -----------------------------------------------------------------------------

  function Arrivals(es: seq<TradeEvent>): seq<Step> {
    seq(|es|, i requires 0 <= i < |es| => TradeArrives(es[i]))
  }

  function Pairs(es: seq<TradeEvent>): OrderedMap<Key, int> {
    seq(|es|, i requires 0 <= i < |es| => (es[i].identity, es[i].sec))
  }

  lemma {:induction false} RunThenOne(o: Options, w: World, steps: seq<Step>, last: Step)
    ensures Run(o, w, steps + [last]) == Next(o, Run(o, w, steps), last)
    ensures FixedSecondsRun(o, w, steps) && FixedSecond(Run(o, w, steps), last) ==> FixedSecondsRun(o, w, steps + [last])
    decreases |steps|
  {
    if steps == [] {
      assert [] + [last] == [last] && [last][1..] == [];
      assert Run(o, Next(o, w, last), []) == Next(o, w, last);
      assert FixedSecondsRun(o, Next(o, w, last), []);
    } else {
      assert (steps + [last])[1..] == steps[1..] + [last];
      RunThenOne(o, Next(o, w, steps[0]), steps[1..], last);
    }
  }

  /** Different trades of one mint in one second, in native SOL and on time. */
  ghost predicate OneSecond(o: Options, es: seq<TradeEvent>, mint: Mint, sec: int) {
    && (forall i | 0 <= i < |es| ::
          es[i].mint == mint && es[i].sec == sec && es[i].quote.NativeSol?
          && sec <= es[i].receivedAtMs / 1000 + o.futureToleranceSec)
    && (forall i, j | 0 <= i < j < |es| :: es[i].identity != es[j].identity)
  }

  /** The world after some of them were counted. */
  ghost predicate HasCounted(w: World, es: seq<TradeEvent>, mint: Mint, sec: int) {
    var s := w.engine;
    && w.counted == es && Unique(s.mints)
    && if es == [] then s.mints == [] && s.watermark.None?
       else s.watermark == Some(sec) && Get(s.mints, mint).Some? && Get(s.mints, mint).value.status.Active?
  }

  lemma OneMoreCounts(o: Options, w: World, es: seq<TradeEvent>, e: TradeEvent)
    requires o.maxMintStates >= 1 && o.maxDedupeEntries >= 1 && o.retentionSec >= 0
    requires HasCounted(w, es, e.mint, e.sec) && OneSecond(o, [e], e.mint, e.sec) && !Has(w.engine.seen, e.identity)
    requires forall i | 0 <= i < |w.engine.seen| :: w.engine.seen[i].1 == e.sec
    ensures var w1 := Next(o, w, TradeArrives(e));
      && HasCounted(w1, es + [e], e.mint, e.sec)
      && w1.engine.seen == Remember(o, w.engine, e.identity, e.sec).seen
      && w1.engine.capEvictions == Remember(o, w.engine, e.identity, e.sec).capEvictions
  {
    var s := w.engine;
    assert [e][0] == e;
    var s0 := Remember(o, s, e.identity, e.sec);
    ReachesOwnSecond(o, s0, e.sec);
    var s1 := AdvanceWatermark(o, s0, e.sec);
    FirstOrNextTrade(o, s1, e);
    CountedFrom(o, w, s1, e);
  }

  /** A counted trade leaves its mint open and the rest of the stream as it found it on reaching the second. */
  lemma CountedFrom(o: Options, w: World, s1: Engine, e: TradeEvent)
    requires Accepts(o, w.engine, e.identity, e.sec, e.receivedAtMs) && e.quote.NativeSol?
    requires s1 == AdvanceWatermark(o, Remember(o, w.engine, e.identity, e.sec), e.sec)
    requires var (s2, st) := TouchMint(o, s1, e.mint, e.sec, false);
      var s3 := StoreMint(s2, e.mint, AfterTrade(st, e, s2.epoch));
      && st.status.Active? && Unique(s3.mints)
      && Get(s3.mints, e.mint).Some? && Get(s3.mints, e.mint).value.status.Active?
    ensures var w1 := Next(o, w, TradeArrives(e));
      && w1.counted == w.counted + [e] && Unique(w1.engine.mints) && w1.engine.watermark == s1.watermark
      && w1.engine.seen == s1.seen && w1.engine.capEvictions == s1.capEvictions
      && Get(w1.engine.mints, e.mint).Some? && Get(w1.engine.mints, e.mint).value.status.Active?
  {
    var (s2, st) := TouchMint(o, s1, e.mint, e.sec, false);
    var s3 := StoreMint(s2, e.mint, AfterTrade(st, e, s2.epoch));
    assert Next(o, w, TradeArrives(e)).engine == Count(o, s3, e);
    assert Count(o, s3, e).mints == s3.mints;
    TradeStream(o, w.engine, e);
  }

  /** The first event, or one of the newest second. */
  lemma ReachesOwnSecond(o: Options, s: Engine, sec: int)
    requires (s.watermark.None? && s.mints == []) || s.watermark == Some(sec)
    requires o.retentionSec >= 0 && forall i | 0 <= i < |s.seen| :: s.seen[i].1 == sec
    ensures var s1 := AdvanceWatermark(o, s, sec);
      && s1.watermark == Some(sec) && s1.seen == s.seen && s1.mints == s.mints && s1.capEvictions == s.capEvictions
  {
    SameSecondForgetsNothing(s.seen, sec, sec - o.retentionSec);
  }

  lemma SameSecondForgetsNothing(seen: OrderedMap<Key, int>, sec: int, minSec: int)
    requires minSec <= sec && forall i | 0 <= i < |seen| :: seen[i].1 == sec
    ensures PruneHead(seen, minSec) == seen
  {}

  lemma FirstOrNextTrade(o: Options, s1: Engine, e: TradeEvent)
    requires o.maxMintStates >= 1 && Unique(s1.mints) && e.quote.NativeSol?
    requires s1.mints == [] || (Get(s1.mints, e.mint).Some? && Get(s1.mints, e.mint).value.status.Active?)
    ensures var (s2, st) := TouchMint(o, s1, e.mint, e.sec, false);
      var s3 := StoreMint(s2, e.mint, AfterTrade(st, e, s2.epoch));
      && st.status.Active? && Unique(s3.mints)
      && Get(s3.mints, e.mint).Some? && Get(s3.mints, e.mint).value.status.Active?
  {
    var (s2, st) := TouchMint(o, s1, e.mint, e.sec, false);
    if s1.mints == [] {
      assert s2.mints == [(e.mint, st)];
      FoundAt(s2.mints, 0);
    } else {
      GetAfterSet(s1.mints, e.mint, st, e.mint);
    }
    GetAfterSet(s2.mints, e.mint, AfterTrade(st, e, s2.epoch), e.mint);
  }

  /** Up to the cap all of them are remembered; one more pushes the first out. */
  ghost predicate Filled(o: Options, w: World, es: seq<TradeEvent>, mint: Mint, sec: int) {
    && HasCounted(w, es, mint, sec)
    && w.engine.seen == (if |es| <= o.maxDedupeEntries then Pairs(es) else Pairs(es)[1..])
    && w.engine.capEvictions == (if |es| <= o.maxDedupeEntries then 0 else 1)
  }

  lemma OneMoreFills(o: Options, w: World, front: seq<TradeEvent>, e: TradeEvent)
    requires o.maxMintStates >= 1 && o.maxDedupeEntries >= 1 && o.retentionSec >= 0
    requires Filled(o, w, front, e.mint, e.sec) && |front| <= o.maxDedupeEntries
    requires OneSecond(o, [e], e.mint, e.sec)
    requires forall i | 0 <= i < |front| :: front[i].identity != e.identity && front[i].sec == e.sec
    ensures Filled(o, Next(o, w, TradeArrives(e)), front + [e], e.mint, e.sec) && FixedSecond(w, TradeArrives(e))
  {
    OthersRemembered(front, e, e.sec);
    OneMoreCounts(o, w, front, e);
  }

  lemma LastOfTheSecond(o: Options, es: seq<TradeEvent>, mint: Mint, sec: int)
    returns (front: seq<TradeEvent>, e: TradeEvent)
    requires OneSecond(o, es, mint, sec) && es != []
    ensures es == front + [e] && Arrivals(es) == Arrivals(front) + [TradeArrives(e)]
    ensures OneSecond(o, front, mint, sec) && OneSecond(o, [e], mint, sec) && e.mint == mint && e.sec == sec
    ensures forall i | 0 <= i < |front| :: front[i].identity != e.identity && front[i].sec == sec
  {
    var n := |es| - 1;
    front, e := es[..n], es[n];
    assert forall i | 0 <= i < n :: front[i] == es[i];
  }

  lemma {:induction false} AllCount(o: Options, es: seq<TradeEvent>, mint: Mint, sec: int)
    requires o.maxMintStates >= 1 && o.maxDedupeEntries >= 1 && o.retentionSec >= 0
    requires OneSecond(o, es, mint, sec) && |es| <= o.maxDedupeEntries + 1
    ensures Filled(o, Run(o, START, Arrivals(es)), es, mint, sec) && FixedSecondsRun(o, START, Arrivals(es))
    decreases |es|
  {
    if es == [] {
      assert Arrivals(es) == [];
    } else {
      var front, e := LastOfTheSecond(o, es, mint, sec);
      AllCount(o, front, mint, sec);
      OneMoreFills(o, Run(o, START, Arrivals(front)), front, e);
      RunThenOne(o, START, Arrivals(front), TradeArrives(e));
    }
  }

  lemma OthersRemembered(front: seq<TradeEvent>, e: TradeEvent, sec: int)
    requires forall i | 0 <= i < |front| :: front[i].identity != e.identity && front[i].sec == sec
    ensures !Has(Pairs(front), e.identity) && Pairs(front + [e]) == Pairs(front) + [(e.identity, e.sec)]
    ensures forall i | 0 <= i < |front| :: Pairs(front)[i].1 == sec
  {}

  /**
   * The condition is met for every cap: after as many other trades of the same second as the cap has room for, the
   * first one comes again and is counted twice.
   */
  lemma EvictedIdentityCountsTwice(o: Options, a: TradeEvent, others: seq<TradeEvent>) returns (steps: seq<Step>)
    requires o.maxMintStates >= 1 && o.maxDedupeEntries >= 1 && o.retentionSec >= 0
    requires OneSecond(o, [a] + others, a.mint, a.sec) && |others| == o.maxDedupeEntries
    ensures steps == Arrivals([a] + others) + [TradeArrives(a)] && FixedSecondsRun(o, START, steps)
    ensures Run(o, START, steps).engine.capEvictions > 0 && !CountedOnce(Run(o, START, steps).counted)
  {
    var es := [a] + others;
    var before := Arrivals(es);
    steps := before + [TradeArrives(a)];
    AllCount(o, es, a.mint, a.sec);
    RunThenOne(o, START, before, TradeArrives(a));
    var w := Run(o, START, before);
    assert es[0] == a && w.counted[0] == a;
    assert forall i | 0 <= i < |w.engine.seen| :: w.engine.seen[i].0 == es[i + 1].identity;
    CountsExactlyWhen(o, w, a);
    var w1 := Next(o, w, TradeArrives(a));
    assert w1.counted[|es|].identity == w1.counted[0].identity;
    EvictionsGrow(o, w, TradeArrives(a));
  }
}
