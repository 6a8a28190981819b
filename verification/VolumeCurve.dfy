/** What a served curve state is, over every run: the state after a counted, fresh and consistent trade of its mint. */
module VolumeCurve {
  import opened Prelude
  import opened OrderedMaps
  import opened BoundedStructures
  import opened BondingCurveMath
  import opened CurveTracking
  import opened M = VolumeModel
  import S = VolumeSafety

  /** The mint's curve is what one of its logged trades alone would leave. */
  ghost predicate FromLog(mint: Mint, curve: Option<CurveTrack>, log: seq<TradeEvent>) {
    curve.Some? ==>
      exists k :: 0 <= k < |log| && log[k].mint == mint && curve == UpdateCurve(None, CurveEventOf(log[k]))
  }

  ghost predicate AllFromLog(mints: OrderedMap<Mint, MintState>, log: seq<TradeEvent>) {
    forall i | 0 <= i < |mints| :: FromLog(mints[i].0, mints[i].1.curve, log)
  }

  ghost predicate CurvesFromLog(s: Engine, log: seq<TradeEvent>) {
    Unique(s.mints) && AllFromLog(s.mints, log) && S.UpToWatermark(log, s.watermark)
  }

  lemma LogGrows(mint: Mint, curve: Option<CurveTrack>, log: seq<TradeEvent>, more: seq<TradeEvent>)
    requires FromLog(mint, curve, log)
    ensures FromLog(mint, curve, log + more)
  {
    if curve.Some? {
      var k :| 0 <= k < |log| && log[k].mint == mint && curve == UpdateCurve(None, CurveEventOf(log[k]));
      assert (log + more)[k] == log[k];
    }
  }

  /** A trade leaves the tracked state alone or replaces it by its own. */
  lemma TradeReplacesOrKeeps(track: Option<CurveTrack>, e: CurveEvent)
    ensures UpdateCurve(track, e) == track || UpdateCurve(track, e) == UpdateCurve(None, e)
  {}

  lemma FewerFromLog(before: OrderedMap<Mint, MintState>, after: OrderedMap<Mint, MintState>, log: seq<TradeEvent>)
    requires AllFromLog(before, log) && forall i | 0 <= i < |after| :: after[i] in before
    ensures AllFromLog(after, log)
  {
    forall i | 0 <= i < |after|
      ensures FromLog(after[i].0, after[i].1.curve, log)
    {
      var j :| 0 <= j < |before| && before[j] == after[i];
    }
  }

  ghost predicate Forgets(before: OrderedMap<Mint, MintState>, after: OrderedMap<Mint, MintState>) {
    Unique(after) && forall i | 0 <= i < |after| :: after[i] in before
  }

  /** Reaching a second only forgets mints. */
  lemma ReachingForgets(o: Options, s: Engine, sec: int)
    requires Unique(s.mints)
    ensures Forgets(s.mints, AdvanceWatermark(o, s, sec).mints)
  {
    S.ReachedMints(o, s, sec);
    S.WithoutIdleIsFewer(s.mints, sec - o.mintStateIdleSec);
  }

  lemma ReachingKeepsCurves(o: Options, s: Engine, log: seq<TradeEvent>, identity: Key, sec: int)
    requires CurvesFromLog(s, log)
    ensures var s1 := AdvanceWatermark(o, Remember(o, s, identity, sec), sec);
      CurvesFromLog(s1, log) && s1.watermark.Some? && sec <= s1.watermark.value
  {
    var s1 := Remember(o, s, identity, sec);
    ReachingForgets(o, s1, sec);
    S.ReachedWatermark(o, s1, sec);
    FewerFromLog(s.mints, AdvanceWatermark(o, s1, sec).mints, log);
  }

  lemma SettingKeepsCurves(mints: OrderedMap<Mint, MintState>, log: seq<TradeEvent>, mint: Mint, st: MintState)
    requires Unique(mints) && AllFromLog(mints, log) && FromLog(mint, st.curve, log)
    ensures Unique(Set(mints, mint, st)) && AllFromLog(Set(mints, mint, st), log)
  {
    var after := Set(mints, mint, st);
    GetAfterSet(mints, mint, st, mint);
    forall i | 0 <= i < |after|
      ensures FromLog(after[i].0, after[i].1.curve, log)
    {
      if i != IndexOf(mints, mint) {
        assert after[i] == mints[i];
      }
    }
  }

  lemma TouchingKeepsCurves(o: Options, s: Engine, log: seq<TradeEvent>, mint: Mint, sec: int, isCreate: bool)
    requires CurvesFromLog(s, log)
    ensures var (s1, st) := TouchMint(o, s, mint, sec, isCreate);
      CurvesFromLog(s1, log) && FromLog(mint, st.curve, log) && s1.watermark == s.watermark
  {
    var (s1, st) := TouchMint(o, s, mint, sec, isCreate);
    if Has(s.mints, mint) {
      assert FromLog(mint, s.mints[IndexOf(s.mints, mint)].1.curve, log);
    }
    SettingKeepsCurves(s.mints, log, mint, st);
    var all := Set(s.mints, mint, st);
    FewerFromLog(all, s1.mints, log);
  }

  lemma StoringKeepsCurves(s: Engine, log: seq<TradeEvent>, mint: Mint, st: MintState)
    requires CurvesFromLog(s, log) && FromLog(mint, st.curve, log)
    ensures CurvesFromLog(StoreMint(s, mint, st), log)
  {
    SettingKeepsCurves(s.mints, log, mint, st);
  }

  lemma LongerLogKeepsCurves(s: Engine, log: seq<TradeEvent>, e: TradeEvent)
    requires CurvesFromLog(s, log) && s.watermark.Some? && e.sec <= s.watermark.value
    ensures CurvesFromLog(s, log + [e])
  {
    forall i | 0 <= i < |s.mints|
      ensures FromLog(s.mints[i].0, s.mints[i].1.curve, log + [e])
    {
      LogGrows(s.mints[i].0, s.mints[i].1.curve, log, [e]);
    }
  }

  /** The mint's state after a counted trade comes from the longer log. */
  lemma CountedTradeInLog(log: seq<TradeEvent>, mint: Mint, track: Option<CurveTrack>, e: TradeEvent)
    requires FromLog(mint, track, log) && e.mint == mint
    ensures FromLog(mint, UpdateCurve(track, CurveEventOf(e)), log + [e])
  {
    LogGrows(mint, track, log, [e]);
    TradeReplacesOrKeeps(track, CurveEventOf(e));
    assert (log + [e])[|log|] == e;
  }

  lemma CountingKeepsCurves(o: Options, s: Engine, log: seq<TradeEvent>, e: TradeEvent)
    requires CurvesFromLog(s, log)
    ensures CurvesFromLog(Count(o, s, e), log)
  {
    assert Count(o, s, e).mints == s.mints && Count(o, s, e).watermark == s.watermark;
  }

  lemma TradeKeepsCurves(o: Options, s: Engine, log: seq<TradeEvent>, e: TradeEvent)
    requires CurvesFromLog(s, log) && Accepts(o, s, e.identity, e.sec, e.receivedAtMs)
    ensures CurvesFromLog(AcceptTrade(o, s, e), log + if Counts(o, s, e) then [e] else [])
  {
    var s1 := AdvanceWatermark(o, Remember(o, s, e.identity, e.sec), e.sec);
    ReachingKeepsCurves(o, s, log, e.identity, e.sec);
    TouchedTradeKeepsCurves(o, s1, log, e);
    assert log + [] == log;
  }

  /** The same once the trade's second is reached. */
  lemma TouchedTradeKeepsCurves(o: Options, s1: Engine, log: seq<TradeEvent>, e: TradeEvent)
    requires CurvesFromLog(s1, log) && s1.watermark.Some? && e.sec <= s1.watermark.value
    ensures var (s2, st) := TouchMint(o, s1, e.mint, e.sec, false);
      var stored := StoreMint(s2, e.mint, S.AfterTrade(st, e, s2.epoch));
      && CurvesFromLog(s2, log)
      && (!e.quote.NativeSol? ==> CurvesFromLog(stored, log))
      && (e.quote.NativeSol? && st.status.Active? ==> CurvesFromLog(Count(o, stored, e), log + [e]))
  {
    var (s2, st) := TouchMint(o, s1, e.mint, e.sec, false);
    TouchingKeepsCurves(o, s1, log, e.mint, e.sec, false);
    var st1 := S.AfterTrade(st, e, s2.epoch);
    if !e.quote.NativeSol? {
      StoringKeepsCurves(s2, log, e.mint, st1);
    } else if st.status.Active? {
      LongerLogKeepsCurves(s2, log, e);
      CountedTradeInLog(log, e.mint, st.curve, e);
      StoringKeepsCurves(s2, log + [e], e.mint, st1);
      CountingKeepsCurves(o, StoreMint(s2, e.mint, st1), log + [e], e);
    }
  }

  lemma LifecycleKeepsCurves(o: Options, s: Engine, log: seq<TradeEvent>, l: LifecycleEvent)
    requires CurvesFromLog(s, log) && Accepts(o, s, l.identity, l.sec, l.receivedAtMs)
    ensures CurvesFromLog(AcceptLifecycle(o, s, l), log)
  {
    var s1 := AdvanceWatermark(o, Remember(o, s, l.identity, l.sec), l.sec);
    ReachingKeepsCurves(o, s, log, l.identity, l.sec);
    var (s2, st) := TouchMint(o, s1, l.mint, l.sec, l.isCreate);
    TouchingKeepsCurves(o, s1, log, l.mint, l.sec, l.isCreate);
    StoringKeepsCurves(s2, log, l.mint, AfterLifecycle(st, l, s2.epoch));
  }

  lemma StepKeepsCurves(o: Options, w: S.World, step: S.Step)
    requires CurvesFromLog(w.engine, w.counted)
    ensures var w1 := S.Next(o, w, step); CurvesFromLog(w1.engine, w1.counted)
  {
    assert w.counted + [] == w.counted;
    match step
    case TradeArrives(e) =>
      if Accepts(o, w.engine, e.identity, e.sec, e.receivedAtMs) {
        TradeKeepsCurves(o, w.engine, w.counted, e);
      }
    case LifecycleArrives(l) =>
      if Accepts(o, w.engine, l.identity, l.sec, l.receivedAtMs) {
        LifecycleKeepsCurves(o, w.engine, w.counted, l);
      }
    case _ =>
      assert S.Next(o, w, step).engine.mints == w.engine.mints;
  }

  lemma {:induction false} RunKeepsCurves(o: Options, w: S.World, steps: seq<S.Step>)
    requires CurvesFromLog(w.engine, w.counted)
    ensures var end := S.Run(o, w, steps); CurvesFromLog(end.engine, end.counted)
    decreases |steps|
  {
    if steps != [] {
      StepKeepsCurves(o, w, steps[0]);
      RunKeepsCurves(o, S.Next(o, w, steps[0]), steps[1..]);
    }
  }

  /** What passing the ladder says of the engine and of the mint's state. */
  lemma ServedMeans(o: Options, s: Engine, mint: Mint, nowMs: int, track: CurveTrack)
    requires ResolveCurve(o, s, mint, nowMs).1 == Served(track)
    ensures s.connected && s.coverageSince.Some? && s.watermark.Some?
    ensures IndexOf(s.mints, mint) < |s.mints| && s.mints[IndexOf(s.mints, mint)].0 == mint
    ensures s.mints[IndexOf(s.mints, mint)].1.curve == Some(track)
    ensures !track.unreadable && track.stepOk && track.post.mayhemMode == Some(false)
    ensures s.watermark.value - track.second <= o.maxSnapshotSkewSec
  {
    var s1 := CheckLiveness(o, s, nowMs);
    assert s1 == s || s1.coverageSince.None?;
    var mode := track.post.mayhemMode;
    assert mode.Some? && mode != Some(true);
    assert mode == Some(mode.value);
    assert !mode.value;
  }

  /**
   * Over every run a curve state is served only while the stream is covered, and it is then the state right after one
   * of the mint's counted trades: readable, a consistent constant-product step of an ordinary curve, and no older than
   * the allowed skew behind the watermark.
   */
  lemma ServedCurveIsAFreshCountedTrade(o: Options, steps: seq<S.Step>, mint: Mint, nowMs: int, track: CurveTrack)
    returns (e: TradeEvent)
    requires ResolveCurve(o, S.Run(o, S.START, steps).engine, mint, nowMs).1 == Served(track)
    ensures e in S.Run(o, S.START, steps).counted && e.mint == mint && e.post.Some?
    ensures track == TrackOf(e.post.value, CurveEventOf(e)) && e.post.value.mayhemMode == Some(false)
    ensures IsConstantProductStep(e.post.value.reserves, e.isBuy, e.lamports, e.tokens)
    ensures var s := S.Run(o, S.START, steps).engine;
      && s.connected && s.coverageSince.Some? && s.watermark.Some?
      && s.watermark.value - o.maxSnapshotSkewSec <= e.sec <= s.watermark.value
  {
    var s, log := S.Run(o, S.START, steps).engine, S.Run(o, S.START, steps).counted;
    RunKeepsCurves(o, S.START, steps);
    ServedMeans(o, s, mint, nowMs, track);
    assert FromLog(mint, Some(track), log);
    var k :| 0 <= k < |log| && log[k].mint == mint && Some(track) == UpdateCurve(None, CurveEventOf(log[k]));
    e := log[k];
    assert S.UpToWatermark(log, s.watermark);
    assert track.second == e.sec;
  }

  lemma LateTradeStored(o: Options, s: Engine, e: TradeEvent, track: CurveTrack)
    requires Unique(s.mints) && !track.unreadable && e.slot < track.slot && e.post.Some?
    requires Get(s.mints, e.mint).Some? && Get(s.mints, e.mint).value.curve == Some(track)
    ensures var (s1, st) := TouchMint(o, s, e.mint, e.sec, false);
      var st1 := st.(provenEpoch := s1.epoch, curve := UpdateCurve(st.curve, CurveEventOf(e)));
      && s1 == s.(mints := s1.mints) && st.status == Get(s.mints, e.mint).value.status
      && StoreMint(s1, e.mint, st1) == s.(mints := StoreMint(s1, e.mint, st1).mints)
      && Get(StoreMint(s1, e.mint, st1).mints, e.mint) == Some(st1)
      && st1.curve == Some(track) && st1.provenEpoch == s.epoch
  {
    var (s1, st) := TouchMint(o, s, e.mint, e.sec, false);
    GetAfterSet(s.mints, e.mint, st, e.mint);
    assert UpdateCurve(st.curve, CurveEventOf(e)) == Some(track);
    GetAfterSet(s1.mints, e.mint, st.(provenEpoch := s1.epoch, curve := Some(track)), e.mint);
  }

  /**
   * The evidence of the current epoch may be older than the curve it vouches for: a late trade of an earlier slot
   * proves the mint's state again without replacing the curve tracked before the break.
   */
  lemma LateTradeProvesTheEarlierCurve(o: Options, s: Engine, e: TradeEvent, track: CurveTrack)
    requires Accepts(o, s, e.identity, e.sec, e.receivedAtMs) && e.quote.NativeSol? && e.post.Some?
    requires s.watermark.Some? && e.sec <= s.watermark.value && Unique(s.mints)
    requires var found := Get(s.mints, e.mint);
      found.Some? && found.value.status.Active? && found.value.curve == Some(track)
    requires !track.unreadable && e.slot < track.slot && Size(s.buckets) < o.maxBuckets
    ensures var s1 := AcceptTrade(o, s, e);
      && s1.epoch == s.epoch
      && Get(s1.mints, e.mint).Some? && Get(s1.mints, e.mint).value.provenEpoch == s1.epoch
      && Get(s1.mints, e.mint).value.curve == Some(track)
  {
    S.NoNewSecond(o, s, e.identity, e.sec);
    LateTradeStored(o, AdvanceWatermark(o, Remember(o, s, e.identity, e.sec), e.sec), e, track);
    AddedSlot(s.buckets, e.mint, e.sec, e.lamports, e.isBuy);
  }

  // ---- which trade a tracked curve belongs to --------------------------------------------------------------------

  function CurveOf(s: Engine, mint: Mint): Option<CurveTrack> {
    match Get(s.mints, mint)
    case Some(st) => st.curve
    case None => None
  }

  /** What is tracked for a trade's mint when the trade gets to it. */
  function TrackedAt(o: Options, s: Engine, e: TradeEvent): Option<CurveTrack> {
    TouchMint(o, AdvanceWatermark(o, Remember(o, s, e.identity, e.sec), e.sec), e.mint, e.sec, false).1.curve
  }

  /** The trade is recognised as executed before the state tracked. */
  predicate Passed(track: Option<CurveTrack>, e: TradeEvent) {
    PassedOver(track, CurveEventOf(e))
  }

  /** The step counts a trade of the mint that replaces what is tracked. */
  ghost predicate Replaces(o: Options, w: S.World, step: S.Step, mint: Mint) {
    && step.TradeArrives? && step.trade.mint == mint && Counts(o, w.engine, step.trade)
    && !Passed(TrackedAt(o, w.engine, step.trade), step.trade)
  }

  ghost predicate ReplacedIn(o: Options, w: S.World, steps: seq<S.Step>, mint: Mint)
    decreases |steps|
  {
    steps != [] && (Replaces(o, w, steps[0], mint) || ReplacedIn(o, S.Next(o, w, steps[0]), steps[1..], mint))
  }

  lemma FewerGet(before: OrderedMap<Mint, MintState>, after: OrderedMap<Mint, MintState>, mint: Mint)
    requires Unique(before) && forall i | 0 <= i < |after| :: after[i] in before
    ensures Get(after, mint).None? || Get(after, mint) == Get(before, mint)
  {
    if Has(after, mint) {
      var i := IndexOf(after, mint);
      var j :| 0 <= j < |before| && before[j] == after[i];
      FoundAt(before, j);
    }
  }

  lemma ReachingCurve(o: Options, s: Engine, identity: Key, sec: int, mint: Mint)
    requires Unique(s.mints)
    ensures var s1 := AdvanceWatermark(o, Remember(o, s, identity, sec), sec);
      Unique(s1.mints) && (CurveOf(s1, mint).None? || CurveOf(s1, mint) == CurveOf(s, mint))
  {
    var s1 := Remember(o, s, identity, sec);
    ReachingForgets(o, s1, sec);
    FewerGet(s.mints, AdvanceWatermark(o, s1, sec).mints, mint);
  }

  lemma TouchingCurve(o: Options, s: Engine, touched: Mint, sec: int, isCreate: bool, mint: Mint)
    requires Unique(s.mints)
    ensures var (s1, st) := TouchMint(o, s, touched, sec, isCreate);
      && Unique(s1.mints) && st.curve == CurveOf(s, touched)
      && (CurveOf(s1, mint).None? || CurveOf(s1, mint) == CurveOf(s, mint))
  {
    var (s1, st) := TouchMint(o, s, touched, sec, isCreate);
    var all := Set(s.mints, touched, st);
    GetAfterSet(s.mints, touched, st, mint);
    FewerGet(all, s1.mints, mint);
  }

  lemma StoringCurve(s: Engine, stored: Mint, st: MintState, mint: Mint)
    requires Unique(s.mints)
    ensures var s1 := StoreMint(s, stored, st);
      && Unique(s1.mints)
      && CurveOf(s1, mint) == if mint == stored && Has(s.mints, mint) then st.curve else CurveOf(s, mint)
  {
    GetAfterSet(s.mints, stored, st, mint);
  }

  /** What a step leaves tracked: its own trade's state, or what was there, or nothing. */
  ghost predicate CurveStep(o: Options, w: S.World, step: S.Step, w1: S.World, mint: Mint) {
    var curve, curve1 := CurveOf(w.engine, mint), CurveOf(w1.engine, mint);
    && Unique(w1.engine.mints)
    && (w1.counted == w.counted || (step.TradeArrives? && w1.counted == w.counted + [step.trade]))
    && if Replaces(o, w, step, mint) then
         w1.counted != w.counted && (curve1.None? || curve1 == UpdateCurve(None, CurveEventOf(step.trade)))
       else
         && (curve1.None? || curve1 == curve)
         && (w1.counted != w.counted && step.trade.mint == mint ==> Passed(curve, step.trade))
  }

  /** Touching a mint and writing its state back, seen from one mint's curve. */
  ghost predicate CurveWrite(curve: Option<CurveTrack>, s1: Engine, touched: Mint, found: Option<CurveTrack>,
                             written: Option<CurveTrack>, mint: Mint)
  {
    && Unique(s1.mints)
    && (CurveOf(s1, mint).None? || CurveOf(s1, mint) == if mint == touched then written else curve)
    && (touched == mint ==> found.None? || found == curve)
  }

  lemma WritingCurve(
    o: Options, s: Engine, s1: Engine, identity: Key, sec: int, touched: Mint, isCreate: bool, st1: MintState, mint: Mint)
    requires Unique(s.mints) && s1 == AdvanceWatermark(o, Remember(o, s, identity, sec), sec)
    ensures var (s2, st) := TouchMint(o, s1, touched, sec, isCreate);
      && CurveWrite(CurveOf(s, mint), s2, touched, st.curve, st.curve, mint)
      && CurveWrite(CurveOf(s, mint), StoreMint(s2, touched, st1), touched, st.curve, st1.curve, mint)
  {
    var (s2, st) := TouchMint(o, s1, touched, sec, isCreate);
    ReachingCurve(o, s, identity, sec, mint);
    TouchingCurve(o, s1, touched, sec, isCreate, mint);
    StoringCurve(s2, touched, st1, mint);
  }

  lemma TradeCurveStep(o: Options, w: S.World, e: TradeEvent, mint: Mint)
    requires Unique(w.engine.mints)
    ensures CurveStep(o, w, S.TradeArrives(e), S.Next(o, w, S.TradeArrives(e)), mint)
  {
    var s := w.engine;
    if Accepts(o, s, e.identity, e.sec, e.receivedAtMs) {
      var s1 := AdvanceWatermark(o, Remember(o, s, e.identity, e.sec), e.sec);
      var (s2, st) := TouchMint(o, s1, e.mint, e.sec, false);
      var st1 := S.AfterTrade(st, e, s2.epoch);
      WritingCurve(o, s, s1, e.identity, e.sec, e.mint, false, st1, mint);
      AcceptedTradeMints(o, s, e, s2, st);
      assert Passed(st.curve, e) ==> UpdateCurve(st.curve, CurveEventOf(e)) == st.curve;
      assert !Passed(st.curve, e) ==> UpdateCurve(st.curve, CurveEventOf(e)) == UpdateCurve(None, CurveEventOf(e));
    }
  }

  /** The mints after a trade is accepted: its own written back, unless it was not active. */
  lemma AcceptedTradeMints(o: Options, s: Engine, e: TradeEvent, s2: Engine, st: MintState)
    requires Accepts(o, s, e.identity, e.sec, e.receivedAtMs)
    requires (s2, st)
      == TouchMint(o, AdvanceWatermark(o, Remember(o, s, e.identity, e.sec), e.sec), e.mint, e.sec, false)
    ensures var after := AcceptTrade(o, s, e).mints; var stored := StoreMint(s2, e.mint, S.AfterTrade(st, e, s2.epoch));
      after == if e.quote.NativeSol? && !st.status.Active? then s2.mints else stored.mints
  {}

  lemma LifecycleCurveStep(o: Options, w: S.World, l: LifecycleEvent, mint: Mint)
    requires Unique(w.engine.mints)
    ensures CurveStep(o, w, S.LifecycleArrives(l), S.Next(o, w, S.LifecycleArrives(l)), mint)
  {
    LifecycleIsNotCounted(o, w, l);
    if Accepts(o, w.engine, l.identity, l.sec, l.receivedAtMs) {
      var found := LifecycleWrites(o, w.engine, l, mint);
    }
  }

  lemma LifecycleIsNotCounted(o: Options, w: S.World, l: LifecycleEvent)
    ensures var w1 := S.Next(o, w, S.LifecycleArrives(l));
      w1.engine == AcceptLifecycle(o, w.engine, l) && w1.counted == w.counted
  {}

  /** An accepted lifecycle writes its mint back with the curve it found. */
  lemma LifecycleWrites(o: Options, s: Engine, l: LifecycleEvent, mint: Mint) returns (found: Option<CurveTrack>)
    requires Unique(s.mints) && Accepts(o, s, l.identity, l.sec, l.receivedAtMs)
    ensures CurveWrite(CurveOf(s, mint), AcceptLifecycle(o, s, l), l.mint, found, found, mint)
  {
    var s1 := AdvanceWatermark(o, Remember(o, s, l.identity, l.sec), l.sec);
    var (s2, st) := TouchMint(o, s1, l.mint, l.sec, l.isCreate);
    var st1 := AfterLifecycle(st, l, s2.epoch);
    WritingCurve(o, s, s1, l.identity, l.sec, l.mint, l.isCreate, st1, mint);
    found := st1.curve;
  }

  lemma EveryStepIsACurveStep(o: Options, w: S.World, step: S.Step, mint: Mint)
    requires Unique(w.engine.mints)
    ensures CurveStep(o, w, step, S.Next(o, w, step), mint)
  {
    match step
    case TradeArrives(e) => TradeCurveStep(o, w, e, mint);
    case LifecycleArrives(l) => LifecycleCurveStep(o, w, l, mint);
    case _ => assert S.Next(o, w, step).engine.mints == w.engine.mints;
  }

  /** What is tracked was written by a trade logged since; or nothing since replaced what was tracked then. */
  ghost predicate Written(curve: Option<CurveTrack>, log: seq<TradeEvent>, mint: Mint) {
    curve.Some? ==> FromLog(mint, curve, log)
  }

  ghost predicate Untouched(was: Option<CurveTrack>, curve: Option<CurveTrack>, log: seq<TradeEvent>, mint: Mint) {
    && (curve.None? || curve == was)
    && forall k | 0 <= k < |log| && log[k].mint == mint :: Passed(was, log[k])
  }

  lemma CurveStepSince(o: Options, w: S.World, step: S.Step, w1: S.World, mint: Mint, was: Option<CurveTrack>, since: nat)
    requires CurveStep(o, w, step, w1, mint) && since <= |w.counted|
    ensures since <= |w1.counted|
    ensures Replaces(o, w, step, mint) || Written(CurveOf(w.engine, mint), w.counted[since..], mint)
            ==> Written(CurveOf(w1.engine, mint), w1.counted[since..], mint)
    ensures Untouched(was, CurveOf(w.engine, mint), w.counted[since..], mint) && !Replaces(o, w, step, mint)
            ==> Untouched(was, CurveOf(w1.engine, mint), w1.counted[since..], mint)
  {
    var log, log1 := w.counted[since..], w1.counted[since..];
    if w1.counted != w.counted {
      var e := step.trade;
      assert log1 == log + [e];
      assert log1[|log|] == e;
      if Written(CurveOf(w.engine, mint), log, mint) {
        LogGrows(mint, CurveOf(w.engine, mint), log, [e]);
      }
    }
  }

  lemma {:induction false} CurveSince(
    o: Options, w: S.World, steps: seq<S.Step>, mint: Mint, was: Option<CurveTrack>, since: nat)
    requires Unique(w.engine.mints) && since <= |w.counted|
    ensures var end := S.Run(o, w, steps);
      && since <= |end.counted|
      && (ReplacedIn(o, w, steps, mint) || Written(CurveOf(w.engine, mint), w.counted[since..], mint)
          ==> Written(CurveOf(end.engine, mint), end.counted[since..], mint))
      && (Untouched(was, CurveOf(w.engine, mint), w.counted[since..], mint) && !ReplacedIn(o, w, steps, mint)
          ==> Untouched(was, CurveOf(end.engine, mint), end.counted[since..], mint))
    decreases |steps|
  {
    if steps != [] {
      var w1 := S.Next(o, w, steps[0]);
      EveryStepIsACurveStep(o, w, steps[0], mint);
      CurveStepSince(o, w, steps[0], w1, mint, was, since);
      CurveSince(o, w1, steps[1..], mint, was, since);
    }
  }

  /**
   * From any point of a run on, in particular from the last break: the curve tracked in the end is the state after a
   * trade counted since exactly when some trade counted since replaced what it found; otherwise it is still the state
   * tracked at that point, however many trades have proved the mint's state again.
   */
  lemma CurveIsSinceExactlyWhenReplaced(
    o: Options, earlier: seq<S.Step>, later: seq<S.Step>, mint: Mint, track: CurveTrack)
    requires var w := S.Run(o, S.START, earlier);
      CurveOf(S.Run(o, w, later).engine, mint) == Some(track)
    ensures var w := S.Run(o, S.START, earlier);
      var end := S.Run(o, w, later);
      && |w.counted| <= |end.counted|
      && (FromLog(mint, Some(track), end.counted[|w.counted|..]) <==> ReplacedIn(o, w, later, mint))
      && (!ReplacedIn(o, w, later, mint) ==> CurveOf(w.engine, mint) == Some(track))
  {
    var w := S.Run(o, S.START, earlier);
    RunKeepsCurves(o, S.START, earlier);
    var was, since := CurveOf(w.engine, mint), |w.counted|;
    assert w.counted[since..] == [];
    CurveSince(o, w, later, mint, was, since);
    var log := S.Run(o, w, later).counted[since..];
    forall k | 0 <= k < |log| && Passed(Some(track), log[k])
      ensures UpdateCurve(None, CurveEventOf(log[k])) != Some(track)
    {
      PassedNeverWrote(track, CurveEventOf(log[k]));
    }
  }
}
