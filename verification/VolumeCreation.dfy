/**
 * Exactly which creations may be trusted: a mint whose creation the engine has seen is answered for as far back as
 * windows ask, so what happened to it before, counted or lost, decides whether those answers are whole.
 */
module VolumeCreation {
  import opened Prelude
  import opened OrderedMaps
  import opened BoundedStructures
  import opened VolumeModel
  import opened VolumeSafety

  /** A trade takes place no earlier than its mint's creation, dated `born`. */
  ghost predicate SinceBirth(mint: Mint, born: int, step: Step) {
    match step
    case Lost(h) => h.mint == mint ==> h.sec >= born
    case TradeArrives(e) => e.mint == mint ==> e.sec >= born
    case _ => true
  }

  ghost predicate AllSinceBirth(mint: Mint, born: int, steps: seq<Step>) {
    forall i | 0 <= i < |steps| :: SinceBirth(mint, born, steps[i])
  }

  ghost predicate MayFollow(o: Options, w: World, mint: Mint, born: int, steps: seq<Step>) {
    && AdmissibleRun(o, w, steps) && CreationsHeldRun(o, w, steps) && CreationsWatchedRun(o, w, steps)
    && AllSinceBirth(mint, born, steps)
  }

  ghost predicate WholeTotal(w: World, mint: Mint, total: Bucket, fromSec: int, toSec: int) {
    total == LogSum(w.counted + w.lost, mint, fromSec, toSec)
  }

  /**
   * Whatever happens next to a mint created at `born`, with every further creation held and watched, answers for the
   * mint are whole.
   */
  ghost predicate SafeFor(o: Options, w: World, mint: Mint, born: int) {
    forall steps, nowMs, total, fromSec, toSec
      | MayFollow(o, w, mint, born, steps) && Answered(o, Run(o, w, steps), mint, nowMs, total, fromSec, toSec) ::
        WholeTotal(Run(o, w, steps), mint, total, fromSec, toSec)
  }

  /** A creation the engine takes in full: native SOL, of a mint not held or held without a creation, with room for it. */
  ghost predicate FreshCreation(o: Options, w: World, l: LifecycleEvent) {
    && l.isCreate && l.quote.NativeSol? && Accepts(o, w.engine, l.identity, l.sec, l.receivedAtMs)
    && Admissible(o, w, LifecycleArrives(l)) && Size(w.engine.buckets) < o.maxBuckets
    && RoomFor(o, w.engine.mints, l.mint)
  }

  ghost predicate RoomFor(o: Options, mints: OrderedMap<Mint, MintState>, mint: Mint) {
    var found := Get(mints, mint);
    if found.None? then |mints| < o.maxMintStates
    else found.value.status.Active? && found.value.creationSec.None? && |mints| <= o.maxMintStates
  }

  /** Options under which the failing runs exist; the program's defaults are among them. */
  ghost predicate Ordinary(o: Options) {
    && o.Accepted() && o.settleSec >= 0 && o.futureToleranceSec >= 0 && o.maxWatermarkLagSec >= 0 && o.silenceMs >= 0
    && o.mintStateIdleSec >= o.retentionSec + o.settleSec
  }

  /**
   * After a creation is accepted, answers for its mint stay whole exactly when the stream was connected, nothing of
   * the mint was lost as far back as windows ask, and the buckets still hold all that was counted of it there.
   */
  lemma CreationSafeExactlyWhenWatchedAndHeld(o: Options, w: World, l: LifecycleEvent, unused: Key)
    requires Ordinary(o) && Inv(o, w) && CreatedHeld(o, w) && CreatedWhole(o, w) && FreshCreation(o, w, l)
    requires !Has(AcceptLifecycle(o, w.engine, l).seen, unused)
    ensures SafeFor(o, Next(o, w, LifecycleArrives(l)), l.mint, l.sec)
      <==> w.engine.connected && LostNoneYoung(o, w, l) && HeldYoung(o, w, l)
  {
    var w1 := CreatedState(o, w, l);
    StepKeeps(o, w, LifecycleArrives(l));
    if w.engine.connected && LostNoneYoung(o, w, l) && HeldYoung(o, w, l) {
      SafeAfter(o, w1, l.mint, l.sec);
    } else if !w.engine.connected {
      var steps, nowMs, total, fromSec, toSec := LossBehindAnUnconnectedCreation(o, w, l, unused);
      assert !WholeTotal(Run(o, w1, steps), l.mint, total, fromSec, toSec);
    } else {
      var bad := BadSecond(o, w, l, w1);
      var steps, nowMs, total, fromSec, toSec := GapBehindAConnectedCreation(o, w, l, unused, w1, bad);
      assert !WholeTotal(Run(o, w1, steps), l.mint, total, fromSec, toSec);
    }
  }

  lemma SafeAfter(o: Options, w1: World, mint: Mint, born: int)
    requires o.Accepted() && Inv(o, w1) && CreatedHeld(o, w1) && CreatedWhole(o, w1)
    ensures SafeFor(o, w1, mint, born)
  {
    forall steps, nowMs, total, fromSec, toSec
      | MayFollow(o, w1, mint, born, steps) && Answered(o, Run(o, w1, steps), mint, nowMs, total, fromSec, toSec)
      ensures WholeTotal(Run(o, w1, steps), mint, total, fromSec, toSec)
    {
      RunKeeps(o, w1, steps);
      AnsweredIsVouched(o, Run(o, w1, steps), mint, nowMs, total, fromSec, toSec);
      VouchedIsWhole(o, Run(o, w1, steps), mint, total, fromSec, toSec);
    }
  }

  // ---- the state after a creation --------------------------------------------------------------------------------

  ghost predicate CreatedHere(s: Engine, mint: Mint) {
    var found := Get(s.mints, mint);
    found.Some? && found.value.status.Active? && found.value.createdInEpoch == Some(s.epoch)
    && found.value.creationSec.Some?
  }

  /** A mint created in the current epoch and last seen no earlier than `born`, with room for one more bucket. */
  ghost predicate CreatedOpen(o: Options, s: Engine, mint: Mint, born: int) {
    && s.watermark.Some? && born <= s.watermark.value && born >= s.watermark.value - o.retentionSec
    && Size(s.buckets) < o.maxBuckets && Unique(s.mints) && CreatedHere(s, mint)
    && Get(s.mints, mint).value.lastEventSec >= born
  }

  lemma CreatedState(o: Options, w: World, l: LifecycleEvent) returns (w1: World)
    requires Ordinary(o) && Inv(o, w) && FreshCreation(o, w, l)
    ensures w1 == Next(o, w, LifecycleArrives(l)) && w1.engine == AcceptLifecycle(o, w.engine, l)
    ensures Inv(o, w1) && CreatedOpen(o, w1.engine, l.mint, l.sec) && Claims(o, w.engine, l)
    ensures w1.counted == w.counted && w1.lost == w.lost && w1.settled == |w1.lost|
    ensures w1.engine.watermark == Some(Max(l.sec, w.engine.watermark.GetOr(l.sec)))
    ensures w1.engine.connected == w.engine.connected && KeepsYoung(o, w.engine, w1.engine)
    ensures if w.engine.connected then w1.engine.coverageSince.Some? else w1.engine.coverageSince.None?
  {
    var a, b, st, w3 := AcceptedLifecycleKeeps(o, w, l);
    LifecycleIs(o, w, l, a, b, st, w3);
    w1 := w3;
    AcceptedReaches(o, w.engine, l.identity, l.sec);
    CreationOpens(o, w.engine, l, a.engine, b.engine, st, w3.engine);
  }

  lemma CreationOpens(o: Options, s: Engine, l: LifecycleEvent, a: Engine, b: Engine, st: MintState, s1: Engine)
    requires l.isCreate && l.quote.NativeSol? && Size(s.buckets) < o.maxBuckets
    requires Unique(s.mints) && RoomFor(o, s.mints, l.mint) && Unique(a.mints)
    requires a == AdvanceWatermark(o, Remember(o, s, l.identity, l.sec), l.sec)
    requires (b, st) == TouchMint(o, a, l.mint, l.sec, true)
    requires s1 == StoreMint(b, l.mint, AfterLifecycle(st, l, b.epoch))
    ensures s1 == a.(mints := s1.mints) && Unique(s1.mints) && CreatedHere(s1, l.mint) && st.creationSec.None?
    ensures Get(s1.mints, l.mint).value.lastEventSec >= l.sec && Size(s1.buckets) < o.maxBuckets
  {
    ReachedRoom(o, Remember(o, s, l.identity, l.sec), l.sec, l.mint);
    CreationStored(o, a, l);
  }

  lemma {:induction false} IdleGet(ms: OrderedMap<Mint, MintState>, idleCut: int, mint: Mint)
    requires Unique(ms)
    ensures var kept := WithoutIdle(ms, idleCut);
      && |kept| <= |ms|
      && (Get(kept, mint) == Get(ms, mint) || (Get(kept, mint).None? && |kept| < |ms|))
      && (Get(ms, mint).Some? && Get(ms, mint).value.lastEventSec >= idleCut ==> Get(kept, mint) == Get(ms, mint))
    decreases |ms|
  {
    if ms != [] {
      var rest := WithoutIdle(ms[1..], idleCut);
      IdleGet(ms[1..], idleCut, mint);
      if ms[0].0 == mint {
        NotBefore(ms[1..], mint);
        assert Get(ms[1..], mint).None?;
        assert [] + rest == rest;
      } else {
        assert Get(ms[1..], mint) == Get(ms, mint);
        FoundBehind(ms[0], rest, mint);
        assert [] + rest == rest;
      }
    }
  }

  lemma FoundBehind(other: (Mint, MintState), rest: OrderedMap<Mint, MintState>, mint: Mint)
    requires other.0 != mint
    ensures Get([other] + rest, mint) == Get(rest, mint)
  {
    assert ([other] + rest)[1..] == rest;
  }

  /** Reaching a second leaves the mint as it was, or makes room by forgetting it, and never needs more buckets. */
  lemma ReachedRoom(o: Options, s: Engine, sec: int, mint: Mint)
    requires Unique(s.mints) && RoomFor(o, s.mints, mint)
    ensures var s1 := AdvanceWatermark(o, s, sec); RoomFor(o, s1.mints, mint) && Size(s1.buckets) <= Size(s.buckets)
  {
    ReachedMints(o, s, sec);
    ReachedBuckets(o, s, sec);
    IdleGet(s.mints, sec - o.mintStateIdleSec, mint);
    WithoutOlderIsNoLarger(s.buckets, AdvanceWatermark(o, s, sec).watermark.value - o.retentionSec);
  }

  lemma CreationStored(o: Options, s: Engine, l: LifecycleEvent)
    requires l.isCreate && l.quote.NativeSol? && Unique(s.mints) && RoomFor(o, s.mints, l.mint)
    ensures var (s1, st) := TouchMint(o, s, l.mint, l.sec, true);
      var s2 := StoreMint(s1, l.mint, AfterLifecycle(st, l, s1.epoch));
      && s2 == s.(mints := s2.mints) && Unique(s2.mints) && CreatedHere(s2, l.mint) && st.creationSec.None?
      && Get(s2.mints, l.mint).value.lastEventSec >= l.sec
  {
    var (s1, st) := TouchMint(o, s, l.mint, l.sec, true);
    NotBefore(s.mints, l.mint);
    GetAfterSet(s.mints, l.mint, st, l.mint);
    assert s1.mints == Set(s.mints, l.mint, st);
    GetAfterSet(s1.mints, l.mint, AfterLifecycle(st, l, s1.epoch), l.mint);
  }

  // ---- a second that holds less than happened --------------------------------------------------------------------

  ghost predicate BadAt(w: World, mint: Mint, sec: int) {
    At(w.engine.buckets, mint, sec).count < LogSum(w.counted + w.lost, mint, sec, sec).count
  }

  /** A lost trade, or a counted one no longer held, makes its second bad: no second ever holds more than was counted. */
  lemma MissingIsBad(o: Options, w: World, mint: Mint, sec: int)
    requires Kept(o, w)
    requires !Faithful(w.engine.buckets, w.counted, mint, sec)
             || exists i :: 0 <= i < |w.lost| && w.lost[i].mint == mint && w.lost[i].sec == sec
    ensures BadAt(w, mint, sec)
  {
    SumOfBoth(w.counted, w.lost, mint, sec, sec);
    CountNotNegative(w.lost, mint, sec, sec);
    assert NeverMore(w.engine.buckets, w.counted, mint, sec);
    if Faithful(w.engine.buckets, w.counted, mint, sec) {
      var i :| 0 <= i < |w.lost| && w.lost[i].mint == mint && w.lost[i].sec == sec;
      LoggedCounts(w.lost, i);
    }
  }

  lemma {:induction false} LoggedCounts(log: seq<TradeEvent>, i: nat)
    requires i < |log|
    ensures LogSum(log, log[i].mint, log[i].sec, log[i].sec).count > 0
    decreases |log|
  {
    var rest := log[..|log| - 1];
    CountNotNegative(rest, log[i].mint, log[i].sec, log[i].sec);
    if i < |rest| {
      assert rest[i] == log[i];
      LoggedCounts(rest, i);
    }
  }

  /** No second holds more trades than happened in it. */
  lemma NoSecondHoldsMore(o: Options, w: World, mint: Mint, sec: int)
    requires Kept(o, w)
    ensures HoldsNoMore(w.engine.buckets, w.counted + w.lost, mint, sec)
  {
    SumOfBoth(w.counted, w.lost, mint, sec, sec);
    CountNotNegative(w.lost, mint, sec, sec);
    assert NeverMore(w.engine.buckets, w.counted, mint, sec);
  }

  ghost predicate HoldsNoMore(buckets: Buckets, log: seq<TradeEvent>, mint: Mint, sec: int) {
    At(buckets, mint, sec).count <= LogSum(log, mint, sec, sec).count
  }

  /** Seconds that hold no more than happened, and one that holds less, make a window that holds less. */
  lemma {:induction false} WindowCounts(
    buckets: Buckets, log: seq<TradeEvent>, mint: Mint, fromSec: int, toSec: int, bad: int)
    requires forall sec | fromSec <= sec <= toSec :: HoldsNoMore(buckets, log, mint, sec)
    requires At(buckets, mint, bad).count < LogSum(log, mint, bad, bad).count
    ensures WindowHolds(buckets, log, mint, fromSec, toSec, fromSec <= bad <= toSec)
    decreases toSec - fromSec
  {
    if toSec < fromSec {
      SumOfNothing(log, mint, fromSec, toSec);
    } else {
      WindowCounts(buckets, log, mint, fromSec, toSec - 1, bad);
      SumSplits(log, mint, fromSec, toSec);
      assert HoldsNoMore(buckets, log, mint, toSec);
      OneMoreSecond(buckets, log, mint, fromSec, toSec, fromSec <= bad < toSec, bad == toSec);
    }
  }

  ghost predicate WindowHolds(
    buckets: Buckets, log: seq<TradeEvent>, mint: Mint, fromSec: int, toSec: int, less: bool)
  {
    var held, happened := WindowSum(buckets, mint, fromSec, toSec).count, LogSum(log, mint, fromSec, toSec).count;
    if less then held < happened else held <= happened
  }

  lemma OneMoreSecond(
    buckets: Buckets, log: seq<TradeEvent>, mint: Mint, fromSec: int, toSec: int, before: bool, last: bool)
    requires fromSec <= toSec && WindowHolds(buckets, log, mint, fromSec, toSec - 1, before)
    requires HoldsNoMore(buckets, log, mint, toSec)
    requires last ==> At(buckets, mint, toSec).count < LogSum(log, mint, toSec, toSec).count
    requires LogSum(log, mint, fromSec, toSec)
      == LogSum(log, mint, fromSec, toSec - 1).Plus(LogSum(log, mint, toSec, toSec))
    ensures WindowHolds(buckets, log, mint, fromSec, toSec, before || last)
  {}

  /** A window with a bad second is answered with too little. */
  lemma BadWindow(o: Options, w: World, mint: Mint, fromSec: int, toSec: int, bad: int)
    requires Kept(o, w) && BadAt(w, mint, bad) && fromSec <= bad <= toSec
    ensures !WholeTotal(w, mint, WindowSum(w.engine.buckets, mint, fromSec, toSec), fromSec, toSec)
  {
    forall sec
      ensures HoldsNoMore(w.engine.buckets, w.counted + w.lost, mint, sec)
    {
      NoSecondHoldsMore(o, w, mint, sec);
    }
    WindowCounts(w.engine.buckets, w.counted + w.lost, mint, fromSec, toSec, bad);
  }

  /** One more trade counted leaves a bad second bad. */
  lemma AddedStaysBad(w: World, w1: World, e: TradeEvent, buckets: Buckets, bad: int)
    requires BadAt(w, e.mint, bad) && w1.counted == w.counted + [e] && w1.lost == w.lost
    requires w1.engine.buckets == AddTrade(buckets, e.mint, e.sec, e.lamports, e.isBuy)
    requires At(buckets, e.mint, bad) == At(w.engine.buckets, e.mint, bad)
    ensures BadAt(w1, e.mint, bad)
  {
    SumOfBoth(w.counted, w.lost, e.mint, bad, bad);
    SumOfBoth(w1.counted, w1.lost, e.mint, bad, bad);
    assert w1.counted[..|w.counted|] == w.counted && w1.counted[|w.counted|] == e;
  }

  // ---- the trade after which the window is answered wrong --------------------------------------------------------

  /** The engine is ready to answer for a mint created in its epoch once this trade arrives. */
  ghost predicate ReadyFor(o: Options, s: Engine, e: TradeEvent) {
    && s.connected && CreatedHere(s, e.mint) && Size(s.buckets) < o.maxBuckets
    && !Has(s.seen, e.identity) && e.quote.NativeSol? && e.receivedAtMs == 1000 * e.sec
    && s.watermark.Some? && s.watermark.value <= e.sec
    && (e.sec == s.watermark.value || Get(s.mints, e.mint).value.lastEventSec >= e.sec - o.mintStateIdleSec)
    && (s.lastNotificationMs.None? || s.lastNotificationMs == Some(e.receivedAtMs))
  }

  /** What is left of it when the trade's second is reached. */
  ghost predicate ReachedFor(o: Options, s: Engine, s1: Engine, e: TradeEvent) {
    && s1 == AdvanceWatermark(o, Remember(o, s, e.identity, e.sec), e.sec)
    && s1.started && s1.connected && s1.coverageSince.Some? && s1.watermark == Some(e.sec) && s1.epoch == s.epoch
    && Unique(s1.mints) && CreatedHere(s1, e.mint) && Size(s1.buckets) < o.maxBuckets && KeepsYoung(o, s, s1)
    && (s1.lastNotificationMs.None? || s1.lastNotificationMs == Some(e.receivedAtMs))
  }

  lemma ReachesReady(o: Options, w: World, e: TradeEvent) returns (s1: Engine)
    requires Ordinary(o) && Inv(o, w) && LossesUpTo(w, e.sec) && ReadyFor(o, w.engine, e)
    ensures ReachedFor(o, w.engine, s1, e) && Accepts(o, w.engine, e.identity, e.sec, e.receivedAtMs)
  {
    var w1 := AdvanceKeeps(o, w, e.sec, e.identity);
    s1 := w1.engine;
    ReachedStream(o, w.engine, e);
    ReachedStores(o, w.engine, e);
  }

  lemma ReachedStream(o: Options, s: Engine, e: TradeEvent)
    requires Coverage(s) && Unique(s.mints) && ReadyFor(o, s, e)
    ensures var s1 := AdvanceWatermark(o, Remember(o, s, e.identity, e.sec), e.sec);
      && s1.started && s1.connected && s1.coverageSince.Some? && s1.watermark == Some(e.sec) && s1.epoch == s.epoch
      && s1.lastNotificationMs == s.lastNotificationMs
  {
    AcceptedReaches(o, s, e.identity, e.sec);
    ReachedStarted(o, Remember(o, s, e.identity, e.sec), e.sec);
    ReachedHeard(o, Remember(o, s, e.identity, e.sec), e.sec);
  }

  lemma ReachedStores(o: Options, s: Engine, e: TradeEvent)
    requires Unique(s.mints) && ReadyFor(o, s, e)
    ensures var s1 := AdvanceWatermark(o, Remember(o, s, e.identity, e.sec), e.sec);
      && Unique(s1.mints) && Get(s1.mints, e.mint) == Get(s.mints, e.mint) && Size(s1.buckets) <= Size(s.buckets)
  {
    var s0 := Remember(o, s, e.identity, e.sec);
    AdvanceStores(o, s0, e.sec);
    MintReaches(o, s0, e.sec, e.mint);
    WithoutOlderIsNoLarger(s.buckets, AdvanceWatermark(o, s0, e.sec).watermark.value - o.retentionSec);
  }

  lemma ReachedHeard(o: Options, s: Engine, sec: int)
    ensures AdvanceWatermark(o, s, sec).lastNotificationMs == s.lastNotificationMs
  {}

  lemma MintReaches(o: Options, s: Engine, sec: int, mint: Mint)
    requires Unique(s.mints) && Get(s.mints, mint).Some? && s.watermark.Some?
    requires sec == s.watermark.value || Get(s.mints, mint).value.lastEventSec >= sec - o.mintStateIdleSec
    ensures Get(AdvanceWatermark(o, s, sec).mints, mint) == Get(s.mints, mint)
  {
    ReachedMints(o, s, sec);
    IdleGet(s.mints, sec - o.mintStateIdleSec, mint);
    if sec == s.watermark.value {
      SameSecondKeepsMints(o, s, sec);
    }
  }

  lemma SameSecondKeepsMints(o: Options, s: Engine, sec: int)
    requires s.watermark == Some(sec)
    ensures AdvanceWatermark(o, s, sec).mints == s.mints
  {}

  /** Counted, the trade has both windows of its mint answered. */
  lemma CountedAnswers(o: Options, s1: Engine, e: TradeEvent, s2: Engine)
    requires Ordinary(o) && Unique(s1.mints) && CreatedHere(s1, e.mint) && Size(s1.buckets) < o.maxBuckets
    requires e.quote.NativeSol? && s1.started && s1.connected && s1.coverageSince.Some? && s1.watermark == Some(e.sec)
    requires s1.lastNotificationMs.None? || s1.lastNotificationMs == Some(1000 * e.sec)
    requires var (s0, st) := TouchMint(o, s1, e.mint, e.sec, false);
      s2 == Count(o, StoreMint(s0, e.mint, AfterTrade(st, e, s0.epoch)), e)
    ensures s2.buckets == AddTrade(s1.buckets, e.mint, e.sec, e.lamports, e.isBuy) && s2.watermark == s1.watermark
    ensures s2.epoch == s1.epoch
    ensures var v, T := Compute(o, s2, e.mint, 1000 * e.sec).1, e.sec - o.settleSec;
      && v.current == Some(WindowSum(s2.buckets, e.mint, T - 59, T))
      && v.previous == Some(WindowSum(s2.buckets, e.mint, T - 119, T - 60))
  {
    var (s0, st) := TouchMint(o, s1, e.mint, e.sec, false);
    GetAfterSet(s1.mints, e.mint, st, e.mint);
    var st1 := AfterTrade(st, e, s0.epoch);
    GetAfterSet(s0.mints, e.mint, st1, e.mint);
    AddedSlot(s0.buckets, e.mint, e.sec, e.lamports, e.isBuy);
    var s3 := StoreMint(s0, e.mint, st1);
    assert s2 == s3.(buckets := AddTrade(s1.buckets, e.mint, e.sec, e.lamports, e.isBuy));
    assert Get(s2.mints, e.mint) == Some(st1);
    AnswersCreated(o, s2, e.mint, 1000 * e.sec);
  }

  /** A mint created and proved in the epoch of a live covered stream is answered in both windows. */
  lemma AnswersCreated(o: Options, s: Engine, mint: Mint, nowMs: int)
    requires Ordinary(o) && s.started && s.connected && s.coverageSince.Some?
    requires s.watermark.Some? && nowMs == 1000 * s.watermark.value
    requires s.lastNotificationMs.None? || s.lastNotificationMs == Some(nowMs)
    requires CreatedHere(s, mint) && Get(s.mints, mint).value.provenEpoch == s.epoch
    ensures var v, T := Compute(o, s, mint, nowMs).1, s.watermark.value - o.settleSec;
      && v.current == Some(WindowSum(s.buckets, mint, T - 59, T))
      && v.previous == Some(WindowSum(s.buckets, mint, T - 119, T - 60))
  {
    assert CheckLiveness(o, s, nowMs) == s;
    assert StreamGate(o, s, nowMs).None?;
  }

  /** A bad second that windows ask for when the trade has arrived is answered with too little. */
  lemma BadIsAnswered(o: Options, w: World, e: TradeEvent, bad: int) returns (total: Bucket, fromSec: int, toSec: int)
    requires Ordinary(o) && Inv(o, w) && LossesUpTo(w, e.sec) && ReadyFor(o, w.engine, e)
    requires BadAt(w, e.mint, bad) && Oldest(o, e.sec) <= bad <= e.sec - o.settleSec
    ensures var end := Next(o, w, TradeArrives(e));
      && Answered(o, end, e.mint, e.receivedAtMs, total, fromSec, toSec) && fromSec <= bad <= toSec
      && !WholeTotal(end, e.mint, total, fromSec, toSec)
  {
    var s1 := ReachesReady(o, w, e);
    CountedFrom(o, w, s1, e);
    StepKeeps(o, w, TradeArrives(e));
    BothAnswered(o, w, s1, e, Next(o, w, TradeArrives(e)), bad);
    total, fromSec, toSec := BadInOneWindow(o, Next(o, w, TradeArrives(e)), e, bad);
  }

  /** The trade counted, both windows are answered and the bad second is still bad. */
  lemma BothAnswered(o: Options, w: World, s1: Engine, e: TradeEvent, end: World, bad: int)
    requires Ordinary(o) && ReachedFor(o, w.engine, s1, e) && e.quote.NativeSol? && e.receivedAtMs == 1000 * e.sec
    requires var (s0, st) := TouchMint(o, s1, e.mint, e.sec, false);
      end.engine == Count(o, StoreMint(s0, e.mint, AfterTrade(st, e, s0.epoch)), e)
    requires end.counted == w.counted + [e] && end.lost == w.lost
    requires BadAt(w, e.mint, bad) && bad >= Oldest(o, e.sec)
    ensures BothWindows(o, end, e) && BadAt(end, e.mint, bad)
  {
    CountedAnswers(o, s1, e, end.engine);
    assert At(s1.buckets, e.mint, bad) == At(w.engine.buckets, e.mint, bad);
    AddedStaysBad(w, end, e, s1.buckets, bad);
  }

  ghost predicate BothWindows(o: Options, w: World, e: TradeEvent) {
    var v, T := Compute(o, w.engine, e.mint, e.receivedAtMs).1, e.sec - o.settleSec;
    && w.engine.watermark == Some(e.sec)
    && v.current == Some(WindowSum(w.engine.buckets, e.mint, T - 59, T))
    && v.previous == Some(WindowSum(w.engine.buckets, e.mint, T - 119, T - 60))
  }

  lemma BadInOneWindow(o: Options, w: World, e: TradeEvent, bad: int) returns (total: Bucket, fromSec: int, toSec: int)
    requires Kept(o, w) && BothWindows(o, w, e) && BadAt(w, e.mint, bad)
    requires Oldest(o, e.sec) <= bad <= e.sec - o.settleSec
    ensures Answered(o, w, e.mint, e.receivedAtMs, total, fromSec, toSec) && fromSec <= bad <= toSec
    ensures !WholeTotal(w, e.mint, total, fromSec, toSec)
  {
    var T := e.sec - o.settleSec;
    fromSec, toSec := if bad >= T - 59 then T - 59 else T - 119, if bad >= T - 59 then T else T - 60;
    total := WindowSum(w.engine.buckets, e.mint, fromSec, toSec);
    BadWindow(o, w, e.mint, fromSec, toSec, bad);
  }

  lemma CountedFrom(o: Options, w: World, s1: Engine, e: TradeEvent)
    requires Accepts(o, w.engine, e.identity, e.sec, e.receivedAtMs) && ReachedFor(o, w.engine, s1, e)
    requires e.quote.NativeSol?
    ensures var (s0, st) := TouchMint(o, s1, e.mint, e.sec, false);
      var end := Next(o, w, TradeArrives(e));
      && end.engine == Count(o, StoreMint(s0, e.mint, AfterTrade(st, e, s0.epoch)), e)
      && end.counted == w.counted + [e] && end.lost == w.lost
  {
    var (s0, st) := TouchMint(o, s1, e.mint, e.sec, false);
    assert st.status.Active?;
  }

  // ---- the failing runs ------------------------------------------------------------------------------------------

  lemma RunOfTwo(o: Options, w: World, a: Step, b: Step)
    ensures var w1 := Next(o, w, a);
      && Run(o, w, [a, b]) == Next(o, w1, b)
      && (Admissible(o, w, a) && Admissible(o, w1, b) ==> AdmissibleRun(o, w, [a, b]))
      && (CreationHeld(o, w, a) && CreationHeld(o, w1, b) ==> CreationsHeldRun(o, w, [a, b]))
      && (CreationWatched(o, w, a) && CreationWatched(o, w1, b) ==> CreationsWatchedRun(o, w, [a, b]))
  {
    var w1 := Next(o, w, a);
    var w2 := Next(o, w1, b);
    assert [a, b][1..] == [b] && [b][1..] == [];
    assert Run(o, w1, [b]) == Run(o, w2, []) == w2;
    assert AdmissibleRun(o, w2, []) && CreationsHeldRun(o, w2, []) && CreationsWatchedRun(o, w2, []);
    assert Admissible(o, w1, b) ==> AdmissibleRun(o, w1, [b]);
    assert CreationHeld(o, w1, b) ==> CreationsHeldRun(o, w1, [b]);
    assert CreationWatched(o, w1, b) ==> CreationsWatchedRun(o, w1, [b]);
  }

  lemma OneMore(o: Options, w: World, a: Step, rest: seq<Step>)
    ensures Run(o, w, [a] + rest) == Run(o, Next(o, w, a), rest)
    ensures Admissible(o, w, a) && AdmissibleRun(o, Next(o, w, a), rest) ==> AdmissibleRun(o, w, [a] + rest)
    ensures CreationHeld(o, w, a) && CreationsHeldRun(o, Next(o, w, a), rest) ==> CreationsHeldRun(o, w, [a] + rest)
    ensures CreationWatched(o, w, a) && CreationsWatchedRun(o, Next(o, w, a), rest)
            ==> CreationsWatchedRun(o, w, [a] + rest)
  {
    assert ([a] + rest)[1..] == rest;
  }

  /** After one signal, the trade that brings the bad answer is all the environment need do. */
  lemma SignalThenTrade(o: Options, w: World, signal: Step, e: TradeEvent, born: int)
    requires signal.Heard? || signal.Reconnected?
    requires e.sec >= born && LossesUpTo(Next(o, w, signal), e.sec)
    ensures MayFollow(o, w, e.mint, born, [signal, TradeArrives(e)])
    ensures Run(o, w, [signal, TradeArrives(e)]) == Next(o, Next(o, w, signal), TradeArrives(e))
  {
    RunOfTwo(o, w, signal, TradeArrives(e));
  }

  lemma BeyondIsFaithful(w: World, mint: Mint, sec: int)
    requires UpToWatermark(w.counted, w.engine.watermark) && BucketsCounted(w)
    requires w.engine.watermark.Some? && sec > w.engine.watermark.value
    ensures Faithful(w.engine.buckets, w.counted, mint, sec)
  {
    SumOfNothing(w.counted, mint, sec, sec);
    assert Slot(mint, sec) !in w.engine.buckets;
  }

  /** A creation accepted while connected, but not held or not watched, leaves a bad second that will be asked for. */
  lemma BadSecond(o: Options, w: World, l: LifecycleEvent, w1: World) returns (bad: int)
    requires Ordinary(o) && Inv(o, w) && FreshCreation(o, w, l) && !(LostNoneYoung(o, w, l) && HeldYoung(o, w, l))
    requires Inv(o, w1) && w1.counted == w.counted && w1.lost == w.lost && KeepsYoung(o, w.engine, w1.engine)
    requires w1.settled == |w1.lost| && w1.engine.watermark == Some(Max(l.sec, w.engine.watermark.GetOr(l.sec)))
    ensures BadAt(w1, l.mint, bad) && Young(o, w1.engine, bad) && bad <= w1.engine.watermark.value
  {
    if !LostNoneYoung(o, w, l) {
      var i :| 0 <= i < |w.lost| && w.lost[i].mint == l.mint && w.lost[i].sec >= OldestAfter(o, w.engine, l.sec);
      bad := w.lost[i].sec;
      assert w1.lost[..w1.settled][i] == w1.lost[i];
    } else {
      bad :| bad >= OldestAfter(o, w.engine, l.sec) && !Faithful(w.engine.buckets, w.counted, l.mint, bad);
      assert At(w1.engine.buckets, l.mint, bad) == At(w.engine.buckets, l.mint, bad);
      if bad > w1.engine.watermark.value {
        BeyondIsFaithful(w1, l.mint, bad);
      }
    }
    MissingIsBad(o, w1, l.mint, bad);
  }

  /** While connected: once the bad second is settled, the next trade of the mint has it answered. */
  lemma GapBehindAConnectedCreation(o: Options, w: World, l: LifecycleEvent, unused: Key, w1: World, bad: int)
    returns (steps: seq<Step>, nowMs: int, total: Bucket, fromSec: int, toSec: int)
    requires Ordinary(o) && Inv(o, w1) && CreatedOpen(o, w1.engine, l.mint, l.sec) && w1.engine.connected
    requires w1.settled == |w1.lost| && !Has(w1.engine.seen, unused)
    requires BadAt(w1, l.mint, bad) && Young(o, w1.engine, bad) && bad <= w1.engine.watermark.value
    ensures MayFollow(o, w1, l.mint, l.sec, steps)
    ensures Answered(o, Run(o, w1, steps), l.mint, nowMs, total, fromSec, toSec)
    ensures !WholeTotal(Run(o, w1, steps), l.mint, total, fromSec, toSec)
  {
    var sec := Max(w1.engine.watermark.value, bad + o.settleSec);
    nowMs := 1000 * sec;
    var e := TradeEvent(unused, l.mint, 1, 1, true, sec, 0, nowMs, NativeSol, None);
    var heard := Next(o, w1, Heard(Some(nowMs)));
    SignalKeeps(o, w1, Heard(Some(nowMs)));
    SignalThenTrade(o, w1, Heard(Some(nowMs)), e, l.sec);
    steps := [Heard(Some(nowMs)), TradeArrives(e)];
    total, fromSec, toSec := BadIsAnswered(o, heard, e, bad);
  }

  /**
   * The failing run while disconnected: a creation is accepted, a later trade of the mint is lost, the stream
   * reconnects (which does not start a new epoch, coverage being already broken) and once the loss is old enough to be
   * asked for another trade of the mint arrives. The window is answered although the lost trade lies in it.
   */
  lemma LossBehindAnUnconnectedCreation(o: Options, w: World, l: LifecycleEvent, unused: Key)
    returns (steps: seq<Step>, nowMs: int, total: Bucket, fromSec: int, toSec: int)
    requires Ordinary(o) && Inv(o, w) && FreshCreation(o, w, l) && !w.engine.connected
    requires !Has(AcceptLifecycle(o, w.engine, l).seen, unused)
    ensures var w1 := Next(o, w, LifecycleArrives(l));
      && MayFollow(o, w1, l.mint, l.sec, steps)
      && Answered(o, Run(o, w1, steps), l.mint, nowMs, total, fromSec, toSec) && toSec >= l.sec
      && !WholeTotal(Run(o, w1, steps), l.mint, total, fromSec, toSec)
  {
    var w1 := CreatedState(o, w, l);
    var sec := Max(w1.engine.watermark.value, l.sec + o.settleSec);
    nowMs := 1000 * sec;
    var e := TradeEvent(unused, l.mint, 1, 1, true, sec, 0, nowMs, NativeSol, None);
    steps, total, fromSec, toSec := LossThenReconnect(o, w1, e, l.sec);
  }

  lemma LossThenReconnect(o: Options, w1: World, e: TradeEvent, born: int)
    returns (steps: seq<Step>, total: Bucket, fromSec: int, toSec: int)
    requires Ordinary(o) && Inv(o, w1) && CreatedOpen(o, w1.engine, e.mint, born) && w1.settled == |w1.lost|
    requires !w1.engine.connected && w1.engine.coverageSince.None? && !Has(w1.engine.seen, e.identity)
    requires e.receivedAtMs == 1000 * e.sec && e.quote.NativeSol?
    requires e.sec == Max(w1.engine.watermark.value, born + o.settleSec)
    ensures MayFollow(o, w1, e.mint, born, steps) && toSec >= born
    ensures Answered(o, Run(o, w1, steps), e.mint, e.receivedAtMs, total, fromSec, toSec)
    ensures !WholeTotal(Run(o, w1, steps), e.mint, total, fromSec, toSec)
  {
    var bad := e.sec - o.settleSec;
    var h := e.(identity := e.identity + "-lost", sec := bad);
    var w3 := LostAndReconnected(o, w1, h);
    assert ReadyFor(o, w3.engine, e);
    total, fromSec, toSec := BadIsAnswered(o, w3, e, bad);
    steps := LossRun(o, w1, h, e, born, w3);
  }

  /** The loss makes its second bad, and reconnecting a broken stream starts no new epoch. */
  lemma LostAndReconnected(o: Options, w1: World, h: TradeEvent) returns (w3: World)
    requires Inv(o, w1) && w1.engine.coverageSince.None? && h.quote.NativeSol? && w1.settled == |w1.lost|
    ensures w3 == Next(o, Next(o, w1, Lost(h)), Reconnected)
    ensures w3.engine == MarkReconnected(w1.engine) && w3.engine.epoch == w1.engine.epoch
    ensures Inv(o, w3) && BadAt(w3, h.mint, h.sec) && (forall sec | sec >= h.sec :: LossesUpTo(w3, sec))
  {
    var w2 := Next(o, w1, Lost(h));
    w3 := Next(o, w2, Reconnected);
    StepKeeps(o, w1, Lost(h));
    SignalKeeps(o, w2, Reconnected);
    assert w2.lost[|w1.lost|] == h;
    MissingIsBad(o, w2, h.mint, h.sec);
  }

  lemma LossRun(o: Options, w1: World, h: TradeEvent, e: TradeEvent, born: int, w3: World) returns (steps: seq<Step>)
    requires w1.engine.coverageSince.None? && h.quote.NativeSol? && h.mint == e.mint && born <= h.sec <= e.sec
    requires w3 == Next(o, Next(o, w1, Lost(h)), Reconnected) && LossesUpTo(w3, e.sec)
    ensures MayFollow(o, w1, e.mint, born, steps) && Run(o, w1, steps) == Next(o, w3, TradeArrives(e))
  {
    SignalThenTrade(o, Next(o, w1, Lost(h)), Reconnected, e, born);
    OneMore(o, w1, Lost(h), [Reconnected, TradeArrives(e)]);
    steps := [Lost(h)] + [Reconnected, TradeArrives(e)];
  }
}
