/**
 * The volume engine's transitions on values (engine/src/volume/pumpfunVolumeEngine.ts). The class in VolumeEngine.dfy
 * is proved to make exactly these transitions; VolumeSafety.dfy proves what they keep over whole runs.
 */
module VolumeModel {
  import opened Prelude
  import opened OrderedMaps
  import opened BoundedStructures
  import opened BondingCurveMath
  import opened CurveTracking

  datatype Reason =
    | StreamNotStarted | StreamDisconnected | StreamSilent | StreamError | WatermarkStale | CoverageGap
    | InsufficientHistory | DecodeError | LogsTruncated | CapacityExceeded | MintNotObserved | TokenStateUnproven
    | IsGraduated | IsNonSolQuote | IsQuoteUnproven | Complete

  datatype QuoteClass = NativeSol | OtherQuote | UnprovenQuote

  datatype TradeEvent = TradeEvent(
    identity: Key, mint: Mint, lamports: int, tokens: int, isBuy: bool, sec: int, slot: int, receivedAtMs: int,
    quote: QuoteClass, post: Option<CurveState>)

  /** A creation, or a graduation or migration off the curve. */
  datatype LifecycleEvent = LifecycleEvent(
    identity: Key, mint: Mint, isCreate: bool, quote: QuoteClass, sec: int, receivedAtMs: int)

  datatype MintStatus = Active | Graduated | NonSolQuote | QuoteUnproven

  datatype MintState = MintState(
    status: MintStatus, creationSec: Option<int>, createdInEpoch: Option<int>, provenEpoch: int, lastEventSec: int,
    curve: Option<CurveTrack>)

  datatype Options = Options(
    retentionSec: int, settleSec: int, silenceMs: int, maxWatermarkLagSec: int, futureToleranceSec: int,
    maxDedupeEntries: nat, maxBuckets: nat, maxMintStates: nat, mintStateIdleSec: int, maxSnapshotSkewSec: int)
  {
    /** What the constructors insist on. */
    predicate Accepted() {
      retentionSec >= 120 + settleSec && maxDedupeEntries >= 1
    }
  }

  datatype Engine = Engine(
    started: bool, connected: bool, awaitingFirst: bool, coverageSince: Option<int>, epoch: int,
    breakReason: Option<Reason>, watermark: Option<int>, lastNotificationMs: Option<int>, lastPruneSec: int,
    lastMintPruneSec: int, buckets: Buckets, seen: OrderedMap<Key, int>, capEvictions: nat,
    mints: OrderedMap<Mint, MintState>)

  const FRESH := Engine(false, false, true, None, 0, None, None, None, 0, 0, map[], [], 0, [])

  // ---- stream health ---------------------------------------------------------------------------------------------

  function BreakCoverage(s: Engine, reason: Reason): Engine {
    s.(coverageSince := None, awaitingFirst := true, breakReason := Some(reason), epoch := s.epoch + 1)
  }

  function MarkStreamStarted(s: Engine): Engine {
    s.(started := true, connected := true, lastNotificationMs := None, coverageSince := None, awaitingFirst := true,
       epoch := s.epoch + 1)
  }

  function MarkDisconnected(s: Engine, reason: Reason): Engine {
    BreakCoverage(s.(connected := false), reason)
  }

  function MarkReconnected(s: Engine): Engine {
    var s1 := s.(started := true, connected := true, lastNotificationMs := None);
    var s2 := if s1.coverageSince.Some? then BreakCoverage(s1, CoverageGap) else s1;
    s2.(awaitingFirst := true)
  }

  function CheckLiveness(o: Options, s: Engine, nowMs: int): Engine {
    if !s.started || s.coverageSince.None? || s.lastNotificationMs.None? then s
    else if nowMs - s.lastNotificationMs.value > o.silenceMs then BreakCoverage(s, StreamSilent)
    else s
  }

  // ---- ingestion -------------------------------------------------------------------------------------------------

  predicate Observed(o: Options, s: Engine, sec: int, receivedAtMs: int) {
    && sec <= receivedAtMs / 1000 + o.futureToleranceSec
    && (s.watermark.Some? ==> sec >= s.watermark.value - o.retentionSec)
  }

  /** An event passes the time check and is not a redelivery. */
  predicate Accepts(o: Options, s: Engine, identity: Key, sec: int, receivedAtMs: int) {
    Observed(o, s, sec, receivedAtMs) && !Has(s.seen, identity)
  }

  function Remember(o: Options, s: Engine, identity: Key, sec: int): Engine {
    var all := s.seen + [(identity, sec)];
    if |all| <= o.maxDedupeEntries then s.(seen := all)
    else s.(seen := all[1..], capEvictions := s.capEvictions + 1)
  }

  function AdvanceWatermark(o: Options, s: Engine, sec: int): Engine {
    var s1 := if s.awaitingFirst && s.connected
              then s.(coverageSince := Some(Max(sec, s.watermark.GetOr(sec)) + 1), awaitingFirst := false)
              else s;
    if s1.watermark.None? || sec > s1.watermark.value
    then PruneIfDue(o, s1.(watermark := Some(sec)), sec)
    else s1
  }

  function PruneIfDue(o: Options, s: Engine, w: int): Engine {
    if w == s.lastPruneSec then s
    else PruneMints(o, PruneStores(s.(lastPruneSec := w), w - o.retentionSec), w)
  }

  function PruneStores(s: Engine, minSec: int): Engine {
    s.(buckets := WithoutOlder(s.buckets, minSec), seen := PruneHead(s.seen, minSec))
  }

  /** Once a minute the states without a recent event go. */
  function PruneMints(o: Options, s: Engine, w: int): Engine {
    if w - s.lastMintPruneSec < 60 then s
    else s.(lastMintPruneSec := w, mints := WithoutIdle(s.mints, w - o.mintStateIdleSec))
  }

  function WithoutIdle(ms: OrderedMap<Mint, MintState>, idleCut: int): OrderedMap<Mint, MintState> {
    if ms == [] then []
    else (if ms[0].1.lastEventSec < idleCut then [] else [ms[0]]) + WithoutIdle(ms[1..], idleCut)
  }

  /** The mint's state, created when missing; past the cap the oldest states go, possibly the new one itself. */
  function TouchMint(o: Options, s: Engine, mint: Mint, sec: int, isCreate: bool): (Engine, MintState) {
    match Get(s.mints, mint)
    case Some(st) =>
      var st1 := st.(lastEventSec := Max(st.lastEventSec, sec));
      (s.(mints := Set(s.mints, mint, st1)), st1)
    case None =>
      var st := MintState(Active, None, None, if isCreate then s.epoch else -1, sec, None);
      var all := s.mints + [(mint, st)];
      (s.(mints := if |all| > o.maxMintStates then all[|all| - o.maxMintStates..] else all), st)
  }

  /** Writes a touched state back, unless it was evicted meanwhile. */
  function StoreMint(s: Engine, mint: Mint, st: MintState): Engine {
    if Has(s.mints, mint) then s.(mints := Set(s.mints, mint, st)) else s
  }

  function Restrict(st: MintState, status: MintStatus): MintState {
    if st.status.Active? then st.(status := status) else st
  }

  function CurveEventOf(e: TradeEvent): CurveEvent {
    CurveEvent(e.post, e.isBuy, e.lamports, e.tokens, e.slot, e.sec)
  }

  ghost function AcceptTrade(o: Options, s: Engine, e: TradeEvent): Engine {
    if !Accepts(o, s, e.identity, e.sec, e.receivedAtMs) then s
    else
      var s1 := AdvanceWatermark(o, Remember(o, s, e.identity, e.sec), e.sec);
      var (s2, st) := TouchMint(o, s1, e.mint, e.sec, false);
      match e.quote
      case OtherQuote => StoreMint(s2, e.mint, Restrict(st, NonSolQuote))
      case UnprovenQuote => StoreMint(s2, e.mint, Restrict(st, QuoteUnproven))
      case NativeSol =>
        if !st.status.Active? then s2
        else
          var st1 := st.(provenEpoch := s2.epoch, curve := UpdateCurve(st.curve, CurveEventOf(e)));
          Count(o, StoreMint(s2, e.mint, st1), e)
  }

  /** Adds a trade to its bucket; over the cap the oldest seconds go and coverage is broken. */
  ghost function Count(o: Options, s: Engine, e: TradeEvent): Engine {
    var s1 := s.(buckets := AddTrade(s.buckets, e.mint, e.sec, e.lamports, e.isBuy));
    if Size(s1.buckets) > o.maxBuckets
    then BreakCoverage(s1.(buckets := Capped(s1.buckets, o.maxBuckets)), CapacityExceeded)
    else s1
  }

  /** The trade reaches the buckets. */
  ghost predicate Counts(o: Options, s: Engine, e: TradeEvent) {
    && Accepts(o, s, e.identity, e.sec, e.receivedAtMs)
    && e.quote.NativeSol?
    && TouchMint(o, AdvanceWatermark(o, Remember(o, s, e.identity, e.sec), e.sec), e.mint, e.sec, false).1.status.Active?
  }

  function AcceptLifecycle(o: Options, s: Engine, l: LifecycleEvent): Engine {
    if !Accepts(o, s, l.identity, l.sec, l.receivedAtMs) then s
    else
      var s1 := AdvanceWatermark(o, Remember(o, s, l.identity, l.sec), l.sec);
      var (s2, st) := TouchMint(o, s1, l.mint, l.sec, l.isCreate);
      StoreMint(s2, l.mint, AfterLifecycle(st, l, s2.epoch))
  }

  function AfterLifecycle(st: MintState, l: LifecycleEvent, epoch: int): MintState {
    if !l.isCreate then st.(status := Graduated)
    else
      var st1 := if st.creationSec.None? then st.(creationSec := Some(l.sec), createdInEpoch := Some(epoch)) else st;
      match l.quote
      case UnprovenQuote => Restrict(st1, QuoteUnproven)
      case OtherQuote => Restrict(st1, NonSolQuote)
      case NativeSol => st1.(provenEpoch := epoch)
  }

  /**
   * One stream notification. `Undecodable` is a decoder that threw; `throwsAfter` is how many of a decoded notification's
   * events were taken when a listener of accepted events threw, if one did.
   */
  datatype Notification =
    | Undecodable
    | FailedTransaction
    | UnknownStatus
    | Decoded(decodeErrors: nat, truncated: bool, lifecycle: seq<LifecycleEvent>, trades: seq<TradeEvent>,
              throwsAfter: Option<nat>)
  {
    /** Lifecycles come first; those behind the exception are not taken. */
    function LifecyclesTaken(): seq<LifecycleEvent>
      requires Decoded?
    {
      if throwsAfter.Some? && throwsAfter.value < |lifecycle| then lifecycle[..throwsAfter.value] else lifecycle
    }

    function TradesTaken(): seq<TradeEvent>
      requires Decoded?
    {
      if throwsAfter.None? then trades
      else if throwsAfter.value <= |lifecycle| then []
      else if throwsAfter.value - |lifecycle| < |trades| then trades[..throwsAfter.value - |lifecycle|]
      else trades
    }

    predicate Throws()
      requires Decoded?
    {
      throwsAfter.Some? && throwsAfter.value <= |lifecycle| + |trades|
    }
  }

  function BreakWhen(s: Engine, broken: bool, reason: Reason): Engine {
    if broken then BreakCoverage(s, reason) else s
  }

  ghost function OnNotification(o: Options, s: Engine, n: Notification, receivedAtMs: int): Engine {
    var heard := s.(lastNotificationMs := Some(receivedAtMs));
    match n
    case Undecodable => BreakCoverage(heard, DecodeError)
    case FailedTransaction => heard
    case UnknownStatus => heard
    case Decoded(errors, truncated, _, _, _) =>
      var s1 := BreakWhen(BreakWhen(heard, errors > 0, DecodeError), truncated, LogsTruncated);
      var s2 := AcceptTrades(o, AcceptLifecycles(o, s1, n.LifecyclesTaken()), n.TradesTaken());
      BreakWhen(s2, n.Throws(), DecodeError)
  }

  function AcceptLifecycles(o: Options, s: Engine, ls: seq<LifecycleEvent>): Engine {
    if ls == [] then s else AcceptLifecycle(o, AcceptLifecycles(o, s, ls[..|ls| - 1]), ls[|ls| - 1])
  }

  ghost function AcceptTrades(o: Options, s: Engine, es: seq<TradeEvent>): Engine {
    if es == [] then s else AcceptTrade(o, AcceptTrades(o, s, es[..|es| - 1]), es[|es| - 1])
  }

  // ---- queries ---------------------------------------------------------------------------------------------------

  /** Totals of the two windows, None where the program answers null. */
  datatype Volume = Volume(current: Option<Bucket>, previous: Option<Bucket>, windowEnd: Option<int>, reason: Reason)

  /** Why the stream cannot be trusted right now, after the liveness check. */
  function StreamGate(o: Options, s: Engine, nowMs: int): Option<Reason> {
    if !s.started then Some(StreamNotStarted)
    else if !s.connected then Some(s.breakReason.GetOr(StreamDisconnected))
    else if s.coverageSince.None? || s.watermark.None? then Some(s.breakReason.GetOr(InsufficientHistory))
    else if nowMs - 1000 * s.watermark.value > 1000 * o.maxWatermarkLagSec then Some(WatermarkStale)
    else None
  }

  function WindowEnd(o: Options, s: Engine): Option<int> {
    if s.watermark.None? then None else Some(s.watermark.value - o.settleSec)
  }

  /** The engine after a query, and its answer. */
  function Compute(o: Options, s: Engine, mint: Mint, nowMs: int): (Engine, Volume) {
    var s1 := CheckLiveness(o, s, nowMs);
    (s1, Answer(o, s1, mint, nowMs))
  }

  function Answer(o: Options, s: Engine, mint: Mint, nowMs: int): Volume {
    var unanswered := (r: Reason) => Volume(None, None, WindowEnd(o, s), r);
    var gate := StreamGate(o, s, nowMs);
    if gate.Some? then unanswered(gate.value)
    else
      match Get(s.mints, mint)
      case None => unanswered(MintNotObserved)
      case Some(st) =>
        match st.status
        case Graduated => unanswered(IsGraduated)
        case NonSolQuote => unanswered(IsNonSolQuote)
        case QuoteUnproven => unanswered(IsQuoteUnproven)
        case Active =>
          if st.provenEpoch != s.epoch then unanswered(TokenStateUnproven)
          else Windows(s, mint, st, s.watermark.value - o.settleSec)
  }

  /** The two windows up to second T, each where it is covered. */
  function Windows(s: Engine, mint: Mint, st: MintState, T: int): Volume {
    var current := if Covered(s, st, T - 59) then Some(WindowSum(s.buckets, mint, T - 59, T)) else None;
    var previous := if Covered(s, st, T - 119) then Some(WindowSum(s.buckets, mint, T - 119, T - 60)) else None;
    Volume(current, previous, Some(T), if current.Some? then Complete else s.breakReason.GetOr(InsufficientHistory))
  }

  /** Events were watched without a break since the mint's observed creation, or since the window's start. */
  predicate Covered(s: Engine, st: MintState, windowStart: int) {
    CreationCovered(s, st) || (s.coverageSince.Some? && s.coverageSince.value <= windowStart)
  }

  predicate CreationCovered(s: Engine, st: MintState) {
    st.createdInEpoch == Some(s.epoch) && st.creationSec.Some?
  }

  datatype CurveReason =
    | FromStream(reason: Reason) | NotObserved | CurveGraduated | CurveNonSol | CurveQuoteUnproven | StateUnproven
    | NoCurveState | Unreadable | MayhemCurve | ModeUnproven | StepInconsistent | TimestampSkew

  datatype CurveAnswer = Served(track: CurveTrack) | Withheld(why: CurveReason)

  /** The validity ladder of every answer that depends on the curve. */
  function Resolve(o: Options, s: Engine, mint: Mint, nowMs: int): CurveAnswer {
    var gate := StreamGate(o, s, nowMs);
    if gate.Some? then Withheld(FromStream(gate.value))
    else
      match Get(s.mints, mint)
      case None => Withheld(NotObserved)
      case Some(st) =>
        match st.status
        case Graduated => Withheld(CurveGraduated)
        case NonSolQuote => Withheld(CurveNonSol)
        case QuoteUnproven => Withheld(CurveQuoteUnproven)
        case Active =>
          if st.provenEpoch != s.epoch then Withheld(StateUnproven)
          else
            match st.curve
            case None => Withheld(NoCurveState)
            case Some(track) =>
              if track.unreadable then Withheld(Unreadable)
              else if track.post.mayhemMode == Some(true) then Withheld(MayhemCurve)
              else if track.post.mayhemMode == None then Withheld(ModeUnproven)
              else if !track.stepOk then Withheld(StepInconsistent)
              else if s.watermark.value - track.second > o.maxSnapshotSkewSec then Withheld(TimestampSkew)
              else Served(track)
  }

  function ResolveCurve(o: Options, s: Engine, mint: Mint, nowMs: int): (Engine, CurveAnswer) {
    var s1 := CheckLiveness(o, s, nowMs);
    (s1, Resolve(o, s1, mint, nowMs))
  }
}
