/** The volume engine as the program has it: fields changed in place, each method making the transition of VolumeModel. */
module VolumeEngine {
  import opened Prelude
  import opened OrderedMaps
  import opened BoundedStructures
  import opened CurveTracking
  import M = VolumeModel

  class PumpfunVolumeEngine {
    const o: M.Options
    const buckets: SecondBucketStore
    const seen: BoundedIdentitySet
    var mints: OrderedMap<Mint, M.MintState>

    var started: bool
    var connected: bool
    var awaitingFirst: bool
    var coverageSince: Option<int>
    var epoch: int
    var breakReason: Option<M.Reason>
    var watermark: Option<int>
    var lastNotificationMs: Option<int>
    var lastPruneSec: int
    var lastMintPruneSec: int

    ghost predicate Valid()
      reads this, buckets, seen
    {
      o.Accepted() && buckets.Valid() && seen.Valid() && seen.maxEntries == o.maxDedupeEntries
    }

    ghost function View(): M.Engine
      reads this, buckets, seen
    {
      M.Engine(started, connected, awaitingFirst, coverageSince, epoch, breakReason, watermark, lastNotificationMs,
               lastPruneSec, lastMintPruneSec, buckets.contents, seen.present, seen.evictedByCap, mints)
    }

    constructor (options: M.Options)
      requires options.Accepted()
      ensures Valid() && View() == M.FRESH && o == options
      ensures fresh(buckets) && fresh(seen)
    {
      o := options;
      buckets := new SecondBucketStore();
      seen := new BoundedIdentitySet(options.maxDedupeEntries);
      mints := [];
      started, connected, awaitingFirst := false, false, true;
      coverageSince, epoch, breakReason, watermark, lastNotificationMs := None, 0, None, None, None;
      lastPruneSec, lastMintPruneSec := 0, 0;
    }

    // ---- stream health -------------------------------------------------------------------------------------------

    method MarkStreamStarted()
      requires Valid()
      modifies this
      ensures Valid() && View() == M.MarkStreamStarted(old(View()))
    {
      ghost var s := View();
      started := true;
      connected := true;
      lastNotificationMs := None;
      assert View() == s.(started := true, connected := true, lastNotificationMs := None);
      coverageSince := None;
      awaitingFirst := true;
      epoch := epoch + 1;
    }

    method MarkDisconnected(reason: M.Reason)
      requires Valid()
      modifies this
      ensures Valid() && View() == M.MarkDisconnected(old(View()), reason)
    {
      connected := false;
      BreakCoverage(reason);
    }

    method MarkReconnected()
      requires Valid()
      modifies this
      ensures Valid() && View() == M.MarkReconnected(old(View()))
    {
      started := true;
      connected := true;
      lastNotificationMs := None;
      if coverageSince.Some? {
        BreakCoverage(M.CoverageGap);
      }
      awaitingFirst := true;
    }

    method CheckLiveness(nowMs: int)
      requires Valid()
      modifies this
      ensures Valid() && View() == M.CheckLiveness(o, old(View()), nowMs)
    {
      if !started || coverageSince.None? || lastNotificationMs.None? {
        return;
      }
      if nowMs - lastNotificationMs.value > o.silenceMs {
        BreakCoverage(M.StreamSilent);
      }
    }

    /** Also the entry point for logged breaks and stream errors. */
    method BreakCoverage(reason: M.Reason)
      requires Valid()
      modifies this
      ensures Valid() && View() == M.BreakCoverage(old(View()), reason)
    {
      coverageSince := None;
      awaitingFirst := true;
      breakReason := Some(reason);
      epoch := epoch + 1;
    }

    // ---- ingestion -----------------------------------------------------------------------------------------------

    method OnNotification(n: M.Notification, receivedAtMs: int)
      requires Valid()
      modifies this, buckets, seen
      ensures Valid() && View() == M.OnNotification(o, old(View()), n, receivedAtMs)
    {
      lastNotificationMs := Some(receivedAtMs);
      match n
      case FailedTransaction => return;
      case UnknownStatus => return;
      case Undecodable =>
        BreakCoverage(M.DecodeError);
      case Decoded(errors, truncated, _, _, _) =>
        if errors > 0 {
          BreakCoverage(M.DecodeError);
        }
        if truncated {
          BreakCoverage(M.LogsTruncated);
        }
        IngestLifecycles(n.LifecyclesTaken());
        IngestTrades(n.TradesTaken());
        if n.Throws() {
          BreakCoverage(M.DecodeError);
        }
    }

    /** A replayed trade forgets when anything was heard last: recorded breaks carry that. */
    method IngestNormalizedTrade(e: M.TradeEvent)
      requires Valid()
      modifies this, buckets, seen
      ensures Valid() && View() == M.AcceptTrade(o, old(View()).(lastNotificationMs := None), e)
    {
      lastNotificationMs := None;
      AcceptTrade(e);
    }

    method IngestNormalizedLifecycle(l: M.LifecycleEvent)
      requires Valid()
      modifies this, buckets, seen
      ensures Valid() && View() == M.AcceptLifecycle(o, old(View()), l)
    {
      AcceptLifecycle(l);
    }

    method IngestLifecycles(ls: seq<M.LifecycleEvent>)
      requires Valid()
      modifies this, buckets, seen
      ensures Valid() && View() == M.AcceptLifecycles(o, old(View()), ls)
    {
      for i := 0 to |ls|
        invariant Valid() && View() == M.AcceptLifecycles(o, old(View()), ls[..i])
      {
        AcceptLifecycle(ls[i]);
        assert ls[..i + 1][..i] == ls[..i];
      }
      assert ls[..|ls|] == ls;
    }

    method IngestTrades(es: seq<M.TradeEvent>)
      requires Valid()
      modifies this, buckets, seen
      ensures Valid() && View() == M.AcceptTrades(o, old(View()), es)
    {
      for i := 0 to |es|
        invariant Valid() && View() == M.AcceptTrades(o, old(View()), es[..i])
      {
        AcceptTrade(es[i]);
        assert es[..i + 1][..i] == es[..i];
      }
      assert es[..|es|] == es;
    }

    method ObserveEventTime(sec: int, receivedAtMs: int) returns (ok: bool)
      requires Valid()
      ensures ok == M.Observed(o, View(), sec, receivedAtMs)
    {
      if sec > receivedAtMs / 1000 + o.futureToleranceSec {
        return false;
      }
      if watermark.Some? && sec < watermark.value - o.retentionSec {
        return false;
      }
      return true;
    }

    method AdvanceWatermark(sec: int)
      requires Valid()
      modifies this, buckets, seen
      ensures Valid() && View() == M.AdvanceWatermark(o, old(View()), sec)
    {
      ghost var s := View();
      if awaitingFirst && connected {
        coverageSince := Some(Max(sec, watermark.GetOr(sec)) + 1);
        awaitingFirst := false;
        assert View() == s.(coverageSince := coverageSince, awaitingFirst := false);
      }
      if watermark.None? || sec > watermark.value {
        watermark := Some(sec);
        PruneIfDue(sec);
      }
    }

    method PruneIfDue(w: int)
      requires Valid()
      modifies this, buckets, seen
      ensures Valid() && View() == M.PruneIfDue(o, old(View()), w)
    {
      if w != lastPruneSec {
        PruneAt(w);
      }
    }

    method PruneAt(w: int)
      requires Valid()
      modifies this`lastPruneSec, this`lastMintPruneSec, this`mints, buckets, seen
      ensures Valid()
      ensures View() == M.PruneMints(o, M.PruneStores(old(View()).(lastPruneSec := w), w - o.retentionSec), w)
    {
      ghost var s := View();
      lastPruneSec := w;
      assert View() == s.(lastPruneSec := w);
      PruneStores(w - o.retentionSec);
      assert View() == M.PruneStores(s.(lastPruneSec := w), w - o.retentionSec);
      PruneMints(w);
    }

    method PruneMints(w: int)
      requires Valid()
      modifies this`lastMintPruneSec, this`mints
      ensures Valid() && View() == M.PruneMints(o, old(View()), w)
    {
      if w - lastMintPruneSec >= 60 {
        lastMintPruneSec := w;
        mints := DropIdle(mints, w - o.mintStateIdleSec);
      }
    }

    method PruneStores(minSec: int)
      requires Valid()
      modifies buckets, seen
      ensures Valid()
      ensures View() == M.PruneStores(old(View()), minSec)
    {
      var _ := buckets.PruneOlderThan(minSec);
      seen.PruneOlderThan(minSec);
    }

    method TouchMint(mint: Mint, sec: int, isCreate: bool) returns (st: M.MintState)
      requires Valid()
      modifies this`mints
      ensures Valid() && (View(), st) == M.TouchMint(o, old(View()), mint, sec, isCreate)
    {
      var found := Get(mints, mint);
      match found
      case Some(state) =>
        st := if sec > state.lastEventSec then state.(lastEventSec := sec) else state;
        mints := Set(mints, mint, st);
      case None =>
        st := M.MintState(M.Active, None, None, if isCreate then epoch else -1, sec, None);
        var kept := Set(mints, mint, st);
        assert kept == mints + [(mint, st)];
        if |kept| > o.maxMintStates {
          kept := EvictOldest(kept, |kept| - o.maxMintStates);
        }
        mints := kept;
    }

    method StoreMint(mint: Mint, st: M.MintState)
      requires Valid()
      modifies this`mints
      ensures Valid() && View() == M.StoreMint(old(View()), mint, st)
    {
      if Has(mints, mint) {
        mints := Set(mints, mint, st);
      }
    }

    method AcceptTrade(e: M.TradeEvent)
      requires Valid()
      modifies this, buckets, seen
      ensures Valid() && View() == M.AcceptTrade(o, old(View()), e)
    {
      var ok := ObserveEventTime(e.sec, e.receivedAtMs);
      if !ok {
        return;
      }
      var added := seen.Add(e.identity, e.sec);
      if !added {
        return;
      }
      assert View() == M.Remember(o, old(View()), e.identity, e.sec);
      AdvanceWatermark(e.sec);
      var st := TouchMint(e.mint, e.sec, false);
      match e.quote
      case OtherQuote =>
        StoreMint(e.mint, M.Restrict(st, M.NonSolQuote));
      case UnprovenQuote =>
        StoreMint(e.mint, M.Restrict(st, M.QuoteUnproven));
      case NativeSol =>
        if st.status.Active? {
          StoreMint(e.mint, st.(provenEpoch := epoch, curve := UpdateCurve(st.curve, M.CurveEventOf(e))));
          CountTrade(e);
        }
    }

    method CountTrade(e: M.TradeEvent)
      requires Valid()
      modifies this, buckets
      ensures Valid() && View() == M.Count(o, old(View()), e)
    {
      ghost var s := View();
      buckets.Add(e.mint, e.sec, e.lamports, e.isBuy);
      ghost var s1 := s.(buckets := AddTrade(s.buckets, e.mint, e.sec, e.lamports, e.isBuy));
      assert View() == s1;
      if buckets.bucketCount > o.maxBuckets {
        var _ := buckets.EnforceCap(o.maxBuckets);
        assert View() == s1.(buckets := Capped(s1.buckets, o.maxBuckets));
        BreakCoverage(M.CapacityExceeded);
      }
    }

    method AcceptLifecycle(l: M.LifecycleEvent)
      requires Valid()
      modifies this, buckets, seen
      ensures Valid() && View() == M.AcceptLifecycle(o, old(View()), l)
    {
      var ok := ObserveEventTime(l.sec, l.receivedAtMs);
      if !ok {
        return;
      }
      var added := seen.Add(l.identity, l.sec);
      if !added {
        return;
      }
      assert View() == M.Remember(o, old(View()), l.identity, l.sec);
      AdvanceWatermark(l.sec);
      var st := TouchMint(l.mint, l.sec, l.isCreate);
      if l.isCreate {
        if st.creationSec.None? {
          st := st.(creationSec := Some(l.sec), createdInEpoch := Some(epoch));
        }
        match l.quote {
          case UnprovenQuote => st := M.Restrict(st, M.QuoteUnproven);
          case OtherQuote => st := M.Restrict(st, M.NonSolQuote);
          case NativeSol => st := st.(provenEpoch := epoch);
        }
      } else {
        st := st.(status := M.Graduated);
      }
      StoreMint(l.mint, st);
    }

    // ---- queries -------------------------------------------------------------------------------------------------

    method GetOneMinuteVolume(mint: Mint, nowMs: int) returns (v: M.Volume)
      requires Valid()
      modifies this
      ensures Valid() && (View(), v) == M.Compute(o, old(View()), mint, nowMs)
    {
      CheckLiveness(nowMs);
      var windowEnd := if watermark.None? then None else Some(watermark.value - o.settleSec);
      var gate := StreamGate(nowMs);
      if gate.Some? {
        return M.Volume(None, None, windowEnd, gate.value);
      }
      if !Has(mints, mint) {
        return M.Volume(None, None, windowEnd, M.MintNotObserved);
      }
      var st := Get(mints, mint).value;
      match st.status {
        case Graduated => return M.Volume(None, None, windowEnd, M.IsGraduated);
        case NonSolQuote => return M.Volume(None, None, windowEnd, M.IsNonSolQuote);
        case QuoteUnproven => return M.Volume(None, None, windowEnd, M.IsQuoteUnproven);
        case Active =>
      }
      if st.provenEpoch != epoch {
        return M.Volume(None, None, windowEnd, M.TokenStateUnproven);
      }
      v := SumWindows(mint, st, watermark.value - o.settleSec);
    }

    method SumWindows(mint: Mint, st: M.MintState, T: int) returns (v: M.Volume)
      requires Valid() && coverageSince.Some?
      ensures v == M.Windows(View(), mint, st, T)
    {
      var cur := buckets.Sum(mint, T - 59, T);
      var prev := buckets.Sum(mint, T - 119, T - 60);
      var creationCovered := st.createdInEpoch == Some(epoch) && st.creationSec.Some?;
      var curCovered := creationCovered || coverageSince.value <= T - 59;
      var prevCovered := creationCovered || coverageSince.value <= T - 119;
      assert curCovered == M.Covered(View(), st, T - 59) && prevCovered == M.Covered(View(), st, T - 119);
      var current := if curCovered then Some(cur) else None;
      var previous := if prevCovered then Some(prev) else None;
      v := M.Volume(current, previous, Some(T),
                    if curCovered then M.Complete else breakReason.GetOr(M.InsufficientHistory));
    }

    method ResolveCurve(mint: Mint, nowMs: int) returns (answer: M.CurveAnswer)
      requires Valid()
      modifies this
      ensures Valid() && (View(), answer) == M.ResolveCurve(o, old(View()), mint, nowMs)
    {
      CheckLiveness(nowMs);
      var gate := StreamGate(nowMs);
      if gate.Some? {
        return M.Withheld(M.FromStream(gate.value));
      }
      if !Has(mints, mint) {
        return M.Withheld(M.NotObserved);
      }
      var st := Get(mints, mint).value;
      match st.status {
        case Graduated => return M.Withheld(M.CurveGraduated);
        case NonSolQuote => return M.Withheld(M.CurveNonSol);
        case QuoteUnproven => return M.Withheld(M.CurveQuoteUnproven);
        case Active =>
      }
      if st.provenEpoch != epoch {
        return M.Withheld(M.StateUnproven);
      }
      if st.curve.None? {
        return M.Withheld(M.NoCurveState);
      }
      var track := st.curve.value;
      if track.unreadable {
        return M.Withheld(M.Unreadable);
      }
      if track.post.mayhemMode == Some(true) {
        return M.Withheld(M.MayhemCurve);
      }
      if track.post.mayhemMode == None {
        return M.Withheld(M.ModeUnproven);
      }
      if !track.stepOk {
        return M.Withheld(M.StepInconsistent);
      }
      if watermark.value - track.second > o.maxSnapshotSkewSec {
        return M.Withheld(M.TimestampSkew);
      }
      answer := M.Served(track);
    }

    method StreamGate(nowMs: int) returns (gate: Option<M.Reason>)
      requires Valid()
      ensures gate == M.StreamGate(o, View(), nowMs)
    {
      if !started {
        return Some(M.StreamNotStarted);
      }
      if !connected {
        return Some(breakReason.GetOr(M.StreamDisconnected));
      }
      if coverageSince.None? || watermark.None? {
        return Some(breakReason.GetOr(M.InsufficientHistory));
      }
      if nowMs - 1000 * watermark.value > 1000 * o.maxWatermarkLagSec {
        return Some(M.WatermarkStale);
      }
      return None;
    }
  }

  /** Walks the states in insertion order and keeps those with an event since `idleCut`. */
  method DropIdle(ms: OrderedMap<Mint, M.MintState>, idleCut: int) returns (kept: OrderedMap<Mint, M.MintState>)
    ensures kept == M.WithoutIdle(ms, idleCut)
  {
    kept := [];
    var i := 0;
    while i < |ms|
      invariant 0 <= i <= |ms|
      invariant kept + M.WithoutIdle(ms[i..], idleCut) == M.WithoutIdle(ms, idleCut)
    {
      if ms[i].1.lastEventSec >= idleCut {
        kept := kept + [ms[i]];
      }
      assert ms[i..][1..] == ms[i + 1..];
      i := i + 1;
    }
  }

  method EvictOldest(ms: OrderedMap<Mint, M.MintState>, excess: nat) returns (kept: OrderedMap<Mint, M.MintState>)
    requires excess <= |ms|
    ensures kept == ms[excess..]
  {
    kept := ms;
    var removed := 0;
    while removed < excess
      invariant removed <= excess && kept == ms[removed..]
    {
      kept := kept[1..];
      removed := removed + 1;
    }
  }
}
