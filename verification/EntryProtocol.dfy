/**
 * The entry commit of the evaluation loop: the risk decision and the reservation are one synchronous section, the buy
 * is an await, and the reservation is released only after the trade is recorded or the buy came to nothing.
 */
module EntryProtocol {
  import opened Prelude
  import opened OrderedMaps
  import opened L = TradeLedger
  import opened EntryRisk
  import G = EvaluationGuard

  datatype Config = Config(hard: HardRisk, policy: ReentryPolicy, timeoutMs: int, dailyStartingBalance: Sol)

  /** What the decision reads besides the ledger's rows and the reservations. */
  datatype Situation = Situation(emergencyStop: bool, consecutiveLosses: nat, lastExitMs: Option<int>, now: int)

  function RowOf(c: Config, daily: map<int, DailyRow>, day: int): DailyRow {
    WithDay(daily, day, c.dailyStartingBalance)[day]
  }

  function AsPosition(t: Trade): OpenPosition {
    OpenPosition(t.mint, t.entrySize)
  }

  function Positions(open: seq<Trade>): seq<OpenPosition> {
    seq(|open|, i requires 0 <= i < |open| => AsPosition(open[i]))
  }

  /** Recorded positions plus entries already allowed but not yet recorded. */
  function ContextOf(c: Config, l: Ledger, r: G.Reservations, mint: Mint, s: Situation): Context {
    var row := RowOf(c, l.daily, DayOf(s.now));
    Context(Positions(OpenTrades(l.trades)) + G.AsOpenPositions(r), row.realizedPnl, row.startingBalance, row.breaker,
            s.emergencyStop, TokenHistory(TotalTrades(l.trades, mint), s.consecutiveLosses, s.lastExitMs), s.now)
  }

  /** The day's row after a decision: created when missing, and latched when the decision found the limit reached. */
  function Latched(c: Config, daily: map<int, DailyRow>, day: int): map<int, DailyRow> {
    var row := RowOf(c, daily, day);
    if BreakerLatches(row.breaker, row.realizedPnl, row.startingBalance, c.hard.dailyLossLimitPct)
    then WithBreaker(WithDay(daily, day, c.dailyStartingBalance), day)
    else WithDay(daily, day, c.dailyStartingBalance)
  }

  predicate HoldsOpen(trades: seq<Trade>, mint: Mint) {
    exists i :: 0 <= i < |trades| && trades[i].exit.None? && trades[i].mint == mint
  }

  /** The commit section succeeds: risk allows, the lease is live, nothing of this mint is open or in flight. */
  predicate Commits(c: Config, l: Ledger, r: G.Reservations, g: G.Guard, lease: G.Lease, s: Situation) {
    && Allowed(ContextOf(c, l, r, lease.mint, s), c.hard, c.policy)
    && G.IsCurrent(g, lease)
    && !HoldsOpen(l.trades, lease.mint)
    && !Has(r, lease.mint)
  }

  function Entered(c: Config, trades: seq<Trade>, id: TradeId, mint: Mint, entry: EntryData): Trade {
    Trade(id, mint, c.hard.positionSize, TotalTrades(trades, mint), entry, None, None)
  }

  datatype Refusal = ByRisk(reasons: seq<Reason>) | Superseded | PositionAlreadyOpen | EntryInProgress

  /** The loop's shared objects and its two synchronous sections around the buy. */
  class EntryLoop {
    const c: Config
    const guard: G.EvaluationGuard
    const reservations: G.EntryReservations
    const ledger: L.TradeLedger

    constructor (config: Config)
      requires config.timeoutMs > 0
      ensures c == config && guard.View() == G.FRESH && reservations.pending == [] && ledger.View() == Ledger([], map[])
    {
      c := config;
      guard := new G.EvaluationGuard(config.timeoutMs);
      reservations := new G.EntryReservations();
      ledger := new L.TradeLedger();
    }

    method Decide(lease: G.Lease, s: Situation) returns (refusal: Option<Refusal>)
      modifies reservations, ledger
      ensures refusal.None? <==>
        old(Commits(c, ledger.View(), reservations.pending, guard.View(), lease, s))
      ensures ledger.View() == Ledger(old(ledger.trades), Latched(c, old(ledger.daily), DayOf(s.now)))
      ensures reservations.pending
        == old(reservations.pending) + if refusal.None? then [(lease.mint, c.hard.positionSize)] else []
    {
      var row := ledger.GetOrInitDailyRiskState(DayOf(s.now), c.dailyStartingBalance);
      var open := OpenTrades(ledger.trades);
      var ctx := ContextOf(c, Ledger(ledger.trades, ledger.daily), reservations.pending, lease.mint, s);
      var d := EvaluateEntryRisk(ctx, c.hard, c.policy);
      if d.breakerTriggered {
        ledger.LatchCircuitBreaker(DayOf(s.now));
      }
      if !d.allowed {
        return Some(ByRisk(d.reasons));
      }
      if !(lease.mint in guard.held && guard.held[lease.mint].id == lease.id) {
        return Some(Superseded);
      }
      var i := 0;
      while i < |open| && open[i].mint != lease.mint
        invariant i <= |open| && forall j | 0 <= j < i :: open[j].mint != lease.mint
      {
        i := i + 1;
      }
      if i < |open| {
        OpenMintHeld(ledger.trades, open[i]);
        return Some(PositionAlreadyOpen);
      }
      NoOpenMintNotHeld(ledger.trades, lease.mint);
      var made := reservations.Reserve(lease.mint, d.sizing);
      refusal := if made then None else Some(EntryInProgress);
    }

    /** After the buy: a filled one is recorded, and in every case the reservation is released. */
    method FinishBuy(mint: Mint, recorded: Option<(TradeId, EntryData)>)
      modifies ledger, reservations
      ensures reservations.pending == Delete(old(reservations.pending), mint)
      ensures ledger.daily == old(ledger.daily)
      ensures ledger.trades == match recorded
        case Some((id, entry)) => old(ledger.trades) + [Entered(c, old(ledger.trades), id, mint, entry)]
        case None => old(ledger.trades)
    {
      if recorded.Some? {
        var (id, entry) := recorded.value;
        ledger.RecordEntry(Entered(c, ledger.trades, id, mint, entry));
      }
      reservations.ReleaseMint(mint);
    }
  }

  lemma OpenMintHeld(trades: seq<Trade>, t: Trade)
    requires t in OpenTrades(trades)
    ensures HoldsOpen(trades, t.mint)
  {
    OpenTradesAre(trades, t);
    var i :| 0 <= i < |trades| && trades[i] == t;
  }

  lemma NoOpenMintNotHeld(trades: seq<Trade>, mint: Mint)
    requires forall i | 0 <= i < |OpenTrades(trades)| :: OpenTrades(trades)[i].mint != mint
    ensures !HoldsOpen(trades, mint)
  {
    forall i | 0 <= i < |trades| && trades[i].exit.None?
      ensures trades[i].mint != mint
    {
      OpenTradesAre(trades, trades[i]);
      var j :| 0 <= j < |OpenTrades(trades)| && OpenTrades(trades)[j] == trades[i];
    }
  }

  // ---- runs --------------------------------------------------------------------------------------------------------

  datatype Phase = Thinking | Buying | Done

  datatype Evaluation = Evaluation(mint: Mint, phase: Phase)

  /** The ledger's tables, the guard, the reservations and every evaluation that has not finished, by lease id. */
  datatype World = World(
    trades: seq<Trade>, daily: map<int, DailyRow>, guard: G.Guard, reservations: G.Reservations,
    evaluations: map<nat, Evaluation>)

  datatype Step =
    | Ticks(mint: Mint, now: int)
    | Decides(id: nat, situation: Situation)
    | BuyEnds(id: nat, recorded: Option<(TradeId, EntryData)>)
    | Finishes(id: nat)
    | Closes(k: nat, exit: Exit)
    | Restarts

  const START := World([], map[], G.FRESH, [], map[])

  ghost predicate Enabled(w: World, step: Step) {
    match step
    case Ticks(_, _) => true
    case Decides(id, _) => id in w.evaluations && w.evaluations[id].phase.Thinking?
    case BuyEnds(id, recorded) =>
      && id in w.evaluations && w.evaluations[id].phase.Buying?
      && (recorded.Some? ==> forall i | 0 <= i < |w.trades| :: w.trades[i].id != recorded.value.0)
    case Finishes(id) => id in w.evaluations && !w.evaluations[id].phase.Buying?
    case Closes(k, _) => k < |w.trades| && w.trades[k].exit.None?
    case Restarts => true
  }

  ghost function LedgerOf(w: World): Ledger {
    Ledger(w.trades, w.daily)
  }

  ghost function LeaseOf(w: World, id: nat): G.Lease
    requires id in w.evaluations
  {
    G.Lease(w.evaluations[id].mint, id)
  }

  ghost function Next(c: Config, w: World, step: Step): World
    requires Enabled(w, step)
  {
    match step
    case Ticks(mint, now) =>
      var a := G.TryAcquire(c.timeoutMs, w.guard, mint, now);
      if a.lease.None? then w.(guard := a.guard)
      else w.(guard := a.guard, evaluations := w.evaluations[a.lease.value.id := Evaluation(mint, Thinking)])
    case Decides(id, s) =>
      var lease := LeaseOf(w, id);
      var noted := w.(daily := Latched(c, w.daily, DayOf(s.now)));
      if Commits(c, LedgerOf(w), w.reservations, w.guard, lease, s) then
        noted.(reservations := w.reservations + [(lease.mint, c.hard.positionSize)],
           evaluations := w.evaluations[id := Evaluation(lease.mint, Buying)])
      else noted.(evaluations := w.evaluations[id := Evaluation(lease.mint, Done)])
    case BuyEnds(id, recorded) =>
      var mint := w.evaluations[id].mint;
      World(match recorded
            case Some((tradeId, entry)) => w.trades + [Entered(c, w.trades, tradeId, mint, entry)]
            case None => w.trades,
            w.daily, w.guard, Delete(w.reservations, mint), w.evaluations[id := Evaluation(mint, Done)])
    case Finishes(id) => w.(guard := G.Release(w.guard, LeaseOf(w, id)), evaluations := w.evaluations - {id})
    case Closes(k, exit) =>
      var l := Booked(LedgerOf(w), w.trades[k].id, exit, c.dailyStartingBalance, c.hard.dailyLossLimitPct);
      w.(trades := l.trades, daily := l.daily)
    case Restarts => World(w.trades, w.daily, G.FRESH, [], map[])
  }

  ghost predicate Reachable(c: Config, w: World, steps: seq<Step>, end: World)
    decreases |steps|
  {
    if steps == [] then end == w
    else Enabled(w, steps[0]) && Reachable(c, Next(c, w, steps[0]), steps[1..], end)
  }

  ghost function Reserved(r: G.Reservations): Sol {
    if r == [] then 0 else Reserved(r[..|r| - 1]) + r[|r| - 1].1
  }

  /** The hard limits, over recorded open trades and reservations together. */
  ghost predicate WithinLimits(c: Config, w: World) {
    && OpenCount(w.trades) + |w.reservations| <= c.hard.maxConcurrentPositions
    && OpenSize(w.trades) + Reserved(w.reservations) <= c.hard.maxTotalExposure
  }

  /** Each mint has at most one open trade or reservation. */
  ghost predicate OnePerMint(w: World) {
    && (forall i, j | 0 <= i < j < |w.trades| && w.trades[i].exit.None? && w.trades[j].exit.None? ::
          w.trades[i].mint != w.trades[j].mint)
    && Unique(w.reservations)
    && forall m | Has(w.reservations, m) :: !HoldsOpen(w.trades, m)
  }

  /** Each trade's re-entry index is the number of earlier trades of its mint, and at most the limit. */
  ghost predicate IndicesCount(c: Config, trades: seq<Trade>) {
    forall i | 0 <= i < |trades| ::
      trades[i].reentryIndex == TotalTrades(trades[..i], trades[i].mint) <= c.hard.maxReentriesPerToken
  }

  ghost predicate ReservedMayEnter(c: Config, w: World) {
    forall m | Has(w.reservations, m) :: TotalTrades(w.trades, m) <= c.hard.maxReentriesPerToken
  }

  ghost predicate Rows(c: Config, trades: seq<Trade>) {
    UniqueIds(trades) && forall i | 0 <= i < |trades| :: trades[i].entrySize == c.hard.positionSize
  }

  /** Every buy in flight holds its own mint's reservation, of the position size. */
  ghost predicate BuysReserved(c: Config, w: World) {
    && (forall i | 0 <= i < |w.reservations| :: w.reservations[i].1 == c.hard.positionSize)
    && (forall id | id in w.evaluations && w.evaluations[id].phase.Buying? :: Has(w.reservations, w.evaluations[id].mint))
    && forall a, b | a in w.evaluations && b in w.evaluations && a != b
         && w.evaluations[a].phase.Buying? && w.evaluations[b].phase.Buying? ::
         w.evaluations[a].mint != w.evaluations[b].mint
  }

  ghost predicate LeasesIssued(w: World) {
    G.Issued(w.guard) && forall id | id in w.evaluations :: id <= w.guard.lastId
  }

  ghost predicate Inv(c: Config, w: World) {
    && WithinLimits(c, w) && OnePerMint(w) && IndicesCount(c, w.trades) && ReservedMayEnter(c, w)
    && Rows(c, w.trades) && BuysReserved(c, w) && LeasesIssued(w)
  }

  // Sums.

  lemma {:induction false} ExposureAddsUp(open: seq<Trade>, r: G.Reservations)
    ensures Exposure(Positions(open) + G.AsOpenPositions(r)) == SizeSum(open) + Reserved(r)
    decreases |open| + |r|
  {
    var all := Positions(open) + G.AsOpenPositions(r);
    if r != [] {
      var front := r[..|r| - 1];
      ExposureAddsUp(open, front);
      assert all[..|all| - 1] == Positions(open) + G.AsOpenPositions(front);
    } else if open != [] {
      var front := open[..|open| - 1];
      ExposureAddsUp(front, r);
      assert all[..|all| - 1] == Positions(front) + G.AsOpenPositions(r);
    }
  }

  lemma {:induction false} ReservedIsNeverNegative(r: G.Reservations, size: Sol)
    requires size >= 0 && forall i | 0 <= i < |r| :: r[i].1 == size
    ensures Reserved(r) >= 0
    decreases |r|
  {
    if r != [] {
      ReservedIsNeverNegative(r[..|r| - 1], size);
    }
  }

  lemma {:induction false} ReservedWithout(r: G.Reservations, at: nat)
    requires at < |r|
    ensures Reserved(r[..at] + r[at + 1..]) == Reserved(r) - r[at].1
    decreases |r|
  {
    var n := |r| - 1;
    if at == n {
      assert r[..at] + r[at + 1..] == r[..n];
    } else {
      var rest := r[..at] + r[at + 1..];
      ReservedWithout(r[..n], at);
      assert rest[..n - 1] == r[..n][..at] + r[..n][at + 1..];
    }
  }

  /** Releasing a mint's reservation gives back one place and one position size. */
  lemma ReleasingGivesBack(r: G.Reservations, mint: Mint, size: Sol)
    requires Has(r, mint) && Unique(r) && forall i | 0 <= i < |r| :: r[i].1 == size
    ensures var after := Delete(r, mint);
      && |after| == |r| - 1 && Reserved(after) == Reserved(r) - size
      && (forall i | 0 <= i < |after| :: after[i].1 == size)
  {
    var after := Delete(r, mint);
    var at := IndexOf(r, mint);
    ReservedWithout(r, at);
    forall i | 0 <= i < |after|
      ensures after[i].1 == size
    {
      if i < at {
        assert after[i] == r[i];
      } else {
        assert after[i] == r[i + 1];
      }
    }
  }

  /** Every other mint's reservation stays. */
  lemma OthersStayReserved(r: G.Reservations, mint: Mint)
    requires Unique(r)
    ensures Unique(Delete(r, mint))
    ensures forall m :: Has(Delete(r, mint), m) <==> m != mint && Has(r, m)
  {
    forall m
      ensures Has(Delete(r, mint), m) <==> m != mint && Has(r, m)
    {
      GetAfterDelete(r, mint, m);
    }
    GetAfterDelete(r, mint, mint);
  }

  /** A new reservation takes one place and one position size. */
  lemma ReservingTakes(r: G.Reservations, mint: Mint, size: Sol)
    requires !Has(r, mint) && Unique(r)
    ensures var after := r + [(mint, size)];
      && Reserved(after) == Reserved(r) + size && Unique(after)
      && forall m :: Has(after, m) <==> m == mint || Has(r, m)
  {
    var after := r + [(mint, size)];
    assert after[..|r|] == r && after == Set(r, mint, size);
    forall m
      ensures Has(after, m) <==> m == mint || Has(r, m)
    {
      GetAfterSet(r, mint, size, m);
    }
    GetAfterSet(r, mint, size, mint);
  }

  // The steps.

  lemma CommitKeepsLimits(c: Config, w: World, lease: G.Lease, s: Situation)
    requires WithinLimits(c, w) && OnePerMint(w) && Commits(c, LedgerOf(w), w.reservations, w.guard, lease, s)
    ensures WithinLimits(c, w.(reservations := w.reservations + [(lease.mint, c.hard.positionSize)]))
    ensures TotalTrades(w.trades, lease.mint) <= c.hard.maxReentriesPerToken
  {
    var ctx := ContextOf(c, LedgerOf(w), w.reservations, lease.mint, s);
    assert RoomFor(ctx.open, c.hard) && MayReenter(ctx.history, c.hard, c.policy, s.now);
    ExposureAddsUp(OpenTrades(w.trades), w.reservations);
    OpenTradesAddUp(w.trades);
    ReservingTakes(w.reservations, lease.mint, c.hard.positionSize);
  }

  /** The world after a decision that reserves. */
  ghost function AfterCommit(c: Config, w: World, id: nat, mint: Mint, daily: map<int, DailyRow>): World {
    World(w.trades, daily, w.guard, w.reservations + [(mint, c.hard.positionSize)],
          w.evaluations[id := Evaluation(mint, Buying)])
  }

  lemma CommitKeeps(c: Config, w: World, id: nat, s: Situation, daily: map<int, DailyRow>)
    requires Inv(c, w) && id in w.evaluations
    requires Commits(c, LedgerOf(w), w.reservations, w.guard, LeaseOf(w, id), s)
    ensures Inv(c, AfterCommit(c, w, id, w.evaluations[id].mint, daily))
  {
    var mint := w.evaluations[id].mint;
    var after := AfterCommit(c, w, id, mint, daily);
    CommitKeepsLimits(c, w, LeaseOf(w, id), s);
    ReservingTakes(w.reservations, mint, c.hard.positionSize);
    assert WithinLimits(c, after) && ReservedMayEnter(c, after);
    assert OnePerMint(after);
  }

  lemma DecisionKeeps(c: Config, w: World, id: nat, s: Situation)
    requires Inv(c, w) && Enabled(w, Decides(id, s))
    ensures Inv(c, Next(c, w, Decides(id, s)))
  {
    if Commits(c, LedgerOf(w), w.reservations, w.guard, LeaseOf(w, id), s) {
      CommitKeeps(c, w, id, s, Latched(c, w.daily, DayOf(s.now)));
    }
  }

  lemma RecordingKeepsRows(c: Config, trades: seq<Trade>, t: Trade)
    requires IndicesCount(c, trades) && Rows(c, trades)
    requires t.reentryIndex == TotalTrades(trades, t.mint) <= c.hard.maxReentriesPerToken
    requires t.entrySize == c.hard.positionSize && forall i | 0 <= i < |trades| :: trades[i].id != t.id
    ensures IndicesCount(c, trades + [t]) && Rows(c, trades + [t])
  {
    var after := trades + [t];
    forall i | 0 <= i < |after|
      ensures after[..i] == trades[..i]
    {}
    assert trades[..|trades|] == trades;
  }

  lemma RecordingKeepsOnePerMint(w: World, t: Trade)
    requires OnePerMint(w) && Has(w.reservations, t.mint)
    requires forall m | Has(Delete(w.reservations, t.mint), m) :: m != t.mint && Has(w.reservations, m)
    requires Unique(Delete(w.reservations, t.mint))
    ensures OnePerMint(w.(trades := w.trades + [t], reservations := Delete(w.reservations, t.mint)))
  {
    var after := w.trades + [t];
    forall m | Has(Delete(w.reservations, t.mint), m)
      ensures !HoldsOpen(after, m)
    {
      assert !HoldsOpen(w.trades, m);
    }
    assert !HoldsOpen(w.trades, t.mint);
  }

  lemma ReleasingKeepsBuys(c: Config, w: World, id: nat)
    requires BuysReserved(c, w) && Unique(w.reservations) && id in w.evaluations && w.evaluations[id].phase.Buying?
    ensures var mint := w.evaluations[id].mint;
      BuysReserved(c, w.(reservations := Delete(w.reservations, mint),
                         evaluations := w.evaluations[id := Evaluation(mint, Done)]))
  {
    var mint := w.evaluations[id].mint;
    OthersStayReserved(w.reservations, mint);
    ReleasingGivesBack(w.reservations, mint, c.hard.positionSize);
  }

  lemma FailedBuyKeeps(c: Config, w: World, id: nat)
    requires Inv(c, w) && Enabled(w, BuyEnds(id, None)) && c.hard.positionSize >= 0
    ensures Inv(c, Next(c, w, BuyEnds(id, None)))
  {
    var mint := w.evaluations[id].mint;
    ReleasingKeepsBuys(c, w, id);
    ReleasingGivesBack(w.reservations, mint, c.hard.positionSize);
    OthersStayReserved(w.reservations, mint);
  }

  lemma RecordingKeepsLimits(c: Config, w: World, t: Trade)
    requires WithinLimits(c, w) && OnePerMint(w) && Has(w.reservations, t.mint) && t.exit.None?
    requires t.entrySize == c.hard.positionSize
    requires forall i | 0 <= i < |w.reservations| :: w.reservations[i].1 == c.hard.positionSize
    ensures WithinLimits(c, w.(trades := w.trades + [t], reservations := Delete(w.reservations, t.mint)))
  {
    ReleasingGivesBack(w.reservations, t.mint, c.hard.positionSize);
    AppendTrade(w.trades, t);
  }

  lemma RecordingKeepsReservedMayEnter(c: Config, w: World, t: Trade)
    requires ReservedMayEnter(c, w) && Unique(w.reservations)
    ensures ReservedMayEnter(c, w.(trades := w.trades + [t], reservations := Delete(w.reservations, t.mint)))
  {
    forall m | Has(Delete(w.reservations, t.mint), m)
      ensures TotalTrades(w.trades + [t], m) <= c.hard.maxReentriesPerToken
    {
      GetAfterDelete(w.reservations, t.mint, m);
      AppendCounts(w.trades, t, m);
    }
  }

  /** The world after a filled buy is recorded. */
  ghost function AfterRecorded(c: Config, w: World, id: nat, t: Trade): World {
    World(w.trades + [t], w.daily, w.guard, Delete(w.reservations, t.mint),
          w.evaluations[id := Evaluation(t.mint, Done)])
  }

  lemma RecordedBuyKeeps(c: Config, w: World, id: nat, t: Trade)
    requires Inv(c, w) && id in w.evaluations && w.evaluations[id] == Evaluation(t.mint, Buying)
    requires t == Entered(c, w.trades, t.id, t.mint, t.entry)
    requires forall i | 0 <= i < |w.trades| :: w.trades[i].id != t.id
    ensures Inv(c, AfterRecorded(c, w, id, t))
  {
    RecordingKeepsHolds(c, w, id, t);
    RecordingKeepsLimits(c, w, t);
    RecordingKeepsReservedMayEnter(c, w, t);
    RecordingKeepsRows(c, w.trades, t);
  }

  lemma RecordingKeepsHolds(c: Config, w: World, id: nat, t: Trade)
    requires OnePerMint(w) && BuysReserved(c, w) && LeasesIssued(w)
    requires id in w.evaluations && w.evaluations[id] == Evaluation(t.mint, Buying) && t.exit.None?
    ensures var after := AfterRecorded(c, w, id, t); BuysReserved(c, after) && OnePerMint(after) && LeasesIssued(after)
  {
    ReleasingKeepsBuys(c, w, id);
    OthersStayReserved(w.reservations, t.mint);
    RecordingKeepsOnePerMint(w, t);
  }

  lemma ClosingKeepsRows(c: Config, trades: seq<Trade>, k: nat, exit: Exit)
    requires IndicesCount(c, trades) && Rows(c, trades) && k < |trades|
    ensures IndicesCount(c, WithExit(trades, trades[k].id, exit)) && Rows(c, WithExit(trades, trades[k].id, exit))
  {
    var after := WithExit(trades, trades[k].id, exit);
    forall i | 0 <= i < |after|
      ensures after[i].reentryIndex == TotalTrades(after[..i], after[i].mint) <= c.hard.maxReentriesPerToken
    {
      RewritingKeepsCounts(trades[..i], after[..i], after[i].mint);
    }
  }

  lemma ClosingKeeps(c: Config, w: World, k: nat, exit: Exit)
    requires Inv(c, w) && Enabled(w, Closes(k, exit)) && c.hard.positionSize >= 0
    ensures Inv(c, Next(c, w, Closes(k, exit)))
  {
    var after := WithExit(w.trades, w.trades[k].id, exit);
    ClosingTakesOneOut(w.trades, k, exit);
    ClosingKeepsRows(c, w.trades, k, exit);
    forall m | Has(w.reservations, m)
      ensures !HoldsOpen(after, m) && TotalTrades(after, m) <= c.hard.maxReentriesPerToken
    {
      RewritingKeepsCounts(w.trades, after, m);
      assert !HoldsOpen(w.trades, m);
    }
  }

  lemma RestartKeeps(c: Config, w: World)
    requires Inv(c, w) && c.hard.positionSize >= 0
    ensures Inv(c, Next(c, w, Restarts))
  {
    ReservedIsNeverNegative(w.reservations, c.hard.positionSize);
  }

  lemma StepKeeps(c: Config, w: World, step: Step)
    requires Inv(c, w) && Enabled(w, step) && c.hard.positionSize >= 0
    ensures Inv(c, Next(c, w, step))
  {
    match step
    case Ticks(mint, now) => G.AcquiringMakesCurrent(c.timeoutMs, w.guard, mint, now);
    case Decides(id, s) => DecisionKeeps(c, w, id, s);
    case BuyEnds(id, None) => FailedBuyKeeps(c, w, id);
    case BuyEnds(id, Some((tradeId, entry))) =>
      RecordedBuyKeeps(c, w, id, Entered(c, w.trades, tradeId, w.evaluations[id].mint, entry));
    case Finishes(_) =>
    case Closes(k, exit) => ClosingKeeps(c, w, k, exit);
    case Restarts => RestartKeeps(c, w);
  }

  lemma {:induction false} RunKeeps(c: Config, w: World, steps: seq<Step>, end: World)
    requires Inv(c, w) && Reachable(c, w, steps, end) && c.hard.positionSize >= 0
    ensures Inv(c, end)
    decreases |steps|
  {
    if steps != [] {
      StepKeeps(c, w, steps[0]);
      RunKeeps(c, Next(c, w, steps[0]), steps[1..], end);
    }
  }

  /**
   * Under every interleaving of evaluations, takeovers, buys that fill, fail or never return, closes and restarts:
   * recorded open trades and reservations stay within the hard limits and share no mint, and each mint's trades carry
   * the re-entry indices 0, 1, 2, ... up to the limit.
   */
  lemma EntriesKeepTheHardLimits(c: Config, steps: seq<Step>, end: World)
    requires c.hard.positionSize >= 0 && c.hard.maxConcurrentPositions >= 0 && c.hard.maxTotalExposure >= 0
    requires Reachable(c, START, steps, end)
    ensures OpenCount(end.trades) + |end.reservations| <= c.hard.maxConcurrentPositions
    ensures OpenSize(end.trades) + Reserved(end.reservations) <= c.hard.maxTotalExposure
    ensures OnePerMint(end) && IndicesCount(c, end.trades)
  {
    RunKeeps(c, START, steps, end);
  }

  /** A mint never has more trades than one entry and its re-entries. */
  lemma {:induction false} TradesPerMint(c: Config, trades: seq<Trade>, mint: Mint)
    requires IndicesCount(c, trades) && c.hard.maxReentriesPerToken >= 0
    ensures TotalTrades(trades, mint) <= c.hard.maxReentriesPerToken + 1
    decreases |trades|
  {
    if trades != [] {
      var n := |trades| - 1;
      if trades[n].mint != mint {
        assert forall i | 0 <= i < n :: trades[..n][..i] == trades[..i];
        TradesPerMint(c, trades[..n], mint);
      }
    }
  }

  /** No restart: leases of one process. */
  ghost predicate OneProcess(steps: seq<Step>) {
    forall i | 0 <= i < |steps| :: !steps[i].Restarts?
  }

  /**
   * An evaluation whose lease was taken over can reserve nothing any more, however late it resumes: its lease stays
   * stale, so the commit section refuses it.
   */
  lemma {:induction false} SupersededNeverEnters(
      c: Config, w: World, steps: seq<Step>, end: World, lease: G.Lease, s: Situation)
    requires LeasesIssued(w) && lease.id <= w.guard.lastId && !G.IsCurrent(w.guard, lease)
    requires Reachable(c, w, steps, end) && OneProcess(steps)
    ensures !Commits(c, LedgerOf(end), end.reservations, end.guard, lease, s)
    decreases |steps|
  {
    if steps != [] {
      var step := steps[0];
      assert !step.Restarts?;
      match step {
        case Ticks(mint, now) =>
          G.StaleStaysStale(c.timeoutMs, w.guard, lease, mint, now, lease);
          G.AcquiringMakesCurrent(c.timeoutMs, w.guard, mint, now);
        case Finishes(id) =>
          G.StaleStaysStale(c.timeoutMs, w.guard, lease, 0, 0, LeaseOf(w, id));
        case _ =>
      }
      SupersededNeverEnters(c, Next(c, w, step), steps[1..], end, lease, s);
    }
  }

  ghost predicate DayLatched(w: World, day: int) {
    day in w.daily && w.daily[day].breaker
  }

  /**
   * The daily breaker latches: once a day's row carries it, no step clears it, a restart or a later profit included,
   * and no decision of that day can commit an entry.
   */
  lemma {:induction false} LatchedDayAllowsNoEntry(
      c: Config, w: World, steps: seq<Step>, end: World, day: int, lease: G.Lease, s: Situation)
    requires Reachable(c, w, steps, end) && DayLatched(w, day) && DayOf(s.now) == day
    ensures DayLatched(end, day) && !Commits(c, LedgerOf(end), end.reservations, end.guard, lease, s)
    decreases |steps|
  {
    if steps != [] {
      LatchStays(c, w, steps[0], day);
      LatchedDayAllowsNoEntry(c, Next(c, w, steps[0]), steps[1..], end, day, lease, s);
    }
  }

  lemma LatchStays(c: Config, w: World, step: Step, day: int)
    requires Enabled(w, step) && DayLatched(w, day)
    ensures DayLatched(Next(c, w, step), day)
  {}

  /** A decision on a day whose losses reached the limit latches that day, whether or not anything else refuses it. */
  lemma DecisionLatches(c: Config, w: World, id: nat, s: Situation)
    requires Enabled(w, Decides(id, s))
    ensures var row := RowOf(c, w.daily, DayOf(s.now));
      var reached := LossLimitBreached(row.realizedPnl, row.startingBalance, c.hard.dailyLossLimitPct);
      DayLatched(Next(c, w, Decides(id, s)), DayOf(s.now)) <==> row.breaker || reached
  {}
}
