/**
 * Exits over whole runs: polls of open positions interleave with entries, settling sells, failing transactions,
 * recovery and restarts. Money is booked once per trade and no trade is sold after a sale of it may have happened,
 * as long as polls of one trade do not overlap.
 */
module ExitProtocol {
  import opened Prelude
  import opened L = TradeLedger
  import opened P = PositionMonitor
  import R = PositionRecovery

  /** A poll works on the position object it was started with: its trade and its size. */
  datatype Poll = Observing(id: TradeId, size: Sol) | Selling(id: TradeId, size: Sol)

  /**
   * The books, the polls in progress, the trades for which an executed or unconfirmed sell was reported in this
   * process, and how many sells were issued for such a trade.
   */
  datatype World = World(books: Books, polls: map<nat, Poll>, reported: set<TradeId>, duplicates: nat)

  datatype Step =
    | Enters(trade: Trade)
    | PollStarts(p: nat, id: TradeId)
    | PollHolds(p: nat)
    | PollSells(p: nat)
    | SellThrows(p: nat)
    | SellSettles(p: nat, fill: Fill, committed: bool, markPersists: bool)
    | Recovers
    | Restarts

  const START := World(Books(Ledger([], map[]), P.FRESH), map[], {}, 0)

  ghost predicate Polled(w: World, id: TradeId) {
    exists p :: p in w.polls && w.polls[p].id == id
  }

  ghost predicate Enabled(w: World, step: Step) {
    match step
    case Enters(t) =>
      && t.exit.None? && t.reconciliation.None?
      && forall i | 0 <= i < |w.books.ledger.trades| :: w.books.ledger.trades[i].id != t.id
    case PollStarts(p, id) => p !in w.polls && id in w.books.monitor.positions && MayPoll(w.books.monitor, id)
    case PollHolds(p) => p in w.polls && w.polls[p].Observing?
    case PollSells(p) => p in w.polls && w.polls[p].Observing?
    case SellThrows(p) => p in w.polls && w.polls[p].Selling?
    case SellSettles(p, _, _, _) => p in w.polls && w.polls[p].Selling?
    case Recovers => true
    case Restarts => true
  }

  ghost function Next(c: Config, w: World, step: Step): World
    requires Enabled(w, step)
  {
    var b := w.books;
    var m := b.monitor;
    match step
    case Enters(t) =>
      w.(books := Books(b.ledger.(trades := b.ledger.trades + [t]), m.(positions := m.positions[t.id := t.entrySize])))
    case PollStarts(p, id) => w.(polls := w.polls[p := Observing(id, m.positions[id])])
    case PollHolds(p) => w.(polls := w.polls - {p})
    case PollSells(p) =>
      var Observing(id, size) := w.polls[p];
      World(b.(monitor := m.(closing := m.closing + {id})), w.polls[p := Selling(id, size)], w.reported,
            w.duplicates + if id in w.reported then 1 else 0)
    case SellThrows(p) =>
      w.(books := b.(monitor := m.(closing := m.closing - {w.polls[p].id})), polls := w.polls - {p})
    case SellSettles(p, fill, committed, markPersists) =>
      var Selling(id, size) := w.polls[p];
      World(Settled(c, b, id, size, fill, committed, markPersists), w.polls - {p},
            if fill.outcome.NotExecuted? then w.reported else w.reported + {id}, w.duplicates)
    case Recovers => w.(books := R.Recover(b).books)
    case Restarts => World(Books(b.ledger, P.FRESH), map[], {}, 0)
  }

  ghost predicate Reachable(c: Config, w: World, steps: seq<Step>, end: World)
    decreases |steps|
  {
    if steps == [] then end == w
    else Enabled(w, steps[0]) && Reachable(c, Next(c, w, steps[0]), steps[1..], end)
  }

  /** No poll of a trade starts while another poll of it is in progress. */
  ghost predicate Apart(c: Config, w: World, steps: seq<Step>, end: World)
    requires Reachable(c, w, steps, end)
    decreases |steps|
  {
    steps == []
    || ((steps[0].PollStarts? ==> !Polled(w, steps[0].id)) && Apart(c, Next(c, w, steps[0]), steps[1..], end))
  }

  // ---- money -------------------------------------------------------------------------------------------------------

  /** Realized pnl of the trades whose exit lies on a day. */
  function PnlOn(trades: seq<Trade>, day: int): Sol {
    if trades == [] then 0
    else
      var t := trades[|trades| - 1];
      PnlOn(trades[..|trades| - 1], day)
      + if t.exit.Some? && DayOf(t.exit.value.timeMs) == day then t.exit.value.pnl else 0
  }

  function RowPnl(daily: map<int, DailyRow>, day: int): Sol {
    if day in daily then daily[day].realizedPnl else 0
  }

  ghost predicate DaysAgree(l: Ledger) {
    forall day :: RowPnl(l.daily, day) == PnlOn(l.trades, day)
  }

  function Part(exit: Option<Exit>, day: int): Sol {
    if exit.Some? && DayOf(exit.value.timeMs) == day then exit.value.pnl else 0
  }

  /** Writing an exit moves the day's total by the new pnl, less what the row held before. */
  lemma {:induction false} ExitMovesTotals(trades: seq<Trade>, k: nat, exit: Exit, day: int)
    requires k < |trades| && UniqueIds(trades)
    ensures PnlOn(WithExit(trades, trades[k].id, exit), day)
      == PnlOn(trades, day) - Part(trades[k].exit, day) + Part(Some(exit), day)
    decreases |trades|
  {
    var n := |trades| - 1;
    var after := WithExit(trades, trades[k].id, exit);
    if k == n {
      assert after[..n] == trades[..n];
    } else {
      assert trades[..n][k] == trades[k];
      assert after[..n] == WithExit(trades[..n], trades[k].id, exit) && after[n] == trades[n];
      ExitMovesTotals(trades[..n], k, exit, day);
    }
  }

  /**
   * One booking keeps every day's row equal to the pnl of the trades closed that day exactly when the trade was still
   * open, or its earlier exit had realized nothing.
   */
  lemma BookingAgreesExactlyWhenOpen(l: Ledger, k: nat, exit: Exit, startingBalance: Sol, limitPct: int)
    requires DaysAgree(l) && UniqueIds(l.trades) && k < |l.trades|
    ensures DaysAgree(Booked(l, l.trades[k].id, exit, startingBalance, limitPct))
      <==> l.trades[k].exit.None? || l.trades[k].exit.value.pnl == 0
  {
    var after := Booked(l, l.trades[k].id, exit, startingBalance, limitPct);
    forall day
      ensures RowPnl(after.daily, day) - PnlOn(after.trades, day) == Part(l.trades[k].exit, day)
    {
      ExitMovesTotals(l.trades, k, exit, day);
      assert RowPnl(l.daily, day) == PnlOn(l.trades, day);
    }
    if l.trades[k].exit.Some? {
      var day := DayOf(l.trades[k].exit.value.timeMs);
      assert RowPnl(after.daily, day) - PnlOn(after.trades, day) == l.trades[k].exit.value.pnl;
    }
  }

  lemma {:induction false} SameExitsSameTotals(before: seq<Trade>, after: seq<Trade>, day: int)
    requires |before| == |after| && forall i | 0 <= i < |before| :: after[i].exit == before[i].exit
    ensures PnlOn(after, day) == PnlOn(before, day)
    decreases |before|
  {
    if before != [] {
      SameExitsSameTotals(before[..|before| - 1], after[..|after| - 1], day);
    }
  }

  // ---- what every step keeps -----------------------------------------------------------------------------------------

  ghost predicate OpenRow(trades: seq<Trade>, id: TradeId) {
    exists i :: 0 <= i < |trades| && trades[i].id == id && trades[i].exit.None?
  }

  ghost predicate HasRow(trades: seq<Trade>, id: TradeId) {
    exists i :: 0 <= i < |trades| && trades[i].id == id
  }

  /** Every position monitored is an open row. */
  ghost predicate PositionsOpen(b: Books) {
    && UniqueIds(b.ledger.trades)
    && forall id | id in b.monitor.positions :: OpenRow(b.ledger.trades, id)
  }

  /** One poll a trade, of a position monitored; a trade being sold is marked so, and none polled is flagged. */
  ghost predicate PollsApart(w: World) {
    && (forall p, q | p in w.polls && q in w.polls && p != q :: w.polls[p].id != w.polls[q].id)
    && (forall p | p in w.polls :: w.polls[p].id in w.books.monitor.positions && w.polls[p].id !in w.books.monitor.flagged)
  }

  /** After an executed or unconfirmed sell a trade is no longer monitored or is flagged, and its row is known. */
  ghost predicate ReportedAreDone(w: World) {
    && w.duplicates == 0
    && forall id | id in w.reported ::
         && (id in w.books.monitor.flagged || !OpenRow(w.books.ledger.trades, id))
         && HasRow(w.books.ledger.trades, id)
  }

  ghost predicate Inv(w: World) {
    PositionsOpen(w.books) && PollsApart(w) && ReportedAreDone(w) && DaysAgree(w.books.ledger)
  }

  lemma OpenRowsAfterEntry(trades: seq<Trade>, t: Trade, id: TradeId)
    requires t.exit.None?
    ensures OpenRow(trades + [t], id) <==> OpenRow(trades, id) || id == t.id
  {
    var after := trades + [t];
    if OpenRow(trades, id) {
      var i :| 0 <= i < |trades| && trades[i].id == id && trades[i].exit.None?;
      assert after[i] == trades[i];
    } else if id == t.id {
      assert after[|trades|] == t;
    }
  }

  lemma EntryKeeps(c: Config, w: World, t: Trade)
    requires Inv(w) && Enabled(w, Enters(t))
    ensures Inv(Next(c, w, Enters(t)))
  {
    var trades := w.books.ledger.trades;
    var after := Next(c, w, Enters(t));
    forall id
      ensures OpenRow(trades + [t], id) <==> OpenRow(trades, id) || id == t.id
    {
      OpenRowsAfterEntry(trades, t, id);
    }
    forall id | id in w.reported
      ensures HasRow(trades + [t], id)
    {
      var i :| 0 <= i < |trades| && trades[i].id == id;
      assert (trades + [t])[i].id == id;
    }
    forall day
      ensures PnlOn(trades + [t], day) == PnlOn(trades, day)
    {
      assert (trades + [t])[..|trades|] == trades;
    }
    assert DaysAgree(after.books.ledger);
  }

  lemma PollKeeps(c: Config, w: World, step: Step)
    requires Inv(w) && Enabled(w, step)
    requires step.PollStarts? || step.PollHolds? || step.PollSells? || step.SellThrows?
    requires step.PollStarts? ==> !Polled(w, step.id)
    ensures Inv(Next(c, w, step))
  {
    var after := Next(c, w, step);
    assert after.books.ledger == w.books.ledger && after.books.monitor.positions == w.books.monitor.positions;
    if step.PollSells? {
      assert w.polls[step.p].id !in w.reported;
    }
  }

  /** Ids and exits of the rows are what the money and the open rows depend on. */
  ghost predicate SameRows(before: seq<Trade>, after: seq<Trade>) {
    |before| == |after| && forall i | 0 <= i < |before| :: after[i].id == before[i].id && after[i].exit == before[i].exit
  }

  lemma SameRowsSameBooks(before: Ledger, after: Ledger)
    requires SameRows(before.trades, after.trades) && after.daily == before.daily
    ensures UniqueIds(before.trades) ==> UniqueIds(after.trades)
    ensures DaysAgree(before) ==> DaysAgree(after)
    ensures forall id :: OpenRow(after.trades, id) <==> OpenRow(before.trades, id)
    ensures forall id :: HasRow(before.trades, id) ==> HasRow(after.trades, id)
  {
    if DaysAgree(before) {
      forall day
        ensures RowPnl(after.daily, day) == PnlOn(after.trades, day)
      {
        SameExitsSameTotals(before.trades, after.trades, day);
        assert RowPnl(before.daily, day) == PnlOn(before.trades, day);
      }
    }
    forall id
      ensures OpenRow(after.trades, id) <==> OpenRow(before.trades, id)
    {
      if OpenRow(before.trades, id) {
        var i :| 0 <= i < |before.trades| && before.trades[i].id == id && before.trades[i].exit.None?;
        assert after.trades[i].id == id;
      }
      if OpenRow(after.trades, id) {
        var i :| 0 <= i < |after.trades| && after.trades[i].id == id && after.trades[i].exit.None?;
        assert before.trades[i].id == id;
      }
    }
    forall id | HasRow(before.trades, id)
      ensures HasRow(after.trades, id)
    {
      var i :| 0 <= i < |before.trades| && before.trades[i].id == id;
      assert after.trades[i].id == id;
    }
  }

  /** A sell that did not execute, or whose exit was not committed, changes no row but for a reason. */
  lemma UnbookedSettlementKeeps(c: Config, w: World, p: nat, fill: Fill, committed: bool, markPersists: bool)
    requires Inv(w) && Enabled(w, SellSettles(p, fill, committed, markPersists))
    requires !(fill.outcome.Executed? && committed)
    ensures Inv(Next(c, w, SellSettles(p, fill, committed, markPersists)))
  {
    var after := Next(c, w, SellSettles(p, fill, committed, markPersists));
    SameRowsSameBooks(w.books.ledger, after.books.ledger);
    var id := w.polls[p].id;
    assert after.books.monitor.positions == w.books.monitor.positions;
    assert w.books.monitor.flagged <= after.books.monitor.flagged <= w.books.monitor.flagged + {id};
    assert !fill.outcome.NotExecuted? ==> id in after.books.monitor.flagged;
    var i :| 0 <= i < |w.books.ledger.trades| && w.books.ledger.trades[i].id == id;
  }

  lemma OpenRowsAfterExit(trades: seq<Trade>, k: nat, exit: Exit, id: TradeId)
    requires k < |trades| && UniqueIds(trades)
    ensures OpenRow(WithExit(trades, trades[k].id, exit), id) <==> OpenRow(trades, id) && id != trades[k].id
  {
    var after := WithExit(trades, trades[k].id, exit);
    if OpenRow(trades, id) && id != trades[k].id {
      var i :| 0 <= i < |trades| && trades[i].id == id && trades[i].exit.None?;
      assert after[i] == trades[i];
    }
    if OpenRow(after, id) {
      var i :| 0 <= i < |after| && after[i].id == id && after[i].exit.None?;
      assert trades[i].id == id;
    }
  }

  /** What the settlement of an executed sell with a committed exit leaves. */
  lemma SettledIsBooked(c: Config, w: World, p: nat, fill: Fill, markPersists: bool)
    requires Enabled(w, SellSettles(p, fill, true, markPersists)) && fill.outcome.Executed?
    ensures var after := Next(c, w, SellSettles(p, fill, true, markPersists));
      var id, exit := w.polls[p].id, Exit(fill.timestampMs, fill.filledAmount - w.polls[p].size);
      && after.books.ledger == Booked(w.books.ledger, id, exit, c.dailyStartingBalance, c.dailyLossLimitPct)
      && after.books.monitor.positions == w.books.monitor.positions - {id}
      && after.books.monitor.flagged == w.books.monitor.flagged
      && after.polls == w.polls - {p} && after.reported == w.reported + {id} && after.duplicates == w.duplicates
  {}

  /** Writing an exit closes that row and no other, and keeps every row's id. */
  lemma ExitKeepsRows(trades: seq<Trade>, k: nat, exit: Exit)
    requires k < |trades| && UniqueIds(trades)
    ensures var after := WithExit(trades, trades[k].id, exit);
      && UniqueIds(after)
      && (forall other :: OpenRow(after, other) <==> OpenRow(trades, other) && other != trades[k].id)
      && (forall other :: HasRow(trades, other) ==> HasRow(after, other))
  {
    var after := WithExit(trades, trades[k].id, exit);
    forall other
      ensures OpenRow(after, other) <==> OpenRow(trades, other) && other != trades[k].id
    {
      OpenRowsAfterExit(trades, k, exit, other);
    }
    forall other | HasRow(trades, other)
      ensures HasRow(after, other)
    {
      var i :| 0 <= i < |trades| && trades[i].id == other;
      assert after[i].id == other;
    }
  }

  /** An executed sell whose exit is committed: the trade's row was open, so the money is booked once. */
  lemma BookedSettlementKeeps(c: Config, w: World, p: nat, fill: Fill, markPersists: bool)
    requires Inv(w) && Enabled(w, SellSettles(p, fill, true, markPersists)) && fill.outcome.Executed?
    ensures Inv(Next(c, w, SellSettles(p, fill, true, markPersists)))
  {
    var l, id := w.books.ledger, w.polls[p].id;
    var k :| 0 <= k < |l.trades| && l.trades[k].id == id && l.trades[k].exit.None?;
    var exit := Exit(fill.timestampMs, fill.filledAmount - w.polls[p].size);
    SettledIsBooked(c, w, p, fill, markPersists);
    BookingAgreesExactlyWhenOpen(l, k, exit, c.dailyStartingBalance, c.dailyLossLimitPct);
    ExitKeepsRows(l.trades, k, exit);
    BookedKeeps(w, Next(c, w, SellSettles(p, fill, true, markPersists)), p, k, exit);
  }

  lemma BookedKeeps(w: World, after: World, p: nat, k: nat, exit: Exit)
    requires Inv(w) && p in w.polls && k < |w.books.ledger.trades| && w.books.ledger.trades[k].id == w.polls[p].id
    requires after.books.ledger.trades == WithExit(w.books.ledger.trades, w.polls[p].id, exit)
    requires DaysAgree(after.books.ledger) && UniqueIds(after.books.ledger.trades)
    requires forall other ::
      OpenRow(after.books.ledger.trades, other) <==> OpenRow(w.books.ledger.trades, other) && other != w.polls[p].id
    requires forall other :: HasRow(w.books.ledger.trades, other) ==> HasRow(after.books.ledger.trades, other)
    requires after.books.monitor.positions == w.books.monitor.positions - {w.polls[p].id}
    requires after.books.monitor.flagged == w.books.monitor.flagged && after.polls == w.polls - {p}
    requires after.reported == w.reported + {w.polls[p].id} && after.duplicates == w.duplicates
    ensures Inv(after)
  {
    assert HasRow(w.books.ledger.trades, w.polls[p].id);
  }

  lemma RecoveryKeeps(c: Config, w: World)
    requires Inv(w)
    ensures Inv(Next(c, w, Recovers))
  {
    var b := w.books;
    var rows := OpenTrades(b.ledger.trades);
    var after := R.Recover(b).books;
    R.RecoveryOnlyFlags(b, rows);
    assert forall i | 0 <= i < |b.ledger.trades| :: R.SameButFlag(b.ledger.trades[i], after.ledger.trades[i]);
    SameRowsSameBooks(b.ledger, after.ledger);
    forall id | id in after.monitor.positions
      ensures OpenRow(after.ledger.trades, id)
    {
      R.RowsRecovered(b, rows, id);
      if !R.Known(b.monitor, id) {
        var i :| 0 <= i < |rows| && rows[i].id == id;
        OpenTradesAre(b.ledger.trades, rows[i]);
        var j :| 0 <= j < |b.ledger.trades| && b.ledger.trades[j] == rows[i];
      }
    }
    forall p | p in w.polls
      ensures w.polls[p].id in after.monitor.positions && w.polls[p].id !in after.monitor.flagged
    {
      R.RowsRecovered(b, rows, w.polls[p].id);
    }
    forall id | id in w.reported && id in b.monitor.flagged
      ensures id in after.monitor.flagged
    {
      R.RowsRecovered(b, rows, id);
    }
  }

  lemma StepKeeps(c: Config, w: World, step: Step)
    requires Inv(w) && Enabled(w, step) && (step.PollStarts? ==> !Polled(w, step.id))
    ensures Inv(Next(c, w, step))
  {
    match step
    case Enters(t) => EntryKeeps(c, w, t);
    case SellSettles(p, fill, committed, markPersists) =>
      if fill.outcome.Executed? && committed {
        BookedSettlementKeeps(c, w, p, fill, markPersists);
      } else {
        UnbookedSettlementKeeps(c, w, p, fill, committed, markPersists);
      }
    case Recovers => RecoveryKeeps(c, w);
    case Restarts =>
    case _ => PollKeeps(c, w, step);
  }

  lemma {:induction false} RunKeeps(c: Config, w: World, steps: seq<Step>, end: World)
    requires Inv(w) && Reachable(c, w, steps, end) && Apart(c, w, steps, end)
    ensures Inv(end)
    decreases |steps|
  {
    if steps != [] {
      StepKeeps(c, w, steps[0]);
      RunKeeps(c, Next(c, w, steps[0]), steps[1..], end);
    }
  }

  /**
   * Over every run whose polls of one trade do not overlap, however often exit transactions fail and processes
   * restart: each day's realized pnl is the pnl of the trades closed that day, and no sell was issued in a process for
   * a trade after one was reported executed or unconfirmed in it.
   */
  lemma MoneyIsBookedOnceAndNothingSoldTwice(c: Config, steps: seq<Step>, end: World)
    requires Reachable(c, START, steps, end) && Apart(c, START, steps, end)
    ensures forall day :: RowPnl(end.books.ledger.daily, day) == PnlOn(end.books.ledger.trades, day)
    ensures end.duplicates == 0
  {
    RunKeeps(c, START, steps, end);
  }

  // ---- where the promises end ----------------------------------------------------------------------------------------

  lemma Prepend(c: Config, w: World, step: Step, rest: seq<Step>, end: World)
    requires Enabled(w, step) && Reachable(c, Next(c, w, step), rest, end)
    ensures Reachable(c, w, [step] + rest, end)
  {
    assert ([step] + rest)[1..] == rest;
  }

  /** A poll that observed before another poll sold and booked the trade sells it again and books it again. */
  lemma SecondPollSellsAgain(c: Config, w: World, p: nat, q: nat, k: nat, first: Fill, second: Fill)
    returns (steps: seq<Step>, end: World)
    requires p in w.polls && q in w.polls && p != q && w.duplicates == 0 && w.reported == {}
    requires k < |w.books.ledger.trades| && UniqueIds(w.books.ledger.trades) && DaysAgree(w.books.ledger)
    requires var t := w.books.ledger.trades[k];
      t.exit.None? && w.polls[p] == w.polls[q] == Observing(t.id, t.entrySize) && first.filledAmount != t.entrySize
    requires first.outcome.Executed? && second.outcome.Executed?
    ensures Reachable(c, w, steps, end) && end.duplicates == 1 && !DaysAgree(end.books.ledger)
  {
    var w2 := SellsAndBooks(c, w, p, k, first);
    end := SellsAndBooks(c, w2, q, k, second);
    TwoStepsTwice(c, w, p, first, w2, q, second, end);
    steps := [PollSells(p), SellSettles(p, first, true, true), PollSells(q), SellSettles(q, second, true, true)];
    var exit1 := Exit(first.timestampMs, first.filledAmount - w.polls[p].size);
    var exit2 := Exit(second.timestampMs, second.filledAmount - w.polls[q].size);
    BookingAgreesExactlyWhenOpen(w.books.ledger, k, exit1, c.dailyStartingBalance, c.dailyLossLimitPct);
    BookingAgreesExactlyWhenOpen(w2.books.ledger, k, exit2, c.dailyStartingBalance, c.dailyLossLimitPct);
  }

  /** A poll that sells and has its exit booked. */
  lemma SellsAndBooks(c: Config, w: World, p: nat, k: nat, fill: Fill) returns (w2: World)
    requires p in w.polls && w.polls[p].Observing? && fill.outcome.Executed?
    requires k < |w.books.ledger.trades| && UniqueIds(w.books.ledger.trades)
    requires w.books.ledger.trades[k].id == w.polls[p].id
    ensures w2 == Next(c, Next(c, w, PollSells(p)), SellSettles(p, fill, true, true))
    ensures var id, exit := w.polls[p].id, Exit(fill.timestampMs, fill.filledAmount - w.polls[p].size);
      && w2.books.ledger == Booked(w.books.ledger, id, exit, c.dailyStartingBalance, c.dailyLossLimitPct)
      && w2.books.ledger.trades[k].id == id && w2.books.ledger.trades[k].exit == Some(exit)
      && UniqueIds(w2.books.ledger.trades)
      && w2.polls == w.polls - {p} && w2.reported == w.reported + {id}
      && w2.duplicates == w.duplicates + if id in w.reported then 1 else 0
  {
    var w1 := Next(c, w, PollSells(p));
    SettledIsBooked(c, w1, p, fill, true);
    w2 := Next(c, w1, SellSettles(p, fill, true, true));
    ExitKeepsRows(w.books.ledger.trades, k, Exit(fill.timestampMs, fill.filledAmount - w.polls[p].size));
    assert w1.polls - {p} == w.polls - {p};
  }

  lemma TwoStepsTwice(c: Config, w: World, p: nat, first: Fill, w2: World, q: nat, second: Fill, end: World)
    requires p in w.polls && w.polls[p].Observing? && q in w2.polls && w2.polls[q].Observing?
    requires w2 == Next(c, Next(c, w, PollSells(p)), SellSettles(p, first, true, true))
    requires end == Next(c, Next(c, w2, PollSells(q)), SellSettles(q, second, true, true))
    ensures Reachable(
      c, w, [PollSells(p), SellSettles(p, first, true, true), PollSells(q), SellSettles(q, second, true, true)], end)
  {
    var settle1, settle2 := SellSettles(p, first, true, true), SellSettles(q, second, true, true);
    var none: seq<Step> := [];
    Prepend(c, Next(c, w2, PollSells(q)), settle2, none, end);
    Prepend(c, w2, PollSells(q), [settle2] + none, end);
    var rest := [PollSells(q)] + ([settle2] + none);
    Prepend(c, Next(c, w, PollSells(p)), settle1, rest, end);
    Prepend(c, w, PollSells(p), [settle1] + rest, end);
    assert [PollSells(p)] + ([settle1] + rest) == [PollSells(p), settle1, PollSells(q), settle2];
  }

  /** Two polls of a new position, both started before either sells: the test of `closing` comes before the awaits. */
  lemma BothObserve(c: Config, t: Trade) returns (steps: seq<Step>, w: World)
    requires t.exit.None? && t.reconciliation.None?
    ensures Reachable(c, START, steps, w) && w.books.ledger.trades == [t] && w.books.ledger.daily == map[]
    ensures w.polls == map[0 := Observing(t.id, t.entrySize), 1 := Observing(t.id, t.entrySize)]
    ensures w.reported == {} && w.duplicates == 0
  {
    var w1 := Next(c, START, Enters(t));
    var w2 := Next(c, w1, PollStarts(0, t.id));
    w := Next(c, w2, PollStarts(1, t.id));
    var none: seq<Step> := [];
    Prepend(c, w2, PollStarts(1, t.id), none, w);
    Prepend(c, w1, PollStarts(0, t.id), [PollStarts(1, t.id)] + none, w);
    steps := [PollStarts(0, t.id)] + ([PollStarts(1, t.id)] + none);
    Prepend(c, START, Enters(t), steps, w);
    steps := [Enters(t)] + steps;
  }

  lemma {:induction false} RunsJoin(c: Config, w: World, first: seq<Step>, mid: World, second: seq<Step>, end: World)
    requires Reachable(c, w, first, mid) && Reachable(c, mid, second, end)
    ensures Reachable(c, w, first + second, end)
    decreases |first|
  {
    if first == [] {
      assert first + second == second;
    } else {
      RunsJoin(c, Next(c, w, first[0]), first[1..], mid, second, end);
      Prepend(c, w, first[0], first[1..] + second, end);
      assert [first[0]] + (first[1..] + second) == first + second;
    }
  }

  /** Two overlapping polls of any open position can sell it twice and book it twice. */
  lemma OverlappingPollsSellTwice(c: Config, t: Trade, first: Fill, second: Fill)
    returns (steps: seq<Step>, end: World)
    requires t.exit.None? && t.reconciliation.None? && first.filledAmount != t.entrySize
    requires first.outcome.Executed? && second.outcome.Executed?
    ensures Reachable(c, START, steps, end) && end.duplicates == 1 && !DaysAgree(end.books.ledger)
  {
    var begun, w := BothObserve(c, t);
    NothingBooked(w.books.ledger, t);
    var rest;
    rest, end := SecondPollSellsAgain(c, w, 0, 1, 0, first, second);
    RunsJoin(c, START, begun, w, rest, end);
    steps := begun + rest;
  }

  lemma NothingBooked(l: Ledger, t: Trade)
    requires l.trades == [t] && l.daily == map[] && t.exit.None?
    ensures DaysAgree(l) && UniqueIds(l.trades)
  {
    assert [t][..0] == [];
  }

  /** A restart forgets an unconfirmed sell: the open row is recovered and sold once more. */
  lemma RestartForgetsUnconfirmedSell(c: Config, t: Trade, unknown: Fill) returns (after: World, end: World)
    requires t.exit.None? && R.Resumable(t) && unknown.outcome.Unknown?
    ensures var first := [Enters(t), PollStarts(0, t.id), PollSells(0), SellSettles(0, unknown, false, false)];
      Reachable(c, START, first, after) && t.id in after.reported
    ensures Reachable(c, after, [Restarts, Recovers, PollStarts(0, t.id), PollSells(0)], end)
    ensures end.polls == map[0 := Selling(t.id, t.entrySize)]
  {
    var w1 := Next(c, START, Enters(t));
    var w2 := Next(c, w1, PollStarts(0, t.id));
    var w3 := Next(c, w2, PollSells(0));
    after := Next(c, w3, SellSettles(0, unknown, false, false));
    assert w1.books.ledger.trades == [t] == after.books.ledger.trades;
    var none: seq<Step> := [];
    var last := [SellSettles(0, unknown, false, false)];
    Prepend(c, w3, last[0], none, after);
    assert last == [last[0]] + none;
    Prepend(c, w2, PollSells(0), last, after);
    Prepend(c, w1, PollStarts(0, t.id), [PollSells(0)] + last, after);
    Prepend(c, START, Enters(t), [PollStarts(0, t.id)] + ([PollSells(0)] + last), after);
    assert [Enters(t)] + ([PollStarts(0, t.id)] + ([PollSells(0)] + last))
      == [Enters(t), PollStarts(0, t.id), PollSells(0), SellSettles(0, unknown, false, false)];
    end := SoldAfterRestart(c, after, t);
  }

  lemma RecoversTheOneRow(b: Books, t: Trade)
    requires b.ledger.trades == [t] && b.monitor == P.FRESH && t.exit.None? && R.Resumable(t)
    ensures R.Recover(b).books == Books(b.ledger, P.FRESH.(positions := map[t.id := t.entrySize]))
  {
    assert [t][..0] == [] && OpenTrades([t]) == [t];
    assert R.RecoverRows(b, []) == R.Recovery(b, R.Tally(0, 0, 0));
  }

  lemma SoldAfterRestart(c: Config, w: World, t: Trade) returns (end: World)
    requires w.books.ledger.trades == [t] && t.exit.None? && R.Resumable(t)
    ensures Reachable(c, w, [Restarts, Recovers, PollStarts(0, t.id), PollSells(0)], end)
    ensures end.polls == map[0 := Selling(t.id, t.entrySize)]
  {
    var w1 := Next(c, w, Restarts);
    var w2 := Next(c, w1, Recovers);
    RecoversTheOneRow(w1.books, t);
    assert w2 == World(Books(w.books.ledger, P.FRESH.(positions := map[t.id := t.entrySize])), map[], {}, 0);
    end := SoldFrom(c, w2, t);
    var rest := [PollStarts(0, t.id), PollSells(0)];
    Prepend(c, w1, Recovers, rest, end);
    Prepend(c, w, Restarts, [Recovers] + rest, end);
    assert [Restarts] + ([Recovers] + rest) == [Restarts, Recovers, PollStarts(0, t.id), PollSells(0)];
  }

  lemma SoldFrom(c: Config, w: World, t: Trade) returns (end: World)
    requires w.polls == map[] && w.books.monitor.positions == map[t.id := t.entrySize] && MayPoll(w.books.monitor, t.id)
    ensures Reachable(c, w, [PollStarts(0, t.id), PollSells(0)], end)
    ensures end.polls == map[0 := Selling(t.id, t.entrySize)]
  {
    var w1 := Next(c, w, PollStarts(0, t.id));
    assert w1.polls == map[0 := Observing(t.id, t.entrySize)];
    end := Next(c, w1, PollSells(0));
    var none: seq<Step> := [];
    Prepend(c, w1, PollSells(0), none, end);
    assert [PollSells(0)] == [PollSells(0)] + none;
    Prepend(c, w, PollStarts(0, t.id), [PollSells(0)], end);
    assert [PollStarts(0, t.id)] + [PollSells(0)] == [PollStarts(0, t.id), PollSells(0)];
  }

  // ---- exactly when a poll is safe -----------------------------------------------------------------------------------

  /** Whatever follows without further overlap, the days agree with the trades and nothing is sold after a report. */
  ghost predicate KeepsPromises(c: Config, w: World) {
    forall steps, end | Reachable(c, w, steps, end) && Apart(c, w, steps, end) ::
      DaysAgree(end.books.ledger) && end.duplicates == 0
  }

  lemma PrependApart(c: Config, w: World, step: Step, rest: seq<Step>, end: World)
    requires Enabled(w, step) && !step.PollStarts?
    requires Reachable(c, Next(c, w, step), rest, end) && Apart(c, Next(c, w, step), rest, end)
    ensures Reachable(c, w, [step] + rest, end) && Apart(c, w, [step] + rest, end)
  {
    assert ([step] + rest)[1..] == rest;
  }

  /** A sell in progress is reported, and the other poll sells after it. */
  lemma SellsAfterReport(c: Config, w: World, p: nat, q: nat) returns (steps: seq<Step>, end: World)
    requires p in w.polls && q in w.polls && p != q && w.polls[p].id == w.polls[q].id
    requires w.polls[p].Observing? && w.polls[q].Selling?
    ensures Reachable(c, w, steps, end) && Apart(c, w, steps, end) && end.duplicates > w.duplicates
  {
    var settles := SellSettles(q, Fill(Executed, false, 0, 0), true, true);
    var w1 := Next(c, w, settles);
    end := Next(c, w1, PollSells(p));
    assert w1.polls[p] == w.polls[p] && w.polls[p].id in w1.reported && w1.duplicates == w.duplicates;
    var none: seq<Step> := [];
    PrependApart(c, w1, PollSells(p), none, end);
    steps := [PollSells(p)] + none;
    PrependApart(c, w, settles, steps, end);
    steps := [settles] + steps;
  }

  lemma TwoPollsSellTwice(c: Config, w: World, p: nat, q: nat) returns (steps: seq<Step>, end: World)
    requires p in w.polls && q in w.polls && p != q && w.polls[p].id == w.polls[q].id && w.polls[p].Observing?
    ensures Reachable(c, w, steps, end) && Apart(c, w, steps, end) && end.duplicates > w.duplicates
  {
    if w.polls[q].Selling? {
      steps, end := SellsAfterReport(c, w, p, q);
    } else {
      var w1 := Next(c, w, PollSells(q));
      steps, end := SellsAfterReport(c, w1, p, q);
      PrependApart(c, w, PollSells(q), steps, end);
      steps := [PollSells(q)] + steps;
    }
  }

  /**
   * Starting a poll keeps both promises, in every continuation without a further overlap, exactly when no other poll
   * of that trade is in progress.
   */
  lemma PollIsSafeExactlyWhenAlone(c: Config, w: World, p: nat, id: TradeId)
    requires Inv(w) && Enabled(w, PollStarts(p, id))
    ensures KeepsPromises(c, Next(c, w, PollStarts(p, id))) <==> !Polled(w, id)
  {
    var w1 := Next(c, w, PollStarts(p, id));
    if Polled(w, id) {
      var q :| q in w.polls && w.polls[q].id == id;
      var steps, end := TwoPollsSellTwice(c, w1, p, q);
    } else {
      StepKeeps(c, w, PollStarts(p, id));
      forall steps, end | Reachable(c, w1, steps, end) && Apart(c, w1, steps, end)
        ensures DaysAgree(end.books.ledger) && end.duplicates == 0
      {
        RunKeeps(c, w1, steps, end);
      }
    }
  }

  // ---- exactly when a sale is final across restarts ------------------------------------------------------------------

  ghost predicate BeingSold(w: World, id: TradeId) {
    exists p :: p in w.polls && w.polls[p].Selling? && w.polls[p].id == id
  }

  /** Neither this process nor any later one sells the trade again. */
  ghost predicate NeverSoldAgain(c: Config, w: World, id: TradeId) {
    forall steps, end | Reachable(c, w, steps, end) :: !BeingSold(end, id)
  }

  /** A row that recovery will not resume. */
  predicate Barred(t: Trade) {
    t.exit.Some? || !R.Resumable(t)
  }

  /** Not polled, not to be polled in this process, and barred from recovery in later ones. */
  ghost predicate Sealed(w: World, id: TradeId) {
    && HasRow(w.books.ledger.trades, id) && AllBarred(w.books.ledger.trades, id)
    && !Polled(w, id) && OutOfReach(w.books.monitor, id)
  }

  ghost predicate AllBarred(trades: seq<Trade>, id: TradeId) {
    forall i | 0 <= i < |trades| && trades[i].id == id :: Barred(trades[i])
  }

  predicate OutOfReach(m: Monitor, id: TradeId) {
    id in m.flagged || id !in m.positions
  }

  lemma {:induction false} RecoveryLeavesSealed(b: Books, rows: seq<Trade>, id: TradeId)
    requires OutOfReach(b.monitor, id)
    requires forall i | 0 <= i < |rows| && rows[i].id == id :: !R.Resumable(rows[i])
    ensures OutOfReach(R.RecoverRows(b, rows).books.monitor, id)
    decreases |rows|
  {
    if rows != [] {
      RecoveryLeavesSealed(b, rows[..|rows| - 1], id);
    }
  }

  lemma RecoveringKeepsSealed(c: Config, w: World, id: TradeId)
    requires Sealed(w, id)
    ensures Sealed(Next(c, w, Recovers), id)
  {
    var b := w.books;
    var rows, after := OpenTrades(b.ledger.trades), R.Recover(b).books;
    R.RecoveryOnlyFlags(b, rows);
    forall i | 0 <= i < |rows| && rows[i].id == id
      ensures !R.Resumable(rows[i])
    {
      OpenTradesAre(b.ledger.trades, rows[i]);
      var j :| 0 <= j < |b.ledger.trades| && b.ledger.trades[j] == rows[i];
    }
    RecoveryLeavesSealed(b, rows, id);
    forall i | 0 <= i < |after.ledger.trades| && after.ledger.trades[i].id == id
      ensures Barred(after.ledger.trades[i])
    {
      assert R.SameButFlag(b.ledger.trades[i], after.ledger.trades[i]);
    }
    var k :| 0 <= k < |b.ledger.trades| && b.ledger.trades[k].id == id;
    assert R.SameButFlag(b.ledger.trades[k], after.ledger.trades[k]);
  }

  lemma EnteringKeepsSealed(c: Config, w: World, t: Trade, id: TradeId)
    requires Sealed(w, id) && Enabled(w, Enters(t))
    ensures Sealed(Next(c, w, Enters(t)), id)
  {
    var k :| 0 <= k < |w.books.ledger.trades| && w.books.ledger.trades[k].id == id;
    assert Next(c, w, Enters(t)).books.ledger.trades[k].id == id;
  }

  /** A settlement of another trade leaves the rows of this one alone. */
  lemma SettlingKeepsSealed(c: Config, w: World, step: Step, id: TradeId)
    requires Sealed(w, id) && step.SellSettles? && Enabled(w, step)
    ensures Sealed(Next(c, w, step), id)
  {
    var u := w.polls[step.p].id;
    assert u != id;
    var trades, after := w.books.ledger.trades, Next(c, w, step).books.ledger.trades;
    assert |after| == |trades|;
    assert forall i | 0 <= i < |trades| :: after[i].id == trades[i].id && (trades[i].id != u ==> after[i] == trades[i]);
    var k :| 0 <= k < |trades| && trades[k].id == id;
    assert after[k].id == id;
  }

  lemma StepKeepsSealed(c: Config, w: World, step: Step, id: TradeId)
    requires Sealed(w, id) && Enabled(w, step)
    ensures Sealed(Next(c, w, step), id)
  {
    match step
    case Enters(t) => EnteringKeepsSealed(c, w, t, id);
    case SellSettles(_, _, _, _) => SettlingKeepsSealed(c, w, step, id);
    case Recovers => RecoveringKeepsSealed(c, w, id);
    case _ => assert Next(c, w, step).books.ledger == w.books.ledger;
  }

  lemma {:induction false} SealedForever(c: Config, w: World, steps: seq<Step>, end: World, id: TradeId)
    requires Sealed(w, id) && Reachable(c, w, steps, end)
    ensures Sealed(end, id)
    decreases |steps|
  {
    if steps != [] {
      StepKeepsSealed(c, w, steps[0], id);
      SealedForever(c, Next(c, w, steps[0]), steps[1..], end, id);
    }
  }

  lemma SealedIsNeverSold(c: Config, w: World, id: TradeId)
    requires Sealed(w, id)
    ensures NeverSoldAgain(c, w, id)
  {
    forall steps, end | Reachable(c, w, steps, end)
      ensures !BeingSold(end, id)
    {
      SealedForever(c, w, steps, end, id);
    }
  }

  /** An open row that recovery resumes is polled and sold by the next process. */
  lemma ResumedIsSold(c: Config, w: World, k: nat)
    requires UniqueIds(w.books.ledger.trades) && k < |w.books.ledger.trades| && !Barred(w.books.ledger.trades[k])
    ensures !NeverSoldAgain(c, w, w.books.ledger.trades[k].id)
  {
    var id := w.books.ledger.trades[k].id;
    var w1 := Next(c, w, Restarts);
    var w2 := Next(c, w1, Recovers);
    ResumedIsMonitored(w1.books, k);
    var w3 := Next(c, w2, PollStarts(0, id));
    var w4 := Next(c, w3, PollSells(0));
    assert w4.polls[0].Selling? && w4.polls[0].id == id;
    var none: seq<Step> := [];
    Prepend(c, w3, PollSells(0), none, w4);
    Prepend(c, w2, PollStarts(0, id), [PollSells(0)] + none, w4);
    var rest := [PollStarts(0, id)] + ([PollSells(0)] + none);
    Prepend(c, w1, Recovers, rest, w4);
    Prepend(c, w, Restarts, [Recovers] + rest, w4);
    assert BeingSold(w4, id);
  }

  lemma ResumedIsMonitored(b: Books, k: nat)
    requires b.monitor == P.FRESH && UniqueIds(b.ledger.trades) && k < |b.ledger.trades| && !Barred(b.ledger.trades[k])
    ensures var m := R.Recover(b).books.monitor; var id := b.ledger.trades[k].id;
      id in m.positions && MayPoll(m, id)
  {
    var rows := OpenTrades(b.ledger.trades);
    OpenTradesAre(b.ledger.trades, b.ledger.trades[k]);
    var j :| 0 <= j < |rows| && rows[j] == b.ledger.trades[k];
    OpenTradesUnique(b.ledger.trades);
    R.NewRowIsResumedOrFlagged(b, rows, j);
    R.RecoveryOnlyFlags(b, rows);
  }

  lemma {:induction false} OpenTradesUnique(trades: seq<Trade>)
    requires UniqueIds(trades)
    ensures UniqueIds(OpenTrades(trades))
    decreases |trades|
  {
    if trades != [] {
      var front := trades[..|trades| - 1];
      OpenTradesUnique(front);
      var rows := OpenTrades(front);
      forall i | 0 <= i < |rows|
        ensures rows[i].id != trades[|trades| - 1].id
      {
        OpenTradesAre(front, rows[i]);
        var j :| 0 <= j < |front| && front[j] == rows[i];
      }
    }
  }

  /** What the settlement of a sell leaves in the books for its own trade. */
  lemma SettledRow(c: Config, w: World, step: Step, k: nat)
    requires step.SellSettles? && Enabled(w, step) && UniqueIds(w.books.ledger.trades) && k < |w.books.ledger.trades|
    requires w.books.ledger.trades[k].id == w.polls[step.p].id && w.books.ledger.trades[k].exit.None?
    requires !step.fill.outcome.NotExecuted?
    ensures var after := Next(c, w, step).books; var trades := w.books.ledger.trades; var id := trades[k].id;
      && |after.ledger.trades| == |trades|
      && (forall i | 0 <= i < |trades| :: after.ledger.trades[i].id == trades[i].id)
      && (Barred(after.ledger.trades[k])
          <==> (step.fill.outcome.Executed? && (step.committed || step.markPersists)) || !R.Resumable(trades[k]))
      && OutOfReach(after.monitor, id)
  {}

  /**
   * After a sell was reported executed or unknown, its trade is never sold again, by this process or any later one,
   * exactly when the sell was recorded (it was executed, and the exit transaction committed or the reconciliation mark
   * persisted), or the row cannot be resumed anyway.
   */
  lemma SaleIsFinalExactlyWhenRecorded(
    c: Config, w: World, p: nat, fill: Fill, committed: bool, markPersists: bool, k: nat)
    requires Inv(w) && Enabled(w, SellSettles(p, fill, committed, markPersists)) && !fill.outcome.NotExecuted?
    requires k < |w.books.ledger.trades| && w.books.ledger.trades[k].id == w.polls[p].id
    ensures NeverSoldAgain(c, Next(c, w, SellSettles(p, fill, committed, markPersists)), w.polls[p].id)
      <==> (fill.outcome.Executed? && (committed || markPersists)) || !R.Resumable(w.books.ledger.trades[k])
  {
    var trades, id := w.books.ledger.trades, w.polls[p].id;
    var j :| 0 <= j < |trades| && trades[j].id == id && trades[j].exit.None?;
    assert j == k;
    var after := Next(c, w, SellSettles(p, fill, committed, markPersists));
    SettledRow(c, w, SellSettles(p, fill, committed, markPersists), k);
    if Barred(after.books.ledger.trades[k]) {
      assert after.polls == w.polls - {p};
      SealedIsNeverSold(c, after, id);
    } else {
      ResumedIsSold(c, after, k);
    }
  }
}
