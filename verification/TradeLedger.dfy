/** The trade ledger as an abstract table: one row per trade in insertion order, one row per UTC day. */
module TradeLedger {
  import opened Prelude

  type Mint = nat
  type TradeId = nat
  /** Whole lamports. */
  type Sol = int

  datatype Exit = Exit(timeMs: int, pnl: Sol)

  /** What a restart needs to resume a position; absent where the row has null. */
  datatype EntryData = EntryData(price: Option<int>, filledAmount: Option<Sol>, tokenAmountRaw: Option<string>)

  /** A row of the trades table; an open row has no exit. */
  datatype Trade = Trade(
    id: TradeId, mint: Mint, entrySize: Sol, reentryIndex: nat, entry: EntryData, exit: Option<Exit>,
    reconciliation: Option<string>)

  datatype DailyRow = DailyRow(startingBalance: Sol, realizedPnl: Sol, breaker: bool)

  datatype Ledger = Ledger(trades: seq<Trade>, daily: map<int, DailyRow>)

  const MS_PER_DAY := 86_400_000

  function DayOf(ms: int): int {
    ms / MS_PER_DAY
  }

  function OpenTrades(trades: seq<Trade>): seq<Trade> {
    if trades == [] then []
    else
      var last := trades[|trades| - 1];
      OpenTrades(trades[..|trades| - 1]) + if last.exit.None? then [last] else []
  }

  function TotalTrades(trades: seq<Trade>, mint: Mint): nat {
    if trades == [] then 0
    else TotalTrades(trades[..|trades| - 1], mint) + if trades[|trades| - 1].mint == mint then 1 else 0
  }

  function SizeSum(trades: seq<Trade>): Sol {
    if trades == [] then 0 else SizeSum(trades[..|trades| - 1]) + trades[|trades| - 1].entrySize
  }

  function OpenCount(trades: seq<Trade>): nat {
    if trades == [] then 0
    else OpenCount(trades[..|trades| - 1]) + if trades[|trades| - 1].exit.None? then 1 else 0
  }

  /** Total size of the open trades. */
  function OpenSize(trades: seq<Trade>): Sol {
    if trades == [] then 0
    else OpenSize(trades[..|trades| - 1]) + if trades[|trades| - 1].exit.None? then trades[|trades| - 1].entrySize else 0
  }

  /** The update of recordExit: every row of that id, whatever its status. */
  function WithExit(trades: seq<Trade>, id: TradeId, exit: Exit): seq<Trade> {
    seq(|trades|, i requires 0 <= i < |trades| =>
      if trades[i].id == id then trades[i].(exit := Some(exit)) else trades[i])
  }

  /** The first reason recorded is kept. */
  function Flagged(trades: seq<Trade>, id: TradeId, reason: string): seq<Trade> {
    seq(|trades|, i requires 0 <= i < |trades| =>
      if trades[i].id == id && trades[i].reconciliation.None? then trades[i].(reconciliation := Some(reason))
      else trades[i])
  }

  function WithDay(daily: map<int, DailyRow>, day: int, startingBalance: Sol): map<int, DailyRow> {
    if day in daily then daily else daily[day := DailyRow(startingBalance, 0, false)]
  }

  function WithBreaker(daily: map<int, DailyRow>, day: int): map<int, DailyRow>
    requires day in daily
  {
    daily[day := daily[day].(breaker := true)]
  }

  /** A percentage of the day's starting balance was lost, or that balance makes no sense. */
  predicate LossLimitBreached(realizedPnl: Sol, startingBalance: Sol, limitPct: int) {
    startingBalance <= 0 || -realizedPnl * 100 >= limitPct * startingBalance
  }

  /** The committed effect of one exit: the day's row, the trade's exit and, past the limit, the breaker. */
  function Booked(l: Ledger, id: TradeId, exit: Exit, startingBalance: Sol, limitPct: int): Ledger {
    var day := DayOf(exit.timeMs);
    var daily := WithDay(l.daily, day, startingBalance);
    var row := daily[day];
    var updated := row.realizedPnl + exit.pnl;
    var breached := LossLimitBreached(updated, row.startingBalance, limitPct);
    Ledger(WithExit(l.trades, id, exit),
           daily[day := DailyRow(row.startingBalance, updated, row.breaker || breached)])
  }

  /** Statements of the exit transaction; one of them may throw. */
  datatype Statement = ReadDay | ApplyPnl | RecordExit | Latch | Commit

  class TradeLedger {
    var trades: seq<Trade>
    var daily: map<int, DailyRow>

    ghost function View(): Ledger
      reads this
    {
      Ledger(trades, daily)
    }

    constructor ()
      ensures View() == Ledger([], map[])
    {
      trades, daily := [], map[];
    }

    method RecordEntry(t: Trade)
      requires t.exit.None?
      modifies this
      ensures View() == Ledger(old(trades) + [t], old(daily))
    {
      trades := trades + [t];
    }

    method RecordExitRow(id: TradeId, exit: Exit)
      modifies this
      ensures View() == Ledger(WithExit(old(trades), id, exit), old(daily))
    {
      var done, i := [], 0;
      while i < |trades|
        invariant i <= |trades| && View() == old(View())
        invariant done == WithExit(trades, id, exit)[..i]
      {
        done := done + [if trades[i].id == id then trades[i].(exit := Some(exit)) else trades[i]];
        i := i + 1;
      }
      trades := done;
    }

    method MarkReconciliationNeeded(id: TradeId, reason: string)
      modifies this
      ensures View() == Ledger(Flagged(old(trades), id, reason), old(daily))
    {
      var done, i := [], 0;
      while i < |trades|
        invariant i <= |trades| && View() == old(View())
        invariant done == Flagged(trades, id, reason)[..i]
      {
        var t := trades[i];
        if t.id == id && t.reconciliation.None? {
          t := t.(reconciliation := Some(reason));
        }
        done := done + [t];
        i := i + 1;
      }
      trades := done;
    }

    method GetOrInitDailyRiskState(day: int, startingBalance: Sol) returns (row: DailyRow)
      modifies this
      ensures View() == Ledger(old(trades), WithDay(old(daily), day, startingBalance)) && row == daily[day]
    {
      if day !in daily {
        daily := daily[day := DailyRow(startingBalance, 0, false)];
      }
      row := daily[day];
    }

    method LatchCircuitBreaker(day: int)
      modifies this
      ensures View() == Ledger(old(trades), if day in old(daily) then WithBreaker(old(daily), day) else old(daily))
    {
      if day in daily {
        daily := daily[day := daily[day].(breaker := true)];
      }
    }

    /** All of the exit's writes or, when one of the statements throws, none of them. */
    method RunExitTransaction(id: TradeId, exit: Exit, startingBalance: Sol, limitPct: int, throws: Option<Statement>)
      returns (committed: bool)
      modifies this
      ensures View() == if committed then Booked(old(View()), id, exit, startingBalance, limitPct) else old(View())
      ensures throws.None? ==> committed
      ensures throws.Some? && throws.value != Latch ==> !committed
    {
      var savedTrades, savedDaily := trades, daily;
      committed := throws != Some(ReadDay);
      var day := DayOf(exit.timeMs);
      if committed {
        var row := GetOrInitDailyRiskState(day, startingBalance);
        var updated := row.realizedPnl + exit.pnl;
        committed := throws != Some(ApplyPnl);
        if committed {
          daily := daily[day := daily[day].(realizedPnl := updated)];
          committed := throws != Some(RecordExit);
        }
        if committed {
          RecordExitRow(id, exit);
          if LossLimitBreached(updated, row.startingBalance, limitPct) {
            committed := throws != Some(Latch);
            daily := daily[day := daily[day].(breaker := true)];
          }
        }
      }
      committed := committed && throws != Some(Commit);
      if !committed {
        trades, daily := savedTrades, savedDaily;
      }
    }
  }

  // ---- what rows add up to -------------------------------------------------------------------------------------------

  ghost predicate UniqueIds(trades: seq<Trade>) {
    forall i, j | 0 <= i < j < |trades| :: trades[i].id != trades[j].id
  }

  lemma AppendTrade(trades: seq<Trade>, t: Trade)
    ensures OpenCount(trades + [t]) == OpenCount(trades) + if t.exit.None? then 1 else 0
    ensures OpenSize(trades + [t]) == OpenSize(trades) + if t.exit.None? then t.entrySize else 0
  {
    assert (trades + [t])[..|trades|] == trades;
  }

  lemma AppendCounts(trades: seq<Trade>, t: Trade, m: Mint)
    ensures TotalTrades(trades + [t], m) == TotalTrades(trades, m) + if t.mint == m then 1 else 0
  {
    assert (trades + [t])[..|trades|] == trades;
  }

  /** Closing an open row takes its size and its place out of the open ones. */
  lemma {:induction false} ClosingTakesOneOut(trades: seq<Trade>, k: nat, exit: Exit)
    requires k < |trades| && UniqueIds(trades) && trades[k].exit.None?
    ensures OpenCount(WithExit(trades, trades[k].id, exit)) == OpenCount(trades) - 1
    ensures OpenSize(WithExit(trades, trades[k].id, exit)) == OpenSize(trades) - trades[k].entrySize
    decreases |trades|
  {
    var n := |trades| - 1;
    var id := trades[k].id;
    var front := trades[..n];
    if k == n {
      assert WithExit(trades, id, exit) == front + [trades[n].(exit := Some(exit))];
      AppendTrade(front, trades[n].(exit := Some(exit)));
    } else {
      assert front[k].id == id;
      ClosingTakesOneOut(front, k, exit);
      assert WithExit(trades, id, exit) == WithExit(front, id, exit) + [trades[n]];
      AppendTrade(WithExit(front, id, exit), trades[n]);
    }
  }

  lemma {:induction false} OpenTradesAddUp(trades: seq<Trade>)
    ensures |OpenTrades(trades)| == OpenCount(trades) && SizeSum(OpenTrades(trades)) == OpenSize(trades)
    decreases |trades|
  {
    if trades != [] {
      var front, last := trades[..|trades| - 1], trades[|trades| - 1];
      OpenTradesAddUp(front);
      assert (OpenTrades(front) + [last])[..|OpenTrades(front)|] == OpenTrades(front);
      assert last.exit.Some? ==> OpenTrades(trades) == OpenTrades(front);
    }
  }

  lemma {:induction false} RewritingKeepsCounts(trades: seq<Trade>, after: seq<Trade>, m: Mint)
    requires |after| == |trades| && forall i | 0 <= i < |trades| :: after[i].mint == trades[i].mint
    ensures TotalTrades(after, m) == TotalTrades(trades, m)
    decreases |trades|
  {
    if trades != [] {
      RewritingKeepsCounts(trades[..|trades| - 1], after[..|after| - 1], m);
    }
  }

  /** The open rows are the rows of the table without an exit. */
  lemma {:induction false} OpenTradesAre(trades: seq<Trade>, t: Trade)
    ensures t in OpenTrades(trades) <==> t in trades && t.exit.None?
    decreases |trades|
  {
    if trades != [] {
      var n := |trades| - 1;
      OpenTradesAre(trades[..n], t);
      assert trades == trades[..n] + [trades[n]];
    }
  }
}
