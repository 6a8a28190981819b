/** Recovery after a restart: each open row of the ledger is resumed or flagged, never both and never neither. */
module PositionRecovery {
  import opened Prelude
  import opened L = TradeLedger
  import opened P = PositionMonitor

  datatype Tally = Tally(recovered: nat, skipped: nat, flagged: nat)

  datatype Recovery = Recovery(books: Books, tally: Tally)

  predicate Blank(s: string) {
    forall i | 0 <= i < |s| :: IsSpace(s[i])
  }

  function MissingFields(e: EntryData): seq<string> {
    (if e.price.None? || e.price.value <= 0 then ["entryPriceSol"] else [])
    + (if e.filledAmount.None? then ["entryFilledAmountSol"] else [])
    + (if e.tokenAmountRaw.None? || Blank(e.tokenAmountRaw.value) then ["entryTokenAmountRaw"] else [])
  }

  predicate Complete(e: EntryData) {
    && e.price.Some? && e.price.value > 0 && e.filledAmount.Some?
    && e.tokenAmountRaw.Some? && exists i :: 0 <= i < |e.tokenAmountRaw.value| && !IsSpace(e.tokenAmountRaw.value[i])
  }

  predicate Resumable(t: Trade) {
    t.reconciliation.None? && MissingFields(t.entry) == []
  }

  predicate Known(m: Monitor, id: TradeId) {
    id in m.positions || id in m.flagged
  }

  function RecoverOne(r: Recovery, t: Trade): Recovery {
    var b, tally := r.books, r.tally;
    if Known(b.monitor, t.id) then Recovery(b, tally.(skipped := tally.skipped + 1))
    else if t.reconciliation.Some? then
      Recovery(b.(monitor := Flag(b.monitor, t.id)), tally.(flagged := tally.flagged + 1))
    else if MissingFields(t.entry) != [] then
      var trades := Flagged(b.ledger.trades, t.id, "position_recovery_missing_fields");
      Recovery(Books(b.ledger.(trades := trades), Flag(b.monitor, t.id)), tally.(flagged := tally.flagged + 1))
    else
      var m := b.monitor.(positions := b.monitor.positions[t.id := t.entrySize]);
      Recovery(b.(monitor := m), tally.(recovered := tally.recovered + 1))
  }

  function RecoverRows(b: Books, rows: seq<Trade>): Recovery {
    if rows == [] then Recovery(b, Tally(0, 0, 0))
    else RecoverOne(RecoverRows(b, rows[..|rows| - 1]), rows[|rows| - 1])
  }

  function Recover(b: Books): Recovery {
    RecoverRows(b, OpenTrades(b.ledger.trades))
  }

  method RecoverOpenPositions(ledger: L.TradeLedger, monitor: P.PositionMonitor) returns (tally: Tally)
    modifies ledger, monitor
    ensures Recovery(Books(ledger.View(), monitor.View()), tally) == Recover(old(Books(ledger.View(), monitor.View())))
  {
    tally := Tally(0, 0, 0);
    var rows := OpenTrades(ledger.trades);
    ghost var before := Books(ledger.View(), monitor.View());
    var i := 0;
    while i < |rows|
      invariant i <= |rows|
      invariant Recovery(Books(ledger.View(), monitor.View()), tally) == RecoverRows(before, rows[..i])
    {
      var t := rows[i];
      assert rows[..i + 1][..i] == rows[..i];
      if t.id in monitor.positions || t.id in monitor.reconciliationNeeded {
        tally := tally.(skipped := tally.skipped + 1);
      } else if t.reconciliation.Some? {
        monitor.MarkReconciliationNeeded(t.id);
        tally := tally.(flagged := tally.flagged + 1);
      } else if |MissingFields(t.entry)| > 0 {
        ledger.MarkReconciliationNeeded(t.id, "position_recovery_missing_fields");
        monitor.MarkReconciliationNeeded(t.id);
        tally := tally.(flagged := tally.flagged + 1);
      } else {
        monitor.AddPosition(t.id, t.entrySize);
        tally := tally.(recovered := tally.recovered + 1);
      }
      i := i + 1;
    }
    assert rows[..i] == rows;
  }

  /** Nothing is missing exactly when every critical field is there and usable. */
  lemma CompleteExactlyWhenNothingMissing(e: EntryData)
    ensures MissingFields(e) == [] <==> Complete(e)
  {
    if e.tokenAmountRaw.Some? {
      var s := e.tokenAmountRaw.value;
      if !Blank(s) {
        var i :| 0 <= i < |s| && !IsSpace(s[i]);
      }
    }
  }

  ghost predicate SameButFlag(a: Trade, b: Trade) {
    b == a.(reconciliation := b.reconciliation) && (a.reconciliation.Some? ==> b == a)
  }

  ghost predicate OnlyFlagged(before: seq<Trade>, after: seq<Trade>) {
    |before| == |after| && forall i | 0 <= i < |before| :: SameButFlag(before[i], after[i])
  }

  /** Recovery writes nothing to the ledger but reasons on rows that had none. */
  lemma {:induction false} RecoveryOnlyFlags(b: Books, rows: seq<Trade>)
    ensures var r := RecoverRows(b, rows).books;
      && OnlyFlagged(b.ledger.trades, r.ledger.trades) && r.ledger.daily == b.ledger.daily
      && r.monitor.closing == b.monitor.closing
    decreases |rows|
  {
    if rows != [] {
      RecoveryOnlyFlags(b, rows[..|rows| - 1]);
    }
  }

  ghost predicate InRows(rows: seq<Trade>, id: TradeId) {
    exists i :: 0 <= i < |rows| && rows[i].id == id
  }

  /** What was known of a trade stays as it was. */
  ghost predicate SameKnowledge(before: Monitor, after: Monitor, id: TradeId) {
    && (id in after.positions <==> id in before.positions)
    && (id in after.flagged <==> id in before.flagged)
    && (id in before.positions ==> after.positions[id] == before.positions[id])
  }

  lemma InOneMore(rows: seq<Trade>, id: TradeId)
    requires rows != []
    ensures InRows(rows, id) <==> InRows(rows[..|rows| - 1], id) || rows[|rows| - 1].id == id
  {
    var front := rows[..|rows| - 1];
    if InRows(front, id) {
      var i :| 0 <= i < |front| && front[i].id == id;
      assert rows[i].id == id;
    }
    if InRows(rows, id) && rows[|rows| - 1].id != id {
      var i :| 0 <= i < |rows| && rows[i].id == id;
      assert front[i].id == id;
    }
  }

  /** One row more is known; what else was known stays. */
  lemma OneRowRecovered(r: Recovery, t: Trade, id: TradeId)
    ensures var next := RecoverOne(r, t);
      && (Known(next.books.monitor, id) <==> Known(r.books.monitor, id) || t.id == id)
      && (Known(r.books.monitor, id) || t.id != id ==> SameKnowledge(r.books.monitor, next.books.monitor, id))
      && next.tally.recovered + next.tally.skipped + next.tally.flagged
         == r.tally.recovered + r.tally.skipped + r.tally.flagged + 1
  {}

  /** What recovery knows of one trade afterwards: every row's id, and what was known stays as it was. */
  lemma {:induction false} RowsRecovered(b: Books, rows: seq<Trade>, id: TradeId)
    ensures var r := RecoverRows(b, rows);
      && (Known(r.books.monitor, id) <==> Known(b.monitor, id) || InRows(rows, id))
      && (Known(b.monitor, id) ==> SameKnowledge(b.monitor, r.books.monitor, id))
      && r.tally.recovered + r.tally.skipped + r.tally.flagged == |rows|
    decreases |rows|
  {
    if rows != [] {
      var front := rows[..|rows| - 1];
      RowsRecovered(b, front, id);
      InOneMore(rows, id);
      OneRowRecovered(RecoverRows(b, front), rows[|rows| - 1], id);
    }
  }

  /** Resumed with its size, or flagged, as the row says. */
  ghost predicate Handled(m: Monitor, t: Trade) {
    && (t.id in m.positions <==> Resumable(t)) && (t.id in m.flagged <==> !Resumable(t))
    && (Resumable(t) ==> m.positions[t.id] == t.entrySize)
  }

  /**
   * A row unknown before is resumed exactly when its data is complete and no reason stands against it; otherwise it is
   * flagged. Not both.
   */
  lemma {:induction false} NewRowIsResumedOrFlagged(b: Books, rows: seq<Trade>, k: nat)
    requires k < |rows| && !Known(b.monitor, rows[k].id)
    requires forall i, j | 0 <= i < j < |rows| :: rows[i].id != rows[j].id
    ensures Handled(RecoverRows(b, rows).books.monitor, rows[k])
    decreases |rows|
  {
    var n := |rows| - 1;
    var front := rows[..n];
    if k < n {
      NewRowIsResumedOrFlagged(b, front, k);
      OneRowRecovered(RecoverRows(b, front), rows[n], rows[k].id);
    } else {
      NotAmongTheOthers(rows);
      RowsRecovered(b, front, rows[n].id);
    }
  }

  lemma NotAmongTheOthers(rows: seq<Trade>)
    requires rows != [] && forall i, j | 0 <= i < j < |rows| :: rows[i].id != rows[j].id
    ensures !InRows(rows[..|rows| - 1], rows[|rows| - 1].id)
  {}

  lemma {:induction false} AllKnownSkips(b: Books, rows: seq<Trade>)
    requires forall i | 0 <= i < |rows| :: Known(b.monitor, rows[i].id)
    ensures RecoverRows(b, rows) == Recovery(b, Tally(0, |rows|, 0))
    decreases |rows|
  {
    if rows != [] {
      AllKnownSkips(b, rows[..|rows| - 1]);
    }
  }

  /** Every row open after recovery is known to it. */
  lemma OpenRowIsKnown(b: Books, t: Trade)
    requires t in OpenTrades(Recover(b).books.ledger.trades)
    ensures Known(Recover(b).books.monitor, t.id)
  {
    var rows, once := OpenTrades(b.ledger.trades), Recover(b).books;
    RecoveryOnlyFlags(b, rows);
    RowsRecovered(b, rows, t.id);
    OpenTradesAre(once.ledger.trades, t);
    var j :| 0 <= j < |once.ledger.trades| && once.ledger.trades[j] == t;
    RowWasOpen(b.ledger.trades, once.ledger.trades, j);
  }

  lemma RowWasOpen(before: seq<Trade>, after: seq<Trade>, j: nat)
    requires OnlyFlagged(before, after) && j < |after| && after[j].exit.None?
    ensures InRows(OpenTrades(before), after[j].id)
  {
    assert SameButFlag(before[j], after[j]);
    OpenTradesAre(before, before[j]);
    var k :| 0 <= k < |OpenTrades(before)| && OpenTrades(before)[k] == before[j];
  }

  /** Recovering again changes nothing: every row is skipped. */
  lemma RecoveryIsIdempotent(b: Books)
    ensures var once := Recover(b);
      Recover(once.books) == Recovery(once.books, Tally(0, |OpenTrades(once.books.ledger.trades)|, 0))
  {
    var once := Recover(b).books;
    var again := OpenTrades(once.ledger.trades);
    forall i | 0 <= i < |again|
      ensures Known(once.monitor, again[i].id)
    {
      OpenRowIsKnown(b, again[i]);
    }
    AllKnownSkips(once, again);
  }
}
