/** The position monitor: polls of open positions, sells in flight, and trades blocked until a human reconciles them. */
module PositionMonitor {
  import opened Prelude
  import opened L = TradeLedger

  /** Past this, a sell that could not be priced is escalated instead of retried. */
  const MAX_SELL_DEFERRAL_MS := 60_000

  datatype Config = Config(dailyStartingBalance: Sol, dailyLossLimitPct: int)

  datatype Outcome = Executed | NotExecuted | Unknown

  /** A settled sell: what happened, when, and the net amount it brought. */
  datatype Fill = Fill(outcome: Outcome, retryable: bool, timestampMs: int, filledAmount: Sol)

  /** Positions carry the size they were entered with. */
  datatype Monitor = Monitor(
    positions: map<TradeId, Sol>, closing: set<TradeId>, deferredSince: map<TradeId, int>, flagged: set<TradeId>,
    deferrals: nat, reconciliationEvents: nat, emergencyStop: bool)

  const FRESH := Monitor(map[], {}, map[], {}, 0, 0, false)

  datatype Books = Books(ledger: Ledger, monitor: Monitor)

  predicate MayPoll(m: Monitor, id: TradeId) {
    id !in m.closing && id !in m.flagged
  }

  function Flag(m: Monitor, id: TradeId): Monitor {
    m.(flagged := m.flagged + {id}, reconciliationEvents := m.reconciliationEvents + 1, emergencyStop := true)
  }

  /** A sell not known to have executed is retried only while it is retryable and was first deferred recently. */
  predicate RetriesLater(m: Monitor, id: TradeId, fill: Fill) {
    && fill.outcome.NotExecuted? && fill.retryable
    && (id in m.deferredSince ==> fill.timestampMs - m.deferredSince[id] < MAX_SELL_DEFERRAL_MS)
  }

  function HandleUnexecuted(m: Monitor, id: TradeId, fill: Fill): Monitor {
    if RetriesLater(m, id, fill) then
      var since := if id in m.deferredSince then m.deferredSince[id] else fill.timestampMs;
      m.(deferredSince := m.deferredSince[id := since], deferrals := m.deferrals + 1)
    else Flag(m.(deferredSince := m.deferredSince - {id}), id)
  }

  /** What the process knows once a sell has settled, its exit transaction having committed or not. */
  function Settled(c: Config, b: Books, id: TradeId, size: Sol, fill: Fill, committed: bool, markPersists: bool): Books {
    var m := b.monitor.(closing := b.monitor.closing - {id});
    if !fill.outcome.Executed? then Books(b.ledger, HandleUnexecuted(m, id, fill))
    else if committed then
      var exit := Exit(fill.timestampMs, fill.filledAmount - size);
      Books(Booked(b.ledger, id, exit, c.dailyStartingBalance, c.dailyLossLimitPct),
            m.(deferredSince := m.deferredSince - {id}, positions := m.positions - {id}))
    else
      var trades := if markPersists then Flagged(b.ledger.trades, id, "exit_persistence_failed") else b.ledger.trades;
      Books(b.ledger.(trades := trades), Flag(m, id))
  }

  class PositionMonitor {
    const c: Config
    const ledger: L.TradeLedger
    var positions: map<TradeId, Sol>
    var closing: set<TradeId>
    var deferredSince: map<TradeId, int>
    var reconciliationNeeded: set<TradeId>
    var sellDeferrals: nat
    var sellReconciliationEvents: nat
    var emergencyStop: bool

    ghost function View(): Monitor
      reads this
    {
      Monitor(positions, closing, deferredSince, reconciliationNeeded, sellDeferrals, sellReconciliationEvents,
              emergencyStop)
    }

    constructor (config: Config, table: L.TradeLedger)
      ensures c == config && ledger == table && View() == FRESH
    {
      c, ledger := config, table;
      positions, closing, deferredSince, reconciliationNeeded := map[], {}, map[], {};
      sellDeferrals, sellReconciliationEvents, emergencyStop := 0, 0, false;
    }

    method AddPosition(id: TradeId, size: Sol)
      modifies this
      ensures View() == old(View()).(positions := old(positions)[id := size])
    {
      positions := positions[id := size];
    }

    method MarkReconciliationNeeded(id: TradeId)
      modifies this
      ensures View() == Flag(old(View()), id)
    {
      reconciliationNeeded := reconciliationNeeded + {id};
      sellReconciliationEvents := sellReconciliationEvents + 1;
      emergencyStop := true;
    }

    /** A poll proceeds only while no sell of the trade is in flight and no human is needed. */
    method PollProceeds(id: TradeId) returns (proceeds: bool)
      ensures proceeds <==> MayPoll(View(), id)
    {
      if id in closing {
        return false;
      }
      if id in reconciliationNeeded {
        return false;
      }
      proceeds := true;
    }

    method BeginSell(id: TradeId)
      modifies this
      ensures View() == old(View()).(closing := old(closing) + {id})
    {
      closing := closing + {id};
    }

    /** A sell that throws only takes its mark away. */
    method SellThrew(id: TradeId)
      modifies this
      ensures View() == old(View()).(closing := old(closing) - {id})
    {
      closing := closing - {id};
    }

    method HandleUnexecutedSell(id: TradeId, fill: Fill)
      modifies this
      ensures View() == HandleUnexecuted(old(View()), id, fill)
    {
      if fill.outcome.NotExecuted? && fill.retryable {
        var since := fill.timestampMs;
        if id in deferredSince {
          since := deferredSince[id];
        }
        if fill.timestampMs - since < MAX_SELL_DEFERRAL_MS {
          deferredSince := deferredSince[id := since];
          sellDeferrals := sellDeferrals + 1;
          return;
        }
      }
      deferredSince := deferredSince - {id};
      MarkReconciliationNeeded(id);
    }

    /** The part of closePosition after the sell has settled. */
    method SellSettled(id: TradeId, size: Sol, fill: Fill, throws: Option<Statement>, markPersists: bool)
      returns (committed: bool)
      modifies this, ledger
      ensures Books(ledger.View(), View())
        == Settled(c, old(Books(ledger.View(), View())), id, size, fill, committed, markPersists)
      ensures throws.None? && fill.outcome.Executed? ==> committed
    {
      closing := closing - {id};
      committed := false;
      if !fill.outcome.Executed? {
        HandleUnexecutedSell(id, fill);
        return;
      }
      var exit := Exit(fill.timestampMs, fill.filledAmount - size);
      committed := ledger.RunExitTransaction(id, exit, c.dailyStartingBalance, c.dailyLossLimitPct, throws);
      if !committed {
        if markPersists {
          ledger.MarkReconciliationNeeded(id, "exit_persistence_failed");
        }
        MarkReconciliationNeeded(id);
        return;
      }
      deferredSince := deferredSince - {id};
      positions := positions - {id};
    }
  }

  /** Unexecuted sells of one trade, one after another. */
  function HandleAll(m: Monitor, id: TradeId, fills: seq<Fill>): Monitor {
    if fills == [] then m else HandleUnexecuted(HandleAll(m, id, fills[..|fills| - 1]), id, fills[|fills| - 1])
  }

  /**
   * Retrying is bounded: as long as a trade is not flagged, every sell of it that did not execute was retryable and
   * came less than the limit after the first of them; so the first that is not, or comes later, flags it.
   */
  lemma {:induction false} DeferralIsBounded(m: Monitor, id: TradeId, fills: seq<Fill>)
    requires id !in m.flagged && id !in m.deferredSince && fills != []
    requires forall i | 0 <= i < |fills| :: !fills[i].outcome.Executed?
    ensures var after := HandleAll(m, id, fills);
      && (id !in after.flagged <==>
            forall i | 0 <= i < |fills| ::
              && fills[i].outcome.NotExecuted? && fills[i].retryable
              && fills[i].timestampMs - fills[0].timestampMs < MAX_SELL_DEFERRAL_MS)
      && (id !in after.flagged ==> id in after.deferredSince && after.deferredSince[id] == fills[0].timestampMs)
      && after.positions == m.positions
      && (id in after.flagged ==> after.emergencyStop)
    decreases |fills|
  {
    var n := |fills| - 1;
    var front, last := fills[..n], fills[n];
    if front == [] {
      assert HandleAll(m, id, front) == m;
    } else {
      DeferralIsBounded(m, id, front);
      assert forall i | 0 <= i < n :: front[i] == fills[i];
    }
  }
}
