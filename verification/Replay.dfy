/**
 * The replay of recorded snapshots: all mints merged into one stream by time, then folded event by event. Scores,
 * edges, exit conditions and fills are functions of what is visible at the event.
 */
module Replay {
  import opened Prelude
  import opened OrderedMaps
  import L = TradeLedger
  import opened K = EntryRisk

  type Mint = L.Mint
  type Sol = L.Sol

  /** A recorded snapshot: its time, what the engine itself reads of it, and everything else. */
  datatype Snapshot = Snapshot(observedAtMs: int, price: Option<int>, liquidity: Option<int>, rest: nat)

  datatype Event = Event(mint: Mint, snapshot: Snapshot)

  type Input = OrderedMap<Mint, seq<Snapshot>>

  // ---- the global order ------------------------------------------------------------------------------------------------

  datatype Key = Key(timeMs: int, mint: Mint)

  function KeyOf(e: Event): Key {
    Key(e.snapshot.observedAtMs, e.mint)
  }

  /** Time first, the mint's name on ties. */
  predicate Before(a: Key, b: Key) {
    a.timeMs < b.timeMs || (a.timeMs == b.timeMs && a.mint <= b.mint)
  }

  function Insert(events: seq<Event>, e: Event): seq<Event> {
    if events == [] || Before(KeyOf(events[|events| - 1]), KeyOf(e)) then events + [e]
    else Insert(events[..|events| - 1], e) + [events[|events| - 1]]
  }

  /** The library's sort: in order of keys, equal keys keeping their order. */
  function StableSort(events: seq<Event>): seq<Event> {
    if events == [] then [] else Insert(StableSort(events[..|events| - 1]), events[|events| - 1])
  }

  function Tagged(mint: Mint, snapshots: seq<Snapshot>): seq<Event> {
    if snapshots == [] then []
    else Tagged(mint, snapshots[..|snapshots| - 1]) + [Event(mint, snapshots[|snapshots| - 1])]
  }

  function Flatten(input: Input): seq<Event> {
    if input == [] then []
    else
      var (mint, snapshots) := input[|input| - 1];
      Flatten(input[..|input| - 1]) + Tagged(mint, snapshots)
  }

  function Merged(input: Input): seq<Event> {
    StableSort(Flatten(input))
  }

  method MergeGlobally(input: Input) returns (events: seq<Event>)
    ensures events == Merged(input)
  {
    events := [];
    var i := 0;
    while i < |input|
      invariant i <= |input| && events == Flatten(input[..i])
    {
      var (mint, snapshots) := input[i];
      var j := 0;
      while j < |snapshots|
        invariant j <= |snapshots| && events == Flatten(input[..i]) + Tagged(mint, snapshots[..j])
      {
        assert snapshots[..j + 1][..j] == snapshots[..j];
        events := events + [Event(mint, snapshots[j])];
        j := j + 1;
      }
      assert snapshots[..j] == snapshots && input[..i + 1][..i] == input[..i];
      i := i + 1;
    }
    assert input[..i] == input;
    events := StableSort(events);
  }

  ghost predicate Ordered(events: seq<Event>) {
    forall i, j | 0 <= i < j < |events| :: Before(KeyOf(events[i]), KeyOf(events[j]))
  }

  /** The events of one key, in order. */
  function At(events: seq<Event>, k: Key): seq<Event> {
    if events == [] then []
    else
      var last := events[|events| - 1];
      At(events[..|events| - 1], k) + if KeyOf(last) == k then [last] else []
  }

  lemma {:induction false} InsertKeepsOrder(events: seq<Event>, e: Event)
    requires Ordered(events)
    ensures Ordered(Insert(events, e)) && |Insert(events, e)| == |events| + 1
    ensures forall x | x in Insert(events, e) :: x in events || x == e
    decreases |events|
  {
    if events != [] && !Before(KeyOf(events[|events| - 1]), KeyOf(e)) {
      var front, last := events[..|events| - 1], events[|events| - 1];
      InsertKeepsOrder(front, e);
      var inner := Insert(front, e);
      forall x | x in inner
        ensures Before(KeyOf(x), KeyOf(last))
      {
        if x != e {
          var i :| 0 <= i < |front| && front[i] == x;
          assert events[i] == x;
        }
      }
    }
  }

  /** An event is inserted after the others of its key. */
  lemma {:induction false} InsertGoesLast(events: seq<Event>, e: Event, k: Key)
    ensures At(Insert(events, e), k) == At(events, k) + if KeyOf(e) == k then [e] else []
    decreases |events|
  {
    if events == [] || Before(KeyOf(events[|events| - 1]), KeyOf(e)) {
      assert (events + [e])[..|events|] == events;
    } else {
      var front, last := events[..|events| - 1], events[|events| - 1];
      InsertGoesLast(front, e, k);
      var inner := Insert(front, e);
      assert (inner + [last])[..|inner|] == inner;
    }
  }

  lemma {:induction false} SortIsStable(events: seq<Event>, k: Key)
    ensures Ordered(StableSort(events)) && At(StableSort(events), k) == At(events, k)
    decreases |events|
  {
    if events != [] {
      SortIsStable(events[..|events| - 1], k);
      InsertKeepsOrder(StableSort(events[..|events| - 1]), events[|events| - 1]);
      InsertGoesLast(StableSort(events[..|events| - 1]), events[|events| - 1], k);
    }
  }

  lemma {:induction false} AtConcat(a: seq<Event>, b: seq<Event>, k: Key)
    ensures At(a + b, k) == At(a, k) + At(b, k)
    decreases |b|
  {
    if b == [] {
      assert a + b == a;
    } else {
      AtConcat(a, b[..|b| - 1], k);
      assert (a + b)[..|a + b| - 1] == a + b[..|b| - 1];
    }
  }

  lemma {:induction false} OtherMintHasNone(mint: Mint, snapshots: seq<Snapshot>, k: Key)
    requires k.mint != mint
    ensures At(Tagged(mint, snapshots), k) == []
    decreases |snapshots|
  {
    if snapshots != [] {
      OtherMintHasNone(mint, snapshots[..|snapshots| - 1], k);
      var inner := Tagged(mint, snapshots[..|snapshots| - 1]);
      assert Tagged(mint, snapshots)[..|inner|] == inner;
    }
  }

  function SnapshotsOf(input: Input, mint: Mint): seq<Snapshot> {
    Get(input, mint).GetOr([])
  }

  /** The events of one key come from that mint's own snapshots only, wherever the map lists the mint. */
  lemma {:induction false} FlattenAt(input: Input, k: Key)
    requires Unique(input)
    ensures At(Flatten(input), k) == At(Tagged(k.mint, SnapshotsOf(input, k.mint)), k)
    decreases |input|
  {
    if input != [] {
      var n := |input| - 1;
      var front := input[..n];
      var (mint, snapshots) := input[n];
      FlattenAt(front, k);
      AtConcat(Flatten(front), Tagged(mint, snapshots), k);
      NotBefore(front, k.mint);
      NotBefore(input, k.mint);
      if mint == k.mint {
        FoundAt(input, n);
        assert !Has(front, k.mint);
      } else {
        OtherMintHasNone(mint, snapshots, k);
        if Has(front, k.mint) {
          FoundAt(input, IndexOf(front, k.mint));
        }
      }
    }
  }

  lemma {:induction false} AtHolds(events: seq<Event>, e: Event)
    requires e in events
    ensures e in At(events, KeyOf(e))
    decreases |events|
  {
    var front, last := events[..|events| - 1], events[|events| - 1];
    if e != last {
      assert events == front + [last];
      AtHolds(front, e);
    }
  }

  lemma {:induction false} AtIsFrom(events: seq<Event>, k: Key, e: Event)
    requires e in At(events, k)
    ensures e in events && KeyOf(e) == k
    decreases |events|
  {
    var front, last := events[..|events| - 1], events[|events| - 1];
    assert events == front + [last];
    if e in At(front, k) {
      AtIsFrom(front, k, e);
    }
  }

  lemma SomeKey(events: seq<Event>) returns (k: Key)
    requires events != []
    ensures At(events, k) != []
  {
    k := KeyOf(events[0]);
    AtHolds(events, events[0]);
  }

  /** Two ordered streams with the same events under every key are the same stream. */
  lemma {:induction false} OrderedStreamsAgree(a: seq<Event>, b: seq<Event>)
    requires Ordered(a) && Ordered(b) && forall k :: At(a, k) == At(b, k)
    ensures a == b
    decreases |a|
  {
    if a == [] {
      if b != [] {
        var k := SomeKey(b);
      }
    } else {
      var x := a[|a| - 1];
      AtHolds(a, x);
      AtIsFrom(b, KeyOf(x), x);
      var y := b[|b| - 1];
      AtHolds(b, y);
      AtIsFrom(a, KeyOf(y), y);
      assert At(a, KeyOf(x)) == At(b, KeyOf(x));
      SameLast(a, b);
      var frontA, frontB := a[..|a| - 1], b[..|b| - 1];
      forall k
        ensures At(frontA, k) == At(frontB, k)
      {
        assert At(a, k) == At(b, k);
        LastOff(a, b, k);
      }
      OrderedStreamsAgree(frontA, frontB);
    }
  }

  lemma SameLast(a: seq<Event>, b: seq<Event>)
    requires Ordered(a) && Ordered(b) && a != [] && b != []
    requires a[|a| - 1] in b && b[|b| - 1] in a
    requires At(a, KeyOf(a[|a| - 1])) == At(b, KeyOf(a[|a| - 1]))
    ensures a[|a| - 1] == b[|b| - 1]
  {
    var x, y := a[|a| - 1], b[|b| - 1];
    assert Before(KeyOf(x), KeyOf(y)) && Before(KeyOf(y), KeyOf(x));
    assert KeyOf(x) == KeyOf(y);
    var as_, bs := At(a, KeyOf(x)), At(b, KeyOf(x));
    assert as_[|as_| - 1] == x && bs[|bs| - 1] == y;
  }

  lemma CancelTail<T>(x: seq<T>, y: seq<T>, tail: seq<T>)
    requires x + tail == y + tail
    ensures x == y
  {
    assert |x| == |y|;
    assert x == (x + tail)[..|x|] && y == (y + tail)[..|y|];
  }

  lemma LastOff(a: seq<Event>, b: seq<Event>, k: Key)
    requires a != [] && b != [] && a[|a| - 1] == b[|b| - 1] && At(a, k) == At(b, k)
    ensures At(a[..|a| - 1], k) == At(b[..|b| - 1], k)
  {
    var x := a[|a| - 1];
    CancelTail(At(a[..|a| - 1], k), At(b[..|b| - 1], k), if KeyOf(x) == k then [x] else []);
  }

  /** The merged stream does not depend on the order in which the map lists the mints. */
  lemma MergeIgnoresMapOrder(a: Input, b: Input)
    requires Unique(a) && Unique(b) && forall m :: SnapshotsOf(a, m) == SnapshotsOf(b, m)
    ensures Merged(a) == Merged(b)
  {
    forall k
      ensures At(Merged(a), k) == At(Merged(b), k)
    {
      SortIsStable(Flatten(a), k);
      SortIsStable(Flatten(b), k);
      FlattenAt(a, k);
      FlattenAt(b, k);
    }
    SortIsStable(Flatten(a), Key(0, 0));
    SortIsStable(Flatten(b), Key(0, 0));
    OrderedStreamsAgree(Merged(a), Merged(b));
  }

  // ---- prefixes in time ------------------------------------------------------------------------------------------------

  function UpTo(events: seq<Event>, t: int): seq<Event> {
    if events == [] then []
    else
      var last := events[|events| - 1];
      UpTo(events[..|events| - 1], t) + if last.snapshot.observedAtMs <= t then [last] else []
  }

  function SnapshotsUpTo(snapshots: seq<Snapshot>, t: int): seq<Snapshot> {
    if snapshots == [] then []
    else
      var last := snapshots[|snapshots| - 1];
      SnapshotsUpTo(snapshots[..|snapshots| - 1], t) + if last.observedAtMs <= t then [last] else []
  }

  /** Two inputs agree on every snapshot observed up to t. */
  ghost predicate AgreeUpTo(a: Input, b: Input, t: int) {
    forall m :: SnapshotsUpTo(SnapshotsOf(a, m), t) == SnapshotsUpTo(SnapshotsOf(b, m), t)
  }

  lemma {:induction false} TaggedAtUpTo(mint: Mint, snapshots: seq<Snapshot>, k: Key, t: int)
    requires k.timeMs <= t
    ensures At(Tagged(mint, snapshots), k) == At(Tagged(mint, SnapshotsUpTo(snapshots, t)), k)
    decreases |snapshots|
  {
    if snapshots != [] {
      var front, last := snapshots[..|snapshots| - 1], snapshots[|snapshots| - 1];
      TaggedAtUpTo(mint, front, k, t);
      var inner := Tagged(mint, front);
      assert Tagged(mint, snapshots)[..|inner|] == inner;
      var kept := SnapshotsUpTo(front, t);
      if last.observedAtMs <= t {
        assert (kept + [last])[..|kept|] == kept;
        assert Tagged(mint, kept + [last])[..|Tagged(mint, kept)|] == Tagged(mint, kept);
      } else {
        assert kept + [] == kept;
      }
    }
  }

  lemma {:induction false} AllUpTo(events: seq<Event>, t: int)
    requires forall i | 0 <= i < |events| :: events[i].snapshot.observedAtMs <= t
    ensures UpTo(events, t) == events
    decreases |events|
  {
    if events != [] {
      AllUpTo(events[..|events| - 1], t);
    }
  }

  /** In an ordered stream the events up to t are a prefix, and everything after it is later than t. */
  lemma {:induction false} UpToIsPrefix(events: seq<Event>, t: int)
    requires Ordered(events)
    ensures UpTo(events, t) <= events
    ensures forall i | |UpTo(events, t)| <= i < |events| :: events[i].snapshot.observedAtMs > t
    decreases |events|
  {
    if events != [] {
      var n := |events| - 1;
      if events[n].snapshot.observedAtMs <= t {
        forall i | 0 <= i < |events|
          ensures events[i].snapshot.observedAtMs <= t
        {
          assert i < n ==> Before(KeyOf(events[i]), KeyOf(events[n]));
        }
        AllUpTo(events, t);
      } else {
        UpToIsPrefix(events[..n], t);
        assert UpTo(events, t) == UpTo(events[..n], t) + [];
      }
    }
  }

  lemma {:induction false} UpToAt(events: seq<Event>, k: Key, t: int)
    ensures At(UpTo(events, t), k) == if k.timeMs <= t then At(events, k) else []
    decreases |events|
  {
    if events != [] {
      var front, last := events[..|events| - 1], events[|events| - 1];
      UpToAt(front, k, t);
      var kept := UpTo(front, t);
      assert (kept + [last])[..|kept|] == kept;
      assert kept + [] == kept;
    }
  }

  /** Inputs that agree up to t merge into streams with the same prefix up to t. */
  lemma PrefixesAgree(a: Input, b: Input, t: int)
    requires Unique(a) && Unique(b) && AgreeUpTo(a, b, t)
    ensures UpTo(Merged(a), t) == UpTo(Merged(b), t)
  {
    forall k
      ensures At(UpTo(Merged(a), t), k) == At(UpTo(Merged(b), t), k)
    {
      UpToAt(Merged(a), k, t);
      UpToAt(Merged(b), k, t);
      if k.timeMs <= t {
        SortIsStable(Flatten(a), k);
        SortIsStable(Flatten(b), k);
        FlattenAt(a, k);
        FlattenAt(b, k);
        TaggedAtUpTo(k.mint, SnapshotsOf(a, k.mint), k, t);
        TaggedAtUpTo(k.mint, SnapshotsOf(b, k.mint), k, t);
      }
    }
    SortIsStable(Flatten(a), Key(0, 0));
    SortIsStable(Flatten(b), Key(0, 0));
    UpToIsPrefix(Merged(a), t);
    UpToIsPrefix(Merged(b), t);
    OrderedStreamsAgree(UpTo(Merged(a), t), UpTo(Merged(b), t));
  }

  // ---- the fold --------------------------------------------------------------------------------------------------------

  datatype PricePoint = PricePoint(price: int, liquidity: int, timeMs: int)

  /** What is fixed at the entry of a simulated trade. */
  datatype Entry = Entry(
    tradeId: nat, mint: Mint, reentryIndex: nat, timeMs: int, price: int, size: Sol, filledAmount: Sol, plan: nat)

  datatype Position = Position(entry: Entry, priceHistory: seq<PricePoint>, peak: int, trough: int)

  datatype SellFill = SellFill(filledAmount: Sol, fees: Sol)

  datatype ExitFacts = ExitFacts(timeMs: int, price: int, reason: nat, fees: Sol, filledAmount: Sol, pnl: Sol)

  /** A resulting trade; without an exit it was still open at the end of the data. */
  datatype Trade = Trade(entry: Entry, peak: int, trough: int, exit: Option<ExitFacts>)

  /**
   * The strategy under replay: when a position exits and why, how a sell fills (absent when its impact was not
   * recorded), whether a snapshot passes every filter before risk, and what a buy fills.
   */
  datatype Strategy = Strategy(
    hard: HardRisk, policy: ReentryPolicy, startingBalance: Sol,
    exits: (Position, Snapshot) -> Option<nat>,
    sellFill: (Position, Snapshot) -> Option<SellFill>,
    wants: Snapshot -> Option<nat>,
    buyFill: (Sol, Snapshot) -> Sol)

  datatype State = State(
    open: OrderedMap<Mint, Position>, daily: map<int, L.DailyRow>, history: map<Mint, TokenHistory>,
    trades: seq<Trade>, counter: nat, deferred: nat)

  const START := State([], map[], map[], [], 0, 0)

  function HistoryOf(history: map<Mint, TokenHistory>, mint: Mint): TokenHistory {
    if mint in history then history[mint] else TokenHistory(0, 0, None)
  }

  function LastLiquidity(points: seq<PricePoint>): int {
    if points == [] then 0 else points[|points| - 1].liquidity
  }

  function Observed(pos: Position, s: Snapshot, price: int): Position {
    var point := PricePoint(price, s.liquidity.GetOr(LastLiquidity(pos.priceHistory)), s.observedAtMs);
    pos.(priceHistory := pos.priceHistory + [point], peak := if price > pos.peak then price else pos.peak,
         trough := if price < pos.trough then price else pos.trough)
  }

  function Closed(pos: Position, s: Snapshot, price: int, reason: nat, fill: SellFill): Trade {
    var exit := ExitFacts(s.observedAtMs, price, reason, fill.fees, fill.filledAmount, fill.filledAmount - pos.entry.size);
    Trade(pos.entry, pos.peak, pos.trough, Some(exit))
  }

  function StillOpen(pos: Position): Trade {
    Trade(pos.entry, pos.peak, pos.trough, None)
  }

  function AfterExit(h: TokenHistory, timeMs: int, pnl: Sol): TokenHistory {
    TokenHistory(h.totalTrades + 1, if pnl < 0 then h.consecutiveLosses + 1 else 0, Some(timeMs))
  }

  function DayAfterExit(row: L.DailyRow, pnl: Sol, limitPct: int): L.DailyRow {
    var realized := row.realizedPnl + pnl;
    row.(realizedPnl := realized, breaker := BreakerLatches(row.breaker, realized, row.startingBalance, limitPct))
  }

  function WhileOpen(p: Strategy, st: State, e: Event, pos: Position, price: int): State {
    var s := e.snapshot;
    var seen := Observed(pos, s, price);
    var kept := st.(open := Set(st.open, e.mint, seen));
    match p.exits(seen, s)
    case None => kept
    case Some(reason) =>
      match p.sellFill(seen, s)
      case None => kept.(deferred := st.deferred + 1)
      case Some(fill) =>
        var day := L.DayOf(s.observedAtMs);
        var daily := L.WithDay(st.daily, day, p.startingBalance);
        var pnl := fill.filledAmount - pos.entry.size;
        st.(open := Delete(st.open, e.mint),
            trades := st.trades + [Closed(seen, s, price, reason, fill)],
            daily := daily[day := DayAfterExit(daily[day], pnl, p.hard.dailyLossLimitPct)],
            history := st.history[e.mint := AfterExit(HistoryOf(st.history, e.mint), s.observedAtMs, pnl)])
  }

  function OpenPositions(open: OrderedMap<Mint, Position>): seq<OpenPosition> {
    seq(|open|, i requires 0 <= i < |open| => OpenPosition(open[i].1.entry.mint, open[i].1.entry.size))
  }

  function ContextAt(st: State, row: L.DailyRow, e: Event): Context {
    Context(OpenPositions(st.open), row.realizedPnl, row.startingBalance, row.breaker, false,
            HistoryOf(st.history, e.mint), e.snapshot.observedAtMs)
  }

  function Opened(p: Strategy, st: State, e: Event, price: int, plan: nat, filled: Sol): Position {
    var s := e.snapshot;
    var index := HistoryOf(st.history, e.mint).totalTrades;
    var entry := Entry(st.counter + 1, e.mint, index, s.observedAtMs, price, p.hard.positionSize, filled, plan);
    Position(entry, [PricePoint(price, s.liquidity.GetOr(0), s.observedAtMs)], price, price)
  }

  function Consider(p: Strategy, st: State, e: Event, price: int, plan: nat): State {
    var s := e.snapshot;
    var day := L.DayOf(s.observedAtMs);
    var daily := L.WithDay(st.daily, day, p.startingBalance);
    var ctx := ContextAt(st, daily[day], e);
    var latches :=
      BreakerLatches(ctx.breakerAlreadyTriggered, ctx.dailyPnl, ctx.dailyStartingBalance, p.hard.dailyLossLimitPct);
    var noted := st.(daily := daily[day := daily[day].(breaker := daily[day].breaker || latches)]);
    var filled := p.buyFill(p.hard.positionSize, s);
    if !Allowed(ctx, p.hard, p.policy) || filled <= 0 then noted
    else noted.(open := Set(st.open, e.mint, Opened(p, st, e, price, plan, filled)), counter := st.counter + 1)
  }

  function OnEvent(p: Strategy, st: State, e: Event): State {
    var s := e.snapshot;
    if s.price.None? then st
    else
      match Get(st.open, e.mint)
      case Some(pos) => WhileOpen(p, st, e, pos, s.price.value)
      case None =>
        match p.wants(s)
        case None => st
        case Some(plan) => Consider(p, st, e, s.price.value, plan)
  }

  function Run(p: Strategy, events: seq<Event>): State {
    if events == [] then START else OnEvent(p, Run(p, events[..|events| - 1]), events[|events| - 1])
  }

  function StillOpenTrades(open: OrderedMap<Mint, Position>): seq<Trade> {
    seq(|open|, i requires 0 <= i < |open| => StillOpen(open[i].1))
  }

  function Result(p: Strategy, events: seq<Event>): seq<Trade> {
    Run(p, events).trades + StillOpenTrades(Run(p, events).open)
  }

  /** The event loop: one pass over the merged stream, then the positions still open, in the order they were opened. */
  method RunReplay(p: Strategy, input: Input) returns (trades: seq<Trade>, deferred: nat)
    ensures trades == Result(p, Merged(input)) && deferred == Run(p, Merged(input)).deferred
  {
    var events := MergeGlobally(input);
    var open: OrderedMap<Mint, Position> := [];
    var daily: map<int, L.DailyRow> := map[];
    var history: map<Mint, TokenHistory> := map[];
    var counter := 0;
    trades, deferred := [], 0;
    var i := 0;
    while i < |events|
      invariant i <= |events|
      invariant State(open, daily, history, trades, counter, deferred) == Run(p, events[..i])
    {
      var e := events[i];
      assert events[..i + 1][..i] == events[..i];
      i := i + 1;
      var s := e.snapshot;
      if s.price.None? {
        continue;
      }
      var day := L.DayOf(s.observedAtMs);
      if Has(open, e.mint) {
        var pos := Observed(open[IndexOf(open, e.mint)].1, s, s.price.value);
        var reason, fill := p.exits(pos, s), p.sellFill(pos, s);
        if reason.Some? && fill.Some? {
          trades := trades + [Closed(pos, s, s.price.value, reason.value, fill.value)];
          open := Delete(open, e.mint);
          var pnl := fill.value.filledAmount - pos.entry.size;
          daily := L.WithDay(daily, day, p.startingBalance);
          daily := daily[day := DayAfterExit(daily[day], pnl, p.hard.dailyLossLimitPct)];
          history := history[e.mint := AfterExit(HistoryOf(history, e.mint), s.observedAtMs, pnl)];
        } else {
          open := Set(open, e.mint, pos);
          if reason.Some? {
            deferred := deferred + 1;
          }
        }
        continue;
      }
      var plan := p.wants(s);
      if plan.None? {
        continue;
      }
      var st := State(open, daily, history, trades, counter, deferred);
      daily := L.WithDay(daily, day, p.startingBalance);
      var ctx := ContextAt(st, daily[day], e);
      var d := EvaluateEntryRisk(ctx, p.hard, p.policy);
      daily := daily[day := daily[day].(breaker := daily[day].breaker || d.breakerTriggered)];
      var filled := p.buyFill(p.hard.positionSize, s);
      if d.allowed && filled > 0 {
        open := Set(open, e.mint, Opened(p, st, e, s.price.value, plan.value, filled));
        counter := counter + 1;
      }
    }
    assert events[..i] == events;
    var k := 0;
    ghost var closed := trades;
    while k < |open|
      invariant k <= |open| && trades == closed + StillOpenTrades(open)[..k]
    {
      trades := trades + [StillOpen(open[k].1)];
      k := k + 1;
    }
  }

  /** A replay does not depend on the order in which its input map lists the mints. */
  lemma ReplayIgnoresMapOrder(p: Strategy, a: Input, b: Input)
    requires Unique(a) && Unique(b) && forall m :: SnapshotsOf(a, m) == SnapshotsOf(b, m)
    ensures Result(p, Merged(a)) == Result(p, Merged(b))
    ensures Run(p, Merged(a)).deferred == Run(p, Merged(b)).deferred
  {
    MergeIgnoresMapOrder(a, b);
  }

  // ---- no look-ahead ---------------------------------------------------------------------------------------------------

  /** The trades closed up to t, in the order they were closed. */
  function ClosedUpTo(trades: seq<Trade>, t: int): seq<Trade> {
    if trades == [] then []
    else
      var last := trades[|trades| - 1];
      ClosedUpTo(trades[..|trades| - 1], t) + if last.exit.Some? && last.exit.value.timeMs <= t then [last] else []
  }

  ghost predicate HasEntry(trades: seq<Trade>, entry: Entry) {
    exists i :: 0 <= i < |trades| && trades[i].entry == entry
  }

  ghost predicate HoldsEntry(open: OrderedMap<Mint, Position>, entry: Entry) {
    exists i :: 0 <= i < |open| && open[i].1.entry == entry
  }

  ghost predicate Entered(st: State, entry: Entry) {
    HasEntry(st.trades, entry) || HoldsEntry(st.open, entry)
  }

  lemma OneMoreTrade(trades: seq<Trade>, one: Trade, t: int, entry: Entry)
    ensures ClosedUpTo(trades + [one], t)
      == ClosedUpTo(trades, t) + if one.exit.Some? && one.exit.value.timeMs <= t then [one] else []
    ensures HasEntry(trades + [one], entry) <==> HasEntry(trades, entry) || one.entry == entry
  {
    var after := trades + [one];
    assert after[..|trades|] == trades;
    if HasEntry(trades, entry) {
      var i :| 0 <= i < |trades| && trades[i].entry == entry;
      assert after[i].entry == entry;
    } else if one.entry == entry {
      assert after[|trades|].entry == entry;
    }
  }

  /** Replacing a position in place, or adding one, and taking one out, by the entries held. */
  lemma HeldAfterSet(open: OrderedMap<Mint, Position>, mint: Mint, pos: Position, entry: Entry)
    requires Has(open, mint) ==> open[IndexOf(open, mint)].1.entry == pos.entry
    ensures HoldsEntry(Set(open, mint, pos), entry) <==> HoldsEntry(open, entry) || entry == pos.entry
  {
    var after := Set(open, mint, pos);
    if HoldsEntry(open, entry) {
      var i :| 0 <= i < |open| && open[i].1.entry == entry;
      assert after[i].1.entry == entry;
    } else if entry == pos.entry {
      assert after[IndexOf(open, mint)].1.entry == entry;
    }
  }

  /** Where an entry stands after another one is taken out. */
  lemma PlaceAfterDelete(open: OrderedMap<Mint, Position>, mint: Mint, i: nat) returns (j: nat)
    requires Has(open, mint) && i < |open| && i != IndexOf(open, mint)
    ensures j < |Delete(open, mint)| && Delete(open, mint)[j] == open[i]
  {
    var at := IndexOf(open, mint);
    assert Delete(open, mint) == open[..at] + open[at + 1..];
    j := if i < at then i else i - 1;
  }

  lemma StillHeldAfterDelete(open: OrderedMap<Mint, Position>, mint: Mint, entry: Entry)
    requires Has(open, mint) && HoldsEntry(open, entry) && entry != open[IndexOf(open, mint)].1.entry
    ensures HoldsEntry(Delete(open, mint), entry)
  {
    var i :| 0 <= i < |open| && open[i].1.entry == entry;
    var j := PlaceAfterDelete(open, mint, i);
    assert Delete(open, mint)[j].1.entry == entry;
  }

  lemma PlaceBeforeDelete(open: OrderedMap<Mint, Position>, mint: Mint, i: nat) returns (j: nat)
    requires Has(open, mint) && i < |Delete(open, mint)|
    ensures j < |open| && open[j] == Delete(open, mint)[i]
  {
    var at := IndexOf(open, mint);
    assert Delete(open, mint) == open[..at] + open[at + 1..];
    j := if i < at then i else i + 1;
  }

  lemma HeldBeforeDelete(open: OrderedMap<Mint, Position>, mint: Mint, entry: Entry)
    requires Has(open, mint) && HoldsEntry(Delete(open, mint), entry)
    ensures HoldsEntry(open, entry)
  {
    var i :| 0 <= i < |Delete(open, mint)| && Delete(open, mint)[i].1.entry == entry;
    var j := PlaceBeforeDelete(open, mint, i);
    assert open[j].1.entry == entry;
  }

  lemma HeldAfterDelete(open: OrderedMap<Mint, Position>, mint: Mint, entry: Entry)
    requires Has(open, mint)
    ensures HoldsEntry(open, entry)
      <==> HoldsEntry(Delete(open, mint), entry) || entry == open[IndexOf(open, mint)].1.entry
  {
    if HoldsEntry(Delete(open, mint), entry) {
      HeldBeforeDelete(open, mint, entry);
    } else if HoldsEntry(open, entry) && entry != open[IndexOf(open, mint)].1.entry {
      StillHeldAfterDelete(open, mint, entry);
    }
  }

  /** An event later than t neither closes a trade up to t nor adds or loses an entry up to t. */
  lemma LateEventChangesNothing(p: Strategy, st: State, e: Event, t: int, entry: Entry)
    requires e.snapshot.observedAtMs > t
    ensures ClosedUpTo(OnEvent(p, st, e).trades, t) == ClosedUpTo(st.trades, t)
    ensures entry.timeMs <= t ==> (Entered(OnEvent(p, st, e), entry) <==> Entered(st, entry))
  {
    var s := e.snapshot;
    if s.price.None? {
    } else if Has(st.open, e.mint) {
      var pos := st.open[IndexOf(st.open, e.mint)].1;
      var seen := Observed(pos, s, s.price.value);
      var reason, fill := p.exits(seen, s), p.sellFill(seen, s);
      if reason.Some? && fill.Some? {
        OneMoreTrade(st.trades, Closed(seen, s, s.price.value, reason.value, fill.value), t, entry);
        HeldAfterDelete(st.open, e.mint, entry);
      } else {
        HeldAfterSet(st.open, e.mint, seen, entry);
      }
    } else if p.wants(s).Some? {
      var plan := p.wants(s).value;
      var filled := p.buyFill(p.hard.positionSize, s);
      HeldAfterSet(st.open, e.mint, Opened(p, st, e, s.price.value, plan, filled), entry);
    }
  }

  lemma {:induction false} LateEventsChangeNothing(p: Strategy, events: seq<Event>, n: nat, t: int, entry: Entry)
    requires n <= |events| && forall i | n <= i < |events| :: events[i].snapshot.observedAtMs > t
    ensures ClosedUpTo(Run(p, events).trades, t) == ClosedUpTo(Run(p, events[..n]).trades, t)
    ensures entry.timeMs <= t ==> (Entered(Run(p, events), entry) <==> Entered(Run(p, events[..n]), entry))
    decreases |events|
  {
    if n == |events| {
      assert events[..n] == events;
    } else {
      var front := events[..|events| - 1];
      LateEventsChangeNothing(p, front, n, t, entry);
      assert front[..n] == events[..n];
      LateEventChangesNothing(p, Run(p, front), events[|events| - 1], t, entry);
    }
  }

  lemma {:induction false} StillOpenAddsNoExit(trades: seq<Trade>, open: OrderedMap<Mint, Position>, t: int, entry: Entry)
    ensures ClosedUpTo(trades + StillOpenTrades(open), t) == ClosedUpTo(trades, t)
    ensures HasEntry(trades + StillOpenTrades(open), entry) <==> HasEntry(trades, entry) || HoldsEntry(open, entry)
    decreases |open|
  {
    if open == [] {
      assert trades + StillOpenTrades(open) == trades;
    } else {
      var front, last := open[..|open| - 1], open[|open| - 1];
      StillOpenAddsNoExit(trades, front, t, entry);
      assert trades + StillOpenTrades(open) == trades + StillOpenTrades(front) + [StillOpen(last.1)];
      OneMoreTrade(trades + StillOpenTrades(front), StillOpen(last.1), t, entry);
      if HoldsEntry(front, entry) {
        var i :| 0 <= i < |front| && front[i].1.entry == entry;
        assert open[i].1.entry == entry;
      }
    }
  }

  /**
   * No look-ahead: two inputs that agree on every snapshot up to t give the same trades closed up to t, in the same
   * order, and the same entries up to t, whatever is recorded later.
   */
  lemma ReplayNeverLooksAhead(p: Strategy, a: Input, b: Input, t: int, entry: Entry)
    requires Unique(a) && Unique(b) && AgreeUpTo(a, b, t)
    ensures ClosedUpTo(Result(p, Merged(a)), t) == ClosedUpTo(Result(p, Merged(b)), t)
    ensures entry.timeMs <= t ==> (HasEntry(Result(p, Merged(a)), entry) <==> HasEntry(Result(p, Merged(b)), entry))
  {
    PrefixesAgree(a, b, t);
    OnlyThePastCounts(p, a, t, entry);
    OnlyThePastCounts(p, b, t, entry);
  }

  /** What a replay says of the time up to t is what it says of the stream cut off at t. */
  lemma OnlyThePastCounts(p: Strategy, a: Input, t: int, entry: Entry)
    ensures ClosedUpTo(Result(p, Merged(a)), t) == ClosedUpTo(Run(p, UpTo(Merged(a), t)).trades, t)
    ensures entry.timeMs <= t ==>
      (HasEntry(Result(p, Merged(a)), entry) <==> Entered(Run(p, UpTo(Merged(a), t)), entry))
  {
    var events := Merged(a);
    SortIsStable(Flatten(a), Key(0, 0));
    UpToIsPrefix(events, t);
    var n := |UpTo(events, t)|;
    assert events[..n] == UpTo(events, t);
    LateEventsChangeNothing(p, events, n, t, entry);
    StillOpenAddsNoExit(Run(p, events).trades, Run(p, events).open, t, entry);
  }

  // ---- each entry once, within the limits --------------------------------------------------------------------------------

  function TradeIds(trades: seq<Trade>): seq<nat> {
    seq(|trades|, i requires 0 <= i < |trades| => trades[i].entry.tradeId)
  }

  function OpenIds(open: OrderedMap<Mint, Position>): seq<nat> {
    seq(|open|, i requires 0 <= i < |open| => open[i].1.entry.tradeId)
  }

  /** Numbers of the closed trades, then of the open positions. */
  function Ids(trades: seq<Trade>, open: OrderedMap<Mint, Position>): seq<nat> {
    TradeIds(trades) + OpenIds(open)
  }

  ghost predicate Distinct(ids: seq<nat>, last: nat) {
    && (forall i | 0 <= i < |ids| :: 1 <= ids[i] <= last)
    && forall i, j | 0 <= i < j < |ids| :: ids[i] != ids[j]
  }

  /** Every entry numbered so far stands once among the closed trades and the open positions. */
  ghost predicate EachOnce(st: State) {
    |st.trades| + |st.open| == st.counter && Distinct(Ids(st.trades, st.open), st.counter)
  }

  /** Moving one number from the open ones to the closed ones keeps all of them distinct. */
  lemma MovingKeepsDistinct(closed: seq<nat>, open: seq<nat>, k: nat, last: nat)
    requires Distinct(closed + open, last) && k < |open|
    ensures Distinct((closed + [open[k]]) + (open[..k] + open[k + 1..]), last)
  {
    var n := |closed|;
    var all, moved := closed + open, (closed + [open[k]]) + (open[..k] + open[k + 1..]);
    forall i | 0 <= i < |moved|
      ensures moved[i] == all[Origin(n, k, i)]
    {}
    forall i, j | 0 <= i < j < |moved|
      ensures moved[i] != moved[j]
    {
      assert moved[i] == all[Origin(n, k, i)] && moved[j] == all[Origin(n, k, j)];
    }
  }

  /** Where the number at place i stood before the move. */
  function Origin(n: nat, k: nat, i: nat): nat {
    if i < n then i else if i == n then n + k else if i <= n + k then i - 1 else i
  }

  /** The replay takes positions of one size, within the hard limits. */
  ghost predicate WithinLimits(p: Strategy, st: State) {
    && (forall i | 0 <= i < |st.open| :: st.open[i].1.entry.size == p.hard.positionSize)
    && |st.open| <= p.hard.maxConcurrentPositions
    && Exposure(OpenPositions(st.open)) <= p.hard.maxTotalExposure
  }

  lemma {:induction false} ExposureWithout(open: seq<OpenPosition>, at: nat)
    requires at < |open|
    ensures Exposure(open[..at] + open[at + 1..]) == Exposure(open) - open[at].size
    decreases |open|
  {
    var n := |open| - 1;
    if at == n {
      assert open[..at] + open[at + 1..] == open[..n];
    } else {
      ExposureWithout(open[..n], at);
      RestAndLast(open, at);
      OneMoreOpen(open[..n][..at] + open[..n][at + 1..], open[n]);
    }
  }

  lemma RestAndLast<T>(s: seq<T>, at: nat)
    requires at < |s| - 1
    ensures var n := |s| - 1; s[..at] + s[at + 1..] == s[..n][..at] + s[..n][at + 1..] + [s[n]]
  {}

  lemma OneMoreOpen(open: seq<OpenPosition>, last: OpenPosition)
    ensures Exposure(open + [last]) == Exposure(open) + last.size
  {
    assert (open + [last])[..|open|] == open;
  }

  lemma OpenIdsAfterDelete(open: OrderedMap<Mint, Position>, mint: Mint)
    requires Has(open, mint)
    ensures var k := IndexOf(open, mint); OpenIds(Delete(open, mint)) == OpenIds(open)[..k] + OpenIds(open)[k + 1..]
  {}

  lemma ClosingKeepsEachOnce(trades: seq<Trade>, open: OrderedMap<Mint, Position>, mint: Mint, closed: Trade, last: nat)
    requires Distinct(Ids(trades, open), last) && Has(open, mint)
    requires closed.entry == open[IndexOf(open, mint)].1.entry
    ensures Distinct(Ids(trades + [closed], Delete(open, mint)), last)
  {
    var k := IndexOf(open, mint);
    var before, held := TradeIds(trades), OpenIds(open);
    MovingKeepsDistinct(before, held, k, last);
    OpenIdsAfterDelete(open, mint);
    assert TradeIds(trades + [closed]) == before + [held[k]];
  }

  lemma SettingKeepsEachOnce(trades: seq<Trade>, open: OrderedMap<Mint, Position>, mint: Mint, pos: Position, last: nat)
    requires Distinct(Ids(trades, open), last)
    requires if Has(open, mint) then pos.entry == open[IndexOf(open, mint)].1.entry else pos.entry.tradeId == last + 1
    ensures Distinct(Ids(trades, Set(open, mint, pos)), if Has(open, mint) then last else last + 1)
  {
    var after := Set(open, mint, pos);
    if Has(open, mint) {
      assert Ids(trades, after) == Ids(trades, open);
    } else {
      assert Ids(trades, after) == Ids(trades, open) + [last + 1];
    }
  }

  lemma EventKeepsEachOnce(p: Strategy, st: State, e: Event)
    requires EachOnce(st)
    ensures EachOnce(OnEvent(p, st, e))
  {
    var s := e.snapshot;
    if s.price.None? {
    } else if Has(st.open, e.mint) {
      var seen := Observed(st.open[IndexOf(st.open, e.mint)].1, s, s.price.value);
      var reason, fill := p.exits(seen, s), p.sellFill(seen, s);
      if reason.Some? && fill.Some? {
        var closed := Closed(seen, s, s.price.value, reason.value, fill.value);
        ClosingKeepsEachOnce(st.trades, st.open, e.mint, closed, st.counter);
      } else {
        SettingKeepsEachOnce(st.trades, st.open, e.mint, seen, st.counter);
      }
    } else if p.wants(s).Some? {
      var filled := p.buyFill(p.hard.positionSize, s);
      var pos := Opened(p, st, e, s.price.value, p.wants(s).value, filled);
      SettingKeepsEachOnce(st.trades, st.open, e.mint, pos, st.counter);
    }
  }

  lemma ClosingKeepsLimits(p: Strategy, st: State, mint: Mint)
    requires WithinLimits(p, st) && p.hard.positionSize >= 0 && Has(st.open, mint)
    ensures WithinLimits(p, st.(open := Delete(st.open, mint)))
  {
    var after, at := Delete(st.open, mint), IndexOf(st.open, mint);
    var before := OpenPositions(st.open);
    ExposureWithout(before, at);
    forall i | 0 <= i < |after|
      ensures after[i].1.entry.size == p.hard.positionSize
      ensures OpenPositions(after)[i] == (before[..at] + before[at + 1..])[i]
    {
      if i < at {
        assert after[i] == st.open[i];
      } else {
        assert after[i] == st.open[i + 1];
      }
    }
    assert OpenPositions(after) == before[..at] + before[at + 1..];
  }

  lemma ObservingKeepsLimits(p: Strategy, st: State, mint: Mint, pos: Position)
    requires WithinLimits(p, st) && Has(st.open, mint) && pos.entry == st.open[IndexOf(st.open, mint)].1.entry
    ensures WithinLimits(p, st.(open := Set(st.open, mint, pos)))
  {
    assert OpenPositions(Set(st.open, mint, pos)) == OpenPositions(st.open);
  }

  lemma OpeningKeepsLimits(p: Strategy, st: State, mint: Mint, pos: Position)
    requires WithinLimits(p, st) && !Has(st.open, mint) && RoomFor(OpenPositions(st.open), p.hard)
    requires pos.entry.size == p.hard.positionSize
    ensures WithinLimits(p, st.(open := Set(st.open, mint, pos)))
  {
    var before, after := OpenPositions(st.open), OpenPositions(Set(st.open, mint, pos));
    assert after[..|before|] == before;
  }

  lemma EventKeepsLimits(p: Strategy, st: State, e: Event)
    requires WithinLimits(p, st) && p.hard.positionSize >= 0
    ensures WithinLimits(p, OnEvent(p, st, e))
  {
    var s := e.snapshot;
    if s.price.None? {
    } else if Has(st.open, e.mint) {
      ClosingKeepsLimits(p, st, e.mint);
      ObservingKeepsLimits(p, st, e.mint, Observed(st.open[IndexOf(st.open, e.mint)].1, s, s.price.value));
    } else if p.wants(s).Some? && RoomFor(OpenPositions(st.open), p.hard) {
      var filled := p.buyFill(p.hard.positionSize, s);
      OpeningKeepsLimits(p, st, e.mint, Opened(p, st, e, s.price.value, p.wants(s).value, filled));
    }
  }

  lemma {:induction false} RunKeeps(p: Strategy, events: seq<Event>)
    requires p.hard.positionSize >= 0 && p.hard.maxConcurrentPositions >= 0 && p.hard.maxTotalExposure >= 0
    ensures EachOnce(Run(p, events)) && WithinLimits(p, Run(p, events))
    decreases |events|
  {
    if events != [] {
      var front := events[..|events| - 1];
      RunKeeps(p, front);
      EventKeepsEachOnce(p, Run(p, front), events[|events| - 1]);
      EventKeepsLimits(p, Run(p, front), events[|events| - 1]);
    }
  }

  /** Each simulated entry appears once in the result, and the replay keeps the hard limits of the live engine. */
  lemma EachEntryAppearsOnce(p: Strategy, events: seq<Event>)
    requires p.hard.positionSize >= 0 && p.hard.maxConcurrentPositions >= 0 && p.hard.maxTotalExposure >= 0
    ensures var trades := Result(p, events);
      && |trades| == Run(p, events).counter
      && (forall i | 0 <= i < |trades| :: 1 <= trades[i].entry.tradeId <= |trades|)
      && (forall i, j | 0 <= i < j < |trades| :: trades[i].entry.tradeId != trades[j].entry.tradeId)
    ensures WithinLimits(p, Run(p, events))
  {
    RunKeeps(p, events);
    var st, trades := Run(p, events), Result(p, events);
    var ids := Ids(st.trades, st.open);
    assert forall i | 0 <= i < |trades| :: trades[i].entry.tradeId == ids[i];
  }
}
