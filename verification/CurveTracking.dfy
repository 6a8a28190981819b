/**
 * The per-mint curve state kept by the volume engine (engine/src/volume/pumpfunVolumeEngine.ts, updateCurve): the state
 * of a mint is the post-trade state of its latest trade, although two trades of one slot may arrive out of order.
 */
module CurveTracking {
  import opened Prelude
  import opened BondingCurveMath

  /** What a trade event says about its curve; `post` is None when its reserves could not be read. */
  datatype CurveEvent = CurveEvent(
    post: Option<CurveState>, isBuy: bool, sol: int, tokens: int, slot: int, second: int)

  datatype CurveTrack = CurveTrack(
    post: CurveState, pre: Reserves, slot: int, second: int, stepOk: bool, unreadable: bool)

  const EMPTY_RESERVES := Reserves(0, 0, 0, 0)
  const EMPTY_CURVE := CurveState(EMPTY_RESERVES, 0, 0, None)

  function UpdateCurve(track: Option<CurveTrack>, e: CurveEvent): Option<CurveTrack> {
    match e.post
    case None => Some(CurveTrack(EMPTY_CURVE, EMPTY_RESERVES, e.slot, e.second, false, true))
    case Some(post) =>
      if PassedOver(track, e) then track else Some(TrackOf(post, e))
  }

  /** The event is recognised as executed before the state tracked, and leaves it. */
  predicate PassedOver(track: Option<CurveTrack>, e: CurveEvent) {
    e.post.Some? && track.Some? && !track.value.unreadable && Ignored(track.value, e.post.value, e)
  }

  /** The event executed before the tracked state, so it does not replace it. */
  predicate Ignored(prev: CurveTrack, post: CurveState, e: CurveEvent) {
    if e.slot < prev.slot then true
    else if ChainLinks(prev.post.reserves, post.reserves, e.isBuy, e.sol, e.tokens) then false
    else e.slot == prev.slot && prev.pre == post.reserves
  }

  function TrackOf(post: CurveState, e: CurveEvent): CurveTrack {
    CurveTrack(post, PreTradeState(post.reserves, e.isBuy, e.sol, e.tokens), e.slot, e.second,
               IsConstantProductStep(post.reserves, e.isBuy, e.sol, e.tokens), false)
  }

  function UpdateAll(track: Option<CurveTrack>, es: seq<CurveEvent>): Option<CurveTrack>
    decreases |es|
  {
    if es == [] then track else UpdateAll(UpdateCurve(track, es[0]), es[1..])
  }

  // ---- executions in one slot ------------------------------------------------------------------------------------

  function PostReserves(e: CurveEvent): Reserves
    requires e.post.Some?
  {
    e.post.value.reserves
  }

  function PreReserves(e: CurveEvent): Reserves
    requires e.post.Some?
  {
    PreTradeState(e.post.value.reserves, e.isBuy, e.sol, e.tokens)
  }

  /** Readable trades of one slot, in execution order: each starts from the state the one before it left. */
  ghost predicate Chain(es: seq<CurveEvent>, slot: int) {
    && (forall i | 0 <= i < |es| :: es[i].post.Some? && es[i].slot == slot)
    && (forall i | 0 <= i < |es| - 1 :: PreReserves(es[i + 1]) == PostReserves(es[i]))
  }

  /** No reserve state occurs twice: the state before the first trade and the states after each are all different. */
  ghost predicate DistinctStates(es: seq<CurveEvent>)
    requires forall i | 0 <= i < |es| :: es[i].post.Some?
  {
    && (forall i, j | 0 <= i < j < |es| :: PostReserves(es[i]) != PostReserves(es[j]))
    && (forall j | 0 <= j < |es| :: PreReserves(es[0]) != PostReserves(es[j]))
  }

  /** `arrival` is `executed` with some disjoint pairs of neighbours exchanged. */
  ghost predicate LocallyReordered(executed: seq<CurveEvent>, arrival: seq<CurveEvent>)
    decreases |executed|
  {
    if executed == [] then arrival == []
    else
      || (arrival != [] && arrival[0] == executed[0] && LocallyReordered(executed[1..], arrival[1..]))
      || (|executed| >= 2 && |arrival| >= 2 && arrival[0] == executed[1] && arrival[1] == executed[0]
          && LocallyReordered(executed[2..], arrival[2..]))
  }

  // ---- exactly which arrivals are tracked right ------------------------------------------------------------------

  /** A trade that arrives in its turn, or two neighbours that arrive exchanged. */
  datatype Block = InTurn(trade: CurveEvent) | Exchanged(earlier: CurveEvent, later: CurveEvent) {

    /** In execution order. */
    function Executed(): seq<CurveEvent> {
      if InTurn? then [trade] else [earlier, later]
    }

    function Arrival(): seq<CurveEvent> {
      if InTurn? then [trade] else [later, earlier]
    }

    function First(): CurveEvent {
      if InTurn? then trade else earlier
    }

    /** The trade executed last, which is the one that arrives first. */
    function Last(): CurveEvent {
      if InTurn? then trade else later
    }
  }

  function AllExecuted(blocks: seq<Block>): seq<CurveEvent> {
    if blocks == [] then [] else blocks[0].Executed() + AllExecuted(blocks[1..])
  }

  function AllArriving(blocks: seq<Block>): seq<CurveEvent> {
    if blocks == [] then [] else blocks[0].Arrival() + AllArriving(blocks[1..])
  }

  function TrackBy(e: CurveEvent): Option<CurveTrack>
    requires e.post.Some?
  {
    Some(TrackOf(e.post.value, e))
  }

  predicate Readable(e: CurveEvent, slot: int) {
    e.post.Some? && e.slot == slot
  }

  /** Readable trades of one slot; two exchanged ones are linked. */
  predicate Linked(block: Block, slot: int) {
    && Readable(block.First(), slot) && Readable(block.Last(), slot)
    && (block.Exchanged? ==> PreReserves(block.later) == PostReserves(block.earlier))
  }

  ghost predicate AllLinked(blocks: seq<Block>, slot: int) {
    forall i | 0 <= i < |blocks| :: Linked(blocks[i], slot)
  }

  /**
   * What a block needs to be tracked right: its first arrival is not mistaken for a trade executed before the state
   * tracked, and an exchanged pair does not return to the state it starts from, unless both leave the same track.
   */
  predicate Tracks(track: Option<CurveTrack>, block: Block)
    requires block.Exchanged? ==> block.earlier.post.Some? && block.later.post.Some?
  {
    && !PassedOver(track, block.Last())
    && (block.Exchanged? ==>
          || PostReserves(block.later) != PreReserves(block.earlier)
          || TrackBy(block.earlier) == TrackBy(block.later))
  }

  /** A trade passed over by a state could not have written that state. */
  lemma PassedNeverWrote(track: CurveTrack, e: CurveEvent)
    requires PassedOver(Some(track), e)
    ensures UpdateCurve(None, e) != Some(track)
  {}

  lemma UpdatesOfTwo(track: Option<CurveTrack>, a: CurveEvent, b: CurveEvent)
    ensures UpdateAll(track, [a]) == UpdateCurve(track, a)
    ensures UpdateAll(track, [a, b]) == UpdateCurve(UpdateCurve(track, a), b)
  {
    var first := UpdateCurve(track, a);
    assert [a, b][1..] == [b] && [b][1..] == [] && [a][1..] == [];
    assert UpdateAll(first, [b]) == UpdateAll(UpdateCurve(first, b), []);
    assert UpdateAll(track, [a]) == UpdateAll(first, []);
  }

  /** Whatever is tracked before, a block ends in its own last executed trade exactly when it meets the condition. */
  lemma BlockEndsRightExactlyWhen(track: Option<CurveTrack>, block: Block, slot: int)
    requires Linked(block, slot)
    ensures UpdateAll(track, block.Arrival()) == TrackBy(block.Last()) <==> Tracks(track, block)
  {
    var last := block.Last();
    if PassedOver(track, last) {
      PassedNeverWrote(track.value, last);
    }
    if block.InTurn? {
      UpdatesOfTwo(track, last, last);
    } else {
      UpdatesOfTwo(track, last, block.earlier);
      ExchangedPair(track, block.earlier, last, slot);
    }
  }

  lemma ExchangedPair(track: Option<CurveTrack>, a: CurveEvent, b: CurveEvent, slot: int)
    requires a.post.Some? && b.post.Some? && a.slot == b.slot == slot && PreReserves(b) == PostReserves(a)
    ensures UpdateCurve(UpdateCurve(track, b), a) == TrackBy(b)
      <==> !PassedOver(track, b) && (PostReserves(b) != PreReserves(a) || TrackBy(a) == TrackBy(b))
  {
    if PassedOver(track, b) {
      PassedNeverWrote(track.value, b);
      if TrackBy(a) == TrackBy(b) {
        assert PassedOver(track, a);
      }
    } else {
      assert UpdateCurve(track, b) == TrackBy(b);
      assert PassedOver(TrackBy(b), a) <==> PostReserves(b) != PreReserves(a);
    }
  }

  /** Every block, from what is tracked when it arrives, ends in its own last executed trade. */
  ghost predicate AllEndRight(track: Option<CurveTrack>, blocks: seq<Block>)
    requires forall i | 0 <= i < |blocks| :: blocks[i].Last().post.Some?
    decreases |blocks|
  {
    blocks == []
    || (var after := UpdateAll(track, blocks[0].Arrival());
        after == TrackBy(blocks[0].Last()) && AllEndRight(after, blocks[1..]))
  }

  /** Each block meets the condition after the trade executed last before it. */
  ghost predicate AllTrack(track: Option<CurveTrack>, blocks: seq<Block>, slot: int)
    requires AllLinked(blocks, slot)
    decreases |blocks|
  {
    blocks == [] || (Tracks(track, blocks[0]) && AllTrack(TrackBy(blocks[0].Last()), blocks[1..], slot))
  }

  lemma {:induction false} EndRightExactlyWhenAllTrack(track: Option<CurveTrack>, blocks: seq<Block>, slot: int)
    requires AllLinked(blocks, slot)
    ensures AllEndRight(track, blocks) <==> AllTrack(track, blocks, slot)
    decreases |blocks|
  {
    if blocks != [] {
      BlockEndsRightExactlyWhen(track, blocks[0], slot);
      EndRightExactlyWhenAllTrack(TrackBy(blocks[0].Last()), blocks[1..], slot);
    }
  }

  /** The blocks of a chain are linked, each to the one before it. */
  ghost predicate BlocksChain(blocks: seq<Block>, slot: int) {
    && AllLinked(blocks, slot)
    && forall i | 1 <= i < |blocks| :: PreReserves(blocks[i].First()) == PostReserves(blocks[i - 1].Last())
  }

  lemma {:induction false} ChainOfBlocks(blocks: seq<Block>, slot: int)
    requires Chain(AllExecuted(blocks), slot)
    ensures BlocksChain(blocks, slot)
    decreases |blocks|
  {
    if blocks != [] {
      var es, rest := AllExecuted(blocks), AllExecuted(blocks[1..]);
      var n := |blocks[0].Executed()|;
      assert es[..n] == blocks[0].Executed() && es[n..] == rest;
      ChainBehind(es, slot, n);
      ChainOfBlocks(blocks[1..], slot);
      assert Readable(es[0], slot) && Readable(es[n - 1], slot);
      assert blocks[0].Exchanged? ==> PreReserves(es[0 + 1]) == PostReserves(es[0]);
      if |blocks| > 1 {
        assert rest[0] == blocks[1..][0].First() == es[n];
        assert PreReserves(es[n - 1 + 1]) == PostReserves(es[n - 1]);
      }
      assert forall i | 1 <= i < |blocks| :: blocks[i] == blocks[1..][i - 1];
    }
  }

  lemma ChainBehind(es: seq<CurveEvent>, slot: int, n: nat)
    requires Chain(es, slot) && n <= |es|
    ensures Chain(es[n..], slot)
  {
    var rest := es[n..];
    assert forall i | 0 <= i < |rest| :: rest[i] == es[i + n];
    forall i | 0 <= i < |rest| - 1
      ensures PreReserves(rest[i + 1]) == PostReserves(rest[i])
    {
      assert PreReserves(es[i + n + 1]) == PostReserves(es[i + n]);
    }
  }

  /**
   * A pair that arrives exchanged behind `prev` returns neither to the state it starts from (unless both leave the same
   * track) nor to the state `prev` starts from (unless that hides nothing, the pair's first trade changing nothing).
   */
  predicate PairTracks(prev: CurveEvent, earlier: CurveEvent, later: CurveEvent)
    requires prev.post.Some? && earlier.post.Some? && later.post.Some?
  {
    && (PostReserves(later) != PreReserves(earlier) || TrackBy(earlier) == TrackBy(later))
    && (PostReserves(later) != PreReserves(prev) || PreReserves(later) == PostReserves(prev))
  }

  /** Behind a trade of its chain, a block in its turn always tracks, and an exchanged pair as its states say. */
  lemma TracksBehind(prev: CurveEvent, block: Block, slot: int)
    requires Readable(prev, slot) && Linked(block, slot) && PreReserves(block.First()) == PostReserves(prev)
    ensures Tracks(TrackBy(prev), block) <==> block.Exchanged? ==> PairTracks(prev, block.earlier, block.later)
  {}

  /** The pairs exchanged behind the first block meet the condition on their states. */
  ghost predicate PairsTrack(blocks: seq<Block>, slot: int)
    requires AllLinked(blocks, slot)
  {
    forall i | 1 <= i < |blocks| && blocks[i].Exchanged? ::
      PairTracks(blocks[i - 1].Last(), blocks[i].earlier, blocks[i].later)
  }

  lemma {:induction false} AllTrackExactlyWhenPairs(track: Option<CurveTrack>, blocks: seq<Block>, slot: int)
    requires BlocksChain(blocks, slot)
    ensures AllTrack(track, blocks, slot) <==> (blocks != [] ==> Tracks(track, blocks[0])) && PairsTrack(blocks, slot)
    decreases |blocks|
  {
    if |blocks| > 1 {
      var prev, rest := blocks[0].Last(), blocks[1..];
      assert forall i | 0 <= i < |rest| :: rest[i] == blocks[i + 1];
      assert rest[0] == blocks[1] && PreReserves(blocks[1].First()) == PostReserves(blocks[1 - 1].Last());
      AllTrackExactlyWhenPairs(TrackBy(prev), rest, slot);
      TracksBehind(prev, rest[0], slot);
      PairsOfRest(blocks, slot);
    }
  }

  lemma PairsOfRest(blocks: seq<Block>, slot: int)
    requires AllLinked(blocks, slot) && |blocks| > 1
    ensures PairsTrack(blocks, slot)
      <==> PairsTrack(blocks[1..], slot)
           && (blocks[1].Exchanged? ==> PairTracks(blocks[0].Last(), blocks[1].earlier, blocks[1].later))
  {
    var rest := blocks[1..];
    assert forall i | 0 <= i < |rest| :: rest[i] == blocks[i + 1];
    if PairsTrack(blocks, slot) {
      assert blocks[1].Exchanged? ==> PairTracks(blocks[1 - 1].Last(), blocks[1].earlier, blocks[1].later);
      forall i | 1 <= i < |rest| && rest[i].Exchanged?
        ensures PairTracks(rest[i - 1].Last(), rest[i].earlier, rest[i].later)
      {
        assert PairTracks(blocks[i + 1 - 1].Last(), blocks[i + 1].earlier, blocks[i + 1].later);
      }
    }
    if PairsTrack(rest, slot) && (blocks[1].Exchanged? ==> PairTracks(blocks[0].Last(), blocks[1].earlier, blocks[1].later)) {
      forall i | 1 <= i < |blocks| && blocks[i].Exchanged?
        ensures PairTracks(blocks[i - 1].Last(), blocks[i].earlier, blocks[i].later)
      {
        if i > 1 {
          assert PairTracks(rest[i - 1 - 1].Last(), rest[i - 1].earlier, rest[i - 1].later);
        }
      }
    }
  }

  /**
   * For a chain of one slot that arrives with any disjoint neighbours exchanged, whatever was tracked before: every
   * block ends in its own last executed trade exactly when the first block is not mistaken for older trades by what
   * was tracked before and no exchanged pair repeats a state of its own start or of the start of the trade before it.
   */
  lemma TrackingIsRightExactlyWhen(track: Option<CurveTrack>, blocks: seq<Block>, slot: int)
    requires Chain(AllExecuted(blocks), slot)
    ensures BlocksChain(blocks, slot) && forall i | 0 <= i < |blocks| :: blocks[i].Last().post.Some?
    ensures AllEndRight(track, blocks)
      <==> (blocks != [] ==> Tracks(track, blocks[0])) && PairsTrack(blocks, slot)
  {
    ChainOfBlocks(blocks, slot);
    EndRightExactlyWhenAllTrack(track, blocks, slot);
    AllTrackExactlyWhenPairs(track, blocks, slot);
  }

  lemma {:induction false} UpdatesInTwo(track: Option<CurveTrack>, a: seq<CurveEvent>, b: seq<CurveEvent>)
    ensures UpdateAll(track, a + b) == UpdateAll(UpdateAll(track, a), b)
    decreases |a|
  {
    if a == [] {
      assert a + b == b;
    } else {
      assert (a + b)[0] == a[0] && (a + b)[1..] == a[1..] + b;
      UpdatesInTwo(UpdateCurve(track, a[0]), a[1..], b);
    }
  }

  /** When every block ends right, so does the whole. */
  lemma {:induction false} EndsWithLast(track: Option<CurveTrack>, blocks: seq<Block>)
    requires forall i | 0 <= i < |blocks| :: blocks[i].Last().post.Some?
    requires AllEndRight(track, blocks)
    ensures UpdateAll(track, AllArriving(blocks)) == if blocks == [] then track else TrackBy(blocks[|blocks| - 1].Last())
    decreases |blocks|
  {
    if blocks != [] {
      UpdatesInTwo(track, blocks[0].Arrival(), AllArriving(blocks[1..]));
      EndsWithLast(UpdateAll(track, blocks[0].Arrival()), blocks[1..]);
    }
  }

  // ---- distinct states are always tracked right ------------------------------------------------------------------

  /** Every local reordering is an arrival in blocks. */
  lemma {:induction false} BlocksOf(executed: seq<CurveEvent>, arrival: seq<CurveEvent>) returns (blocks: seq<Block>)
    requires LocallyReordered(executed, arrival)
    ensures AllExecuted(blocks) == executed && AllArriving(blocks) == arrival
    decreases |executed|
  {
    if executed == [] {
      blocks := [];
    } else if arrival[0] == executed[0] && LocallyReordered(executed[1..], arrival[1..]) {
      var rest := BlocksOf(executed[1..], arrival[1..]);
      blocks := [InTurn(executed[0])] + rest;
      assert blocks[1..] == rest;
    } else {
      var rest := BlocksOf(executed[2..], arrival[2..]);
      blocks := [Exchanged(executed[0], executed[1])] + rest;
      assert blocks[1..] == rest;
    }
  }

  /**
   * The track found before the slot's trades cannot be mistaken for one inside them: there is none, it is unreadable,
   * it is of an earlier slot, or it was reached from a state they do not visit.
   */
  ghost predicate Before(track: Option<CurveTrack>, es: seq<CurveEvent>, slot: int)
    requires forall i | 0 <= i < |es| :: es[i].post.Some?
  {
    match track
    case None => true
    case Some(t) =>
      t.unreadable || t.slot < slot || (t.slot == slot && forall j | 0 <= j < |es| :: t.pre != PostReserves(es[j]))
  }

  /** The last trade of each block, and the state before it, are among the chain's. */
  lemma {:induction false} BlockInside(blocks: seq<Block>, i: nat) returns (at: nat)
    requires i < |blocks|
    ensures var es := AllExecuted(blocks); var n := |blocks[i].Executed()|;
      && at + n <= |es| && es[at] == blocks[i].First() && es[at + n - 1] == blocks[i].Last()
      && (if i == 0 then at == 0 else at > 0 && es[at - 1] == blocks[i - 1].Last())
    decreases |blocks|
  {
    var n := |blocks[0].Executed()|;
    if i == 0 {
      at := 0;
    } else {
      var j := BlockInside(blocks[1..], i - 1);
      at := n + j;
    }
  }

  lemma DistinctPairsTrack(blocks: seq<Block>, slot: int)
    requires Chain(AllExecuted(blocks), slot) && DistinctStates(AllExecuted(blocks)) && BlocksChain(blocks, slot)
    ensures PairsTrack(blocks, slot)
    ensures blocks != [] && blocks[0].Exchanged? ==> PostReserves(blocks[0].later) != PreReserves(blocks[0].earlier)
  {
    var es := AllExecuted(blocks);
    forall i | 0 <= i < |blocks| && blocks[i].Exchanged?
      ensures PostReserves(blocks[i].later) != PreReserves(blocks[i].earlier)
      ensures i > 0 ==> PostReserves(blocks[i].later) != PreReserves(blocks[i - 1].Last())
    {
      var at := BlockInside(blocks, i);
      StateBefore(es, slot, at);
      if i > 0 {
        StateBefore(es, slot, at - 1);
      }
    }
  }

  /** The state before a trade of a chain of distinct states differs from every state from that trade on. */
  lemma StateBefore(es: seq<CurveEvent>, slot: int, at: nat)
    requires Chain(es, slot) && DistinctStates(es) && at < |es|
    ensures forall j | at <= j < |es| :: PreReserves(es[at]) != PostReserves(es[j])
  {
    if at > 0 {
      assert PreReserves(es[at - 1 + 1]) == PostReserves(es[at - 1]);
    }
  }

  lemma BeforeTracks(track: Option<CurveTrack>, es: seq<CurveEvent>, e: CurveEvent, slot: int)
    requires (forall i | 0 <= i < |es| :: es[i].post.Some?) && Before(track, es, slot)
    requires e in es && e.slot == slot
    ensures !PassedOver(track, e)
  {
    var j :| 0 <= j < |es| && es[j] == e;
  }

  /** So when no state repeats, the tracked state ends as the last executed trade's in any local reordering. */
  lemma TrackingToleratesLocalReordering(
    track: Option<CurveTrack>, executed: seq<CurveEvent>, arrival: seq<CurveEvent>, slot: int)
    requires Chain(executed, slot) && DistinctStates(executed)
    requires Before(track, executed, slot)
    requires LocallyReordered(executed, arrival)
    ensures executed == [] ==> UpdateAll(track, arrival) == track
    ensures executed != [] ==>
      UpdateAll(track, arrival) == Some(TrackOf(executed[|executed| - 1].post.value, executed[|executed| - 1]))
  {
    var blocks := BlocksOf(executed, arrival);
    TrackingIsRightExactlyWhen(track, blocks, slot);
    DistinctPairsTrack(blocks, slot);
    if blocks != [] {
      var first := BlockInside(blocks, 0);
      BeforeTracks(track, executed, blocks[0].Last(), slot);
      LastBlockIsLast(blocks);
    }
    EndsWithLast(track, blocks);
  }

  lemma {:induction false} LastBlockIsLast(blocks: seq<Block>)
    requires blocks != []
    ensures var es := AllExecuted(blocks); es != [] && es[|es| - 1] == blocks[|blocks| - 1].Last()
    decreases |blocks|
  {
    if |blocks| > 1 {
      LastBlockIsLast(blocks[1..]);
    }
  }

  /** Execution order is one of the arrival orders. */
  lemma {:induction false} InOrderIsAReordering(es: seq<CurveEvent>)
    ensures LocallyReordered(es, es)
    decreases |es|
  {
    if es != [] {
      InOrderIsAReordering(es[1..]);
    }
  }

  /** So every local reordering ends where in-order arrival ends. */
  lemma ReorderedEndsAsExecuted(track: Option<CurveTrack>, executed: seq<CurveEvent>, arrival: seq<CurveEvent>, slot: int)
    requires Chain(executed, slot) && DistinctStates(executed)
    requires Before(track, executed, slot)
    requires LocallyReordered(executed, arrival)
    ensures UpdateAll(track, arrival) == UpdateAll(track, executed)
  {
    TrackingToleratesLocalReordering(track, executed, arrival, slot);
    InOrderIsAReordering(executed);
    TrackingToleratesLocalReordering(track, executed, executed, slot);
  }

  // ---- what a chain says about amounts ---------------------------------------------------------------------------

  function SignedSol(e: CurveEvent): int { if e.isBuy then e.sol else -e.sol }

  function SignedTokens(e: CurveEvent): int { if e.isBuy then -e.tokens else e.tokens }

  function SumSol(es: seq<CurveEvent>): int
    decreases |es|
  {
    if es == [] then 0 else SumSol(es[..|es| - 1]) + SignedSol(es[|es| - 1])
  }

  function SumTokens(es: seq<CurveEvent>): int
    decreases |es|
  {
    if es == [] then 0 else SumTokens(es[..|es| - 1]) + SignedTokens(es[|es| - 1])
  }

  /** Along a chain the last post state is the first pre state moved by the signed sums of the amounts. */
  lemma {:induction false} ChainAddsUp(es: seq<CurveEvent>, slot: int)
    requires Chain(es, slot) && es != []
    ensures var first, last := PreReserves(es[0]), PostReserves(es[|es| - 1]);
            && last.virtualSol == first.virtualSol + SumSol(es)
            && last.realSol == first.realSol + SumSol(es)
            && last.virtualToken == first.virtualToken + SumTokens(es)
            && last.realToken == first.realToken + SumTokens(es)
    decreases |es|
  {
    var shorter := es[..|es| - 1];
    if shorter != [] {
      assert PreReserves(es[|es| - 2 + 1]) == PostReserves(es[|es| - 2]);
      ChainAddsUp(shorter, slot);
    } else {
      assert SumSol(shorter) == 0 && SumTokens(shorter) == 0;
    }
  }

  /**
   * A pair that fails: a buy undone by a sell returns the curve to the state the buy starts from, and arriving
   * exchanged they leave the buy tracked although the sell was executed last.
   */
  lemma UndonePairIsTrackedWrong(track: Option<CurveTrack>, buy: CurveEvent, sell: CurveEvent, slot: int)
    requires Readable(buy, slot) && Readable(sell, slot) && buy.isBuy && !sell.isBuy
    requires sell.sol == buy.sol && sell.tokens == buy.tokens && PreReserves(sell) == PostReserves(buy)
    requires PreReserves(buy) != PostReserves(buy)
    ensures PostReserves(sell) == PreReserves(buy) && Chain([buy, sell], slot)
    ensures UpdateAll(track, [sell, buy]) != TrackBy(sell)
  {
    assert PostReserves(sell) == PreReserves(buy);
    BlockEndsRightExactlyWhen(track, Exchanged(buy, sell), slot);
  }
}
