/** The composed risk decision of an entry: breaker, exposure and re-entry checks, each adding its reason. */
module EntryRisk {
  import opened Prelude
  import opened TradeLedger

  datatype HardRisk = HardRisk(
    positionSize: Sol, dailyLossLimitPct: int, maxReentriesPerToken: int, maxConcurrentPositions: int,
    maxTotalExposure: Sol)

  datatype ReentryPolicy = ReentryPolicy(consecutiveLossLimit: int, cooldownMs: int)

  datatype OpenPosition = OpenPosition(mint: Mint, size: Sol)

  datatype TokenHistory = TokenHistory(totalTrades: nat, consecutiveLosses: nat, lastExitMs: Option<int>)

  datatype Context = Context(
    open: seq<OpenPosition>, dailyPnl: Sol, dailyStartingBalance: Sol, breakerAlreadyTriggered: bool,
    emergencyStop: bool, history: TokenHistory, now: int)

  datatype Reason =
    | EmergencyStop | CircuitBreaker | MaxConcurrentPositions | MaxTotalExposure
    | MaxReentries | ConsecutiveLosses | Cooldown

  datatype Decision = Decision(allowed: bool, reasons: seq<Reason>, sizing: Sol, breakerTriggered: bool)

  function Exposure(open: seq<OpenPosition>): Sol {
    if open == [] then 0 else Exposure(open[..|open| - 1]) + open[|open| - 1].size
  }

  predicate RoomFor(open: seq<OpenPosition>, hard: HardRisk) {
    |open| < hard.maxConcurrentPositions && Exposure(open) + hard.positionSize <= hard.maxTotalExposure
  }

  predicate MayReenter(history: TokenHistory, hard: HardRisk, policy: ReentryPolicy, now: int) {
    && history.totalTrades <= hard.maxReentriesPerToken
    && (history.totalTrades > 0 ==>
          && history.consecutiveLosses < policy.consecutiveLossLimit
          && (history.lastExitMs.Some? ==> now - history.lastExitMs.value >= policy.cooldownMs))
  }

  predicate BreakerLatches(already: bool, pnl: Sol, startingBalance: Sol, limitPct: int) {
    already || LossLimitBreached(pnl, startingBalance, limitPct)
  }

  /** Entry is allowed exactly when nothing speaks against it. */
  predicate Allowed(ctx: Context, hard: HardRisk, policy: ReentryPolicy) {
    && !ctx.emergencyStop
    && !BreakerLatches(ctx.breakerAlreadyTriggered, ctx.dailyPnl, ctx.dailyStartingBalance, hard.dailyLossLimitPct)
    && RoomFor(ctx.open, hard)
    && MayReenter(ctx.history, hard, policy, ctx.now)
  }

  method CanOpenNewPosition(open: seq<OpenPosition>, hard: HardRisk) returns (refusal: Option<Reason>)
    ensures refusal.None? <==> RoomFor(open, hard)
    ensures refusal == Some(MaxConcurrentPositions) <==> |open| >= hard.maxConcurrentPositions
    ensures refusal.Some? ==> refusal.value in {MaxConcurrentPositions, MaxTotalExposure}
  {
    if |open| >= hard.maxConcurrentPositions {
      return Some(MaxConcurrentPositions);
    }
    var total, i := 0, 0;
    while i < |open|
      invariant i <= |open| && total == Exposure(open[..i])
    {
      assert open[..i + 1][..i] == open[..i];
      total := total + open[i].size;
      i := i + 1;
    }
    assert open[..i] == open;
    refusal := if total + hard.positionSize > hard.maxTotalExposure then Some(MaxTotalExposure) else None;
  }

  method CanReenter(history: TokenHistory, hard: HardRisk, policy: ReentryPolicy, now: int)
    returns (refusal: Option<Reason>)
    ensures refusal.None? <==> MayReenter(history, hard, policy, now)
    ensures refusal == Some(MaxReentries) <==> history.totalTrades > hard.maxReentriesPerToken
    ensures refusal.Some? ==> refusal.value in {MaxReentries, ConsecutiveLosses, Cooldown}
  {
    if history.totalTrades > hard.maxReentriesPerToken {
      return Some(MaxReentries);
    }
    if history.totalTrades > 0 {
      if history.consecutiveLosses >= policy.consecutiveLossLimit {
        return Some(ConsecutiveLosses);
      }
      if history.lastExitMs.Some? && now - history.lastExitMs.value < policy.cooldownMs {
        return Some(Cooldown);
      }
    }
    refusal := None;
  }

  /** Every check is made and every refusal is kept, in the order of the checks. */
  method EvaluateEntryRisk(ctx: Context, hard: HardRisk, policy: ReentryPolicy) returns (d: Decision)
    ensures d.allowed <==> Allowed(ctx, hard, policy)
    ensures d.allowed <==> d.reasons == []
    ensures d.sizing == if d.allowed then hard.positionSize else 0
    ensures d.breakerTriggered
      <==> BreakerLatches(ctx.breakerAlreadyTriggered, ctx.dailyPnl, ctx.dailyStartingBalance, hard.dailyLossLimitPct)
    ensures EmergencyStop in d.reasons <==> ctx.emergencyStop
    ensures CircuitBreaker in d.reasons <==> d.breakerTriggered
    ensures MaxConcurrentPositions in d.reasons || MaxTotalExposure in d.reasons <==> !RoomFor(ctx.open, hard)
    ensures MaxReentries in d.reasons || ConsecutiveLosses in d.reasons || Cooldown in d.reasons
      <==> !MayReenter(ctx.history, hard, policy, ctx.now)
  {
    var reasons: seq<Reason> := [];
    if ctx.emergencyStop {
      reasons := reasons + [EmergencyStop];
    }
    var triggered :=
      BreakerLatches(ctx.breakerAlreadyTriggered, ctx.dailyPnl, ctx.dailyStartingBalance, hard.dailyLossLimitPct);
    if triggered {
      reasons := reasons + [CircuitBreaker];
    }
    var exposure := CanOpenNewPosition(ctx.open, hard);
    if exposure.Some? {
      reasons := reasons + [exposure.value];
    }
    var reentry := CanReenter(ctx.history, hard, policy, ctx.now);
    if reentry.Some? {
      reasons := reasons + [reentry.value];
    }
    var allowed := |reasons| == 0;
    d := Decision(allowed, reasons, if allowed then hard.positionSize else 0, triggered);
  }
}
