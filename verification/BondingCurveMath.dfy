/**
 * Exact bonding-curve arithmetic (engine/src/volume/bondingCurveMath.ts).
 *
 * Every amount is an unbounded integer, as a JavaScript bigint is. The two impact functions return the scaled integer
 * the program computes before it turns it into a percentage.
 */
module BondingCurveMath {
  import opened Prelude

  const SCALE: int := 1_000_000_000_000
  const BPS: int := 10_000
  const K_TOLERANCE_NUM: int := 1
  const K_TOLERANCE_DEN: int := 1_000_000

  /** State of a curve after a trade, as the trade event carries it. */
  datatype CurveState = CurveState(reserves: Reserves, feeBps: nat, creatorFeeBps: nat, mayhemMode: Option<bool>)

  datatype Reserves = Reserves(virtualSol: int, virtualToken: int, realSol: int, realToken: int)

  /** Division of bigints rounds toward zero. */
  function TruncDiv(a: int, b: int): int
    requires b > 0
  {
    if a >= 0 then a / b else -((-a) / b)
  }

  // ---- the program's functions -----------------------------------------------------------------------------------

  function EntryNetLamports(total: int, feeBps: nat, creatorFeeBps: nat): int {
    TruncDiv(total * BPS, BPS + (feeBps + creatorFeeBps))
  }

  function TokensOutForNetSol(virtualSol: int, virtualToken: int, net: int): int {
    if net <= 0 || virtualSol <= 0 || virtualToken <= 0 then 0
    else TruncDiv(net * virtualToken, virtualSol + net)
  }

  function SolOutForTokens(virtualSol: int, virtualToken: int, tokens: int): int {
    if tokens <= 0 || virtualSol <= 0 || virtualToken <= 0 then 0
    else TruncDiv(tokens * virtualSol, virtualToken + tokens)
  }

  function SellNetLamports(gross: int, feeBps: nat, creatorFeeBps: nat): int {
    gross - TruncDiv(gross * (feeBps + creatorFeeBps) + BPS - 1, BPS)
  }

  /** The scaled buy impact, or None where the program answers null. */
  function BuyImpactScaled(r: Reserves, net: int): Option<int> {
    var out := TokensOutForNetSol(r.virtualSol, r.virtualToken, net);
    if out <= 0 || out > r.realToken then None
    else
      ProductPositive(out, r.virtualSol);
      var scaled := TruncDiv(net * r.virtualToken * SCALE, out * r.virtualSol) - SCALE;
      if scaled >= 0 then Some(scaled) else None
  }

  /** The scaled sell impact, or None where the program answers null. */
  function SellImpactScaled(r: Reserves, tokens: int): Option<int> {
    var out := SolOutForTokens(r.virtualSol, r.virtualToken, tokens);
    if out <= 0 || out > r.realSol then None
    else
      ProductPositive(tokens, r.virtualSol);
      var scaled := SCALE - TruncDiv(out * r.virtualToken * SCALE, tokens * r.virtualSol);
      if scaled >= 0 then Some(scaled) else None
  }

  function PreTradeState(post: Reserves, isBuy: bool, sol: int, tokens: int): Reserves {
    if isBuy
    then Reserves(post.virtualSol - sol, post.virtualToken + tokens, post.realSol - sol, post.realToken + tokens)
    else Reserves(post.virtualSol + sol, post.virtualToken - tokens, post.realSol + sol, post.realToken - tokens)
  }

  predicate IsConstantProductStep(post: Reserves, isBuy: bool, sol: int, tokens: int) {
    var pre := PreTradeState(post, isBuy, sol, tokens);
    if pre.virtualSol <= 0 || pre.virtualToken <= 0 || pre.realSol < 0 || pre.realToken < 0 then false
    else if post.virtualSol <= 0 || post.virtualToken <= 0 then false
    else if post.realSol > post.virtualSol || post.realToken > post.virtualToken then false
    else
      var kPre := pre.virtualSol * pre.virtualToken;
      var kPost := post.virtualSol * post.virtualToken;
      var diff := if kPost > kPre then kPost - kPre else kPre - kPost;
      diff * K_TOLERANCE_DEN <= kPre * K_TOLERANCE_NUM
  }

  predicate ChainLinks(previousPost: Reserves, post: Reserves, isBuy: bool, sol: int, tokens: int) {
    var pre := PreTradeState(post, isBuy, sol, tokens);
    pre.virtualSol == previousPost.virtualSol && pre.virtualToken == previousPost.virtualToken &&
    pre.realSol == previousPost.realSol && pre.realToken == previousPost.realToken
  }

  // ---- arithmetic helpers ----------------------------------------------------------------------------------------

  lemma ProductPositive(a: int, b: int)
    requires a > 0 && b > 0
    ensures a * b > 0
  {
  }

  lemma MulMonotone(a: int, b: int, c: int)
    requires a <= b && c >= 0
    ensures a * c <= b * c
  {
  }

  lemma FloorBounds(a: int, b: int)
    requires a >= 0 && b > 0
    ensures TruncDiv(a, b) >= 0
    ensures TruncDiv(a, b) * b <= a < (TruncDiv(a, b) + 1) * b
  {
    assert a == a / b * b + a % b;
  }

  /** A quotient is at least every integer that fits. */
  lemma FloorAtLeast(a: int, b: int, q: int)
    requires a >= 0 && b > 0 && q * b <= a
    ensures TruncDiv(a, b) >= q
  {
    FloorBounds(a, b);
    if TruncDiv(a, b) < q {
      MulMonotone(TruncDiv(a, b) + 1, q, b);
    }
  }

  lemma FloorAtMost(a: int, b: int, q: int)
    requires a >= 0 && b > 0 && a <= q * b
    ensures TruncDiv(a, b) <= q
  {
    FloorBounds(a, b);
    if TruncDiv(a, b) > q {
      MulMonotone(q + 1, TruncDiv(a, b), b);
    }
  }

  // ---- a step of the curve ---------------------------------------------------------------------------------------

  /** Paying `out` of reserve `b` for `amount` added to reserve `a` does not lower their product. */
  ghost predicate KeepsProduct(a: int, b: int, amount: int, out: int) {
    (a + amount) * (b - out) >= a * b
  }

  /** `out` is the largest payment that keeps the product. */
  ghost predicate PaysTheMost(a: int, b: int, amount: int, out: int) {
    KeepsProduct(a, b, amount, out) && forall more: int :: more > out ==> !KeepsProduct(a, b, amount, more)
  }

  /**
   * A buy pays exactly the largest number of tokens that does not lower the product of the virtual reserves, and it
   * leaves tokens on the curve.
   */
  lemma BuyPaysTheMost(vs: int, vt: int, net: int)
    requires vs > 0 && vt > 0 && net > 0
    ensures 0 <= TokensOutForNetSol(vs, vt, net) < vt
    ensures PaysTheMost(vs, vt, net, TokensOutForNetSol(vs, vt, net))
  {
    ProductPositive(net, vt);
    FloorBounds(net * vt, vs + net);
    FloorPaysTheMost(vs, vt, net, TruncDiv(net * vt, vs + net));
  }

  lemma FloorPaysTheMost(vs: int, vt: int, net: int, out: int)
    requires vs > 0 && vt > 0 && net > 0
    requires out * (vs + net) <= net * vt < (out + 1) * (vs + net)
    ensures out < vt && PaysTheMost(vs, vt, net, out)
  {
    assert (vs + net) * (vt - out) == vs * vt + net * vt - out * (vs + net);
    forall more: int | more > out
      ensures !KeepsProduct(vs, vt, net, more)
    {
      MulMonotone(out + 1, more, vs + net);
      assert (vs + net) * (vt - more) == vs * vt + net * vt - more * (vs + net);
    }
    assert vt * (vs + net) == vt * vs + net * vt;
    ProductPositive(vt, vs);
    if out >= vt {
      MulMonotone(vt, out, vs + net);
    }
  }

  /** The sell formula is the buy formula with the two reserves exchanged, so it pays the most SOL it can. */
  lemma SellPaysTheMost(vs: int, vt: int, tokens: int)
    requires vs > 0 && vt > 0 && tokens > 0
    ensures SolOutForTokens(vs, vt, tokens) == TokensOutForNetSol(vt, vs, tokens)
    ensures 0 <= SolOutForTokens(vs, vt, tokens) < vs
    ensures PaysTheMost(vt, vs, tokens, SolOutForTokens(vs, vt, tokens))
  {
    BuyPaysTheMost(vt, vs, tokens);
  }

  /** Splitting a buy in two never yields more tokens than buying at once. */
  lemma SplittingABuyNeverPaysMore(vs: int, vt: int, n1: int, n2: int)
    requires vs > 0 && vt > 0 && n1 > 0 && n2 > 0
    ensures var first := TokensOutForNetSol(vs, vt, n1);
            var second := TokensOutForNetSol(vs + n1, vt - first, n2);
            first + second <= TokensOutForNetSol(vs, vt, n1 + n2)
  {
    BuyPaysTheMost(vs, vt, n1);
    var first := TokensOutForNetSol(vs, vt, n1);
    BuyPaysTheMost(vs + n1, vt - first, n2);
    var second := TokensOutForNetSol(vs + n1, vt - first, n2);
    BuyPaysTheMost(vs, vt, n1 + n2);
    TwoPaymentsCompose(vs, vt, n1, first, n2, second);
  }

  lemma TwoPaymentsCompose(a: int, b: int, n1: int, out1: int, n2: int, out2: int)
    requires KeepsProduct(a, b, n1, out1) && KeepsProduct(a + n1, b - out1, n2, out2)
    ensures KeepsProduct(a, b, n1 + n2, out1 + out2)
  {
    assert a + n1 + n2 == a + (n1 + n2) && b - out1 - out2 == b - (out1 + out2);
  }

  /** Selling at most what a buy paid returns at most the SOL that reached the curve. */
  lemma BuyThenSellReturnsAtMostNet(vs: int, vt: int, net: int, sold: int)
    requires vs > 0 && vt > 0 && net > 0
    requires sold <= TokensOutForNetSol(vs, vt, net)
    ensures SolOutForTokens(vs + net, vt - TokensOutForNetSol(vs, vt, net), sold) <= net
  {
    var out := TokensOutForNetSol(vs, vt, net);
    BuyPaysTheMost(vs, vt, net);
    if sold > 0 {
      ProductPositive(sold, vs + net);
      SoldWithinBought(vs, vt, net, out, sold);
      FloorAtMost(sold * (vs + net), vt - out + sold, net);
    }
  }

  lemma SoldWithinBought(vs: int, vt: int, net: int, out: int, sold: int)
    requires vs > 0 && net > 0 && 0 < sold <= out && KeepsProduct(vs, vt, net, out)
    ensures sold * (vs + net) <= net * (vt - out + sold)
  {
    assert (vs + net) * (vt - out) == vs * vt + net * vt - out * vs - out * net;
    MulMonotone(sold, out, vs);
    assert sold * (vs + net) == sold * vs + sold * net;
    assert net * (vt - out + sold) == net * vt - out * net + sold * net;
  }

  /** The net of an entry is the largest amount that, with its fees on top, fits in the total spent. */
  lemma EntryNetFitsInTotal(total: int, feeBps: nat, creatorFeeBps: nat)
    requires total >= 0
    ensures var net := EntryNetLamports(total, feeBps, creatorFeeBps);
            && 0 <= net <= total
            && net * (BPS + feeBps + creatorFeeBps) <= total * BPS
            && total * BPS < (net + 1) * (BPS + feeBps + creatorFeeBps)
  {
    var rate := feeBps + creatorFeeBps;
    FloorBounds(total * BPS, BPS + rate);
    assert total * (BPS + rate) == total * BPS + total * rate;
    FloorAtMost(total * BPS, BPS + rate, total);
  }

  lemma SellNetAtMostGross(gross: int, feeBps: nat, creatorFeeBps: nat)
    requires gross >= 0
    ensures SellNetLamports(gross, feeBps, creatorFeeBps) <= gross
    ensures (gross - SellNetLamports(gross, feeBps, creatorFeeBps)) * BPS >= gross * (feeBps + creatorFeeBps)
  {
    FloorBounds(gross * (feeBps + creatorFeeBps) + BPS - 1, BPS);
  }

  /** A round trip never returns more than was paid, and the fees of both legs only lower it. */
  lemma RoundTripNeverProfits(vs: int, vt: int, total: int, feeBps: nat, creatorFeeBps: nat)
    requires vs > 0 && vt > 0 && total >= 0
    ensures var net := EntryNetLamports(total, feeBps, creatorFeeBps);
            var out := TokensOutForNetSol(vs, vt, net);
            var gross := SolOutForTokens(vs + net, vt - out, out);
            SellNetLamports(gross, feeBps, creatorFeeBps) <= gross <= net <= total
  {
    var net := EntryNetLamports(total, feeBps, creatorFeeBps);
    EntryNetFitsInTotal(total, feeBps, creatorFeeBps);
    var out := TokensOutForNetSol(vs, vt, net);
    var gross := SolOutForTokens(vs + net, vt - out, out);
    if net > 0 {
      BuyPaysTheMost(vs, vt, net);
      BuyThenSellReturnsAtMostNet(vs, vt, net, out);
      if out > 0 {
        SellPaysTheMost(vs + net, vt - out, out);
      }
    }
    SellNetAtMostGross(gross, feeBps, creatorFeeBps);
  }

  // ---- runs of buys and sells ------------------------------------------------------------------------------------

  /** One trade against a curve: SOL that reaches it, or tokens sold into it. */
  datatype Trade = Buy(net: int) | Sell(tokens: int)

  /** The virtual reserves after a trade of a positive amount. */
  function AfterTrade(vs: int, vt: int, t: Trade): (int, int) {
    match t
    case Buy(net) => if net > 0 then (vs + net, vt - TokensOutForNetSol(vs, vt, net)) else (vs, vt)
    case Sell(tokens) => if tokens > 0 then (vs - SolOutForTokens(vs, vt, tokens), vt + tokens) else (vs, vt)
  }

  function AfterTrades(vs: int, vt: int, ts: seq<Trade>): (int, int)
    decreases |ts|
  {
    if ts == [] then (vs, vt)
    else
      var (vs1, vt1) := AfterTrade(vs, vt, ts[0]);
      AfterTrades(vs1, vt1, ts[1..])
  }

  lemma TradeKeepsProduct(vs: int, vt: int, t: Trade)
    requires vs > 0 && vt > 0
    ensures var (vs1, vt1) := AfterTrade(vs, vt, t); vs1 > 0 && vt1 > 0 && vs1 * vt1 >= vs * vt
  {
    match t
    case Buy(net) =>
      if net > 0 {
        BuyPaysTheMost(vs, vt, net);
      }
    case Sell(tokens) =>
      if tokens > 0 {
        SellPaysTheMost(vs, vt, tokens);
        var out := SolOutForTokens(vs, vt, tokens);
        assert (vt + tokens) * (vs - out) == (vs - out) * (vt + tokens);
        assert vt * vs == vs * vt;
      }
  }

  /** Over any run of trades the product of the virtual reserves never falls and neither reserve is drained. */
  lemma {:induction false} ProductNeverFalls(vs: int, vt: int, ts: seq<Trade>)
    requires vs > 0 && vt > 0
    ensures AfterTrades(vs, vt, ts).0 > 0 && AfterTrades(vs, vt, ts).1 > 0
    ensures AfterTrades(vs, vt, ts).0 * AfterTrades(vs, vt, ts).1 >= vs * vt
    decreases |ts|
  {
    if ts != [] {
      TradeKeepsProduct(vs, vt, ts[0]);
      var (vs1, vt1) := AfterTrade(vs, vt, ts[0]);
      ProductNeverFalls(vs1, vt1, ts[1..]);
    }
  }

  /** No run of trades that gives back all the tokens it took (or more) takes SOL out of the curve. */
  lemma NoProfitableCycle(vs: int, vt: int, ts: seq<Trade>)
    requires vs > 0 && vt > 0
    requires AfterTrades(vs, vt, ts).1 <= vt
    ensures AfterTrades(vs, vt, ts).0 >= vs
  {
    ProductNeverFalls(vs, vt, ts);
    var (vs1, vt1) := AfterTrades(vs, vt, ts);
    MulMonotone(vt1, vt, vs1);
    assert (vs - vs1) * vt == vs * vt - vs1 * vt;
    if vs1 < vs {
      ProductPositive(vs - vs1, vt);
    }
  }

  // ---- consistency of reported trades ----------------------------------------------------------------------------

  /** The reserves that follow from a trade of `sol` against `tokens`. */
  function PostTradeState(pre: Reserves, isBuy: bool, sol: int, tokens: int): Reserves {
    PreTradeState(pre, !isBuy, sol, tokens)
  }

  /** An event links to a state exactly when its post state is that state moved by its own amounts. */
  lemma LinksExactlyWhenPostFollows(prev: Reserves, post: Reserves, isBuy: bool, sol: int, tokens: int)
    ensures ChainLinks(prev, post, isBuy, sol, tokens) <==> post == PostTradeState(prev, isBuy, sol, tokens)
  {
  }

  ghost predicate Consistent(r: Reserves) {
    r.virtualSol > 0 && r.virtualToken > 0 && 0 <= r.realSol <= r.virtualSol && 0 <= r.realToken <= r.virtualToken
  }

  /** The step check accepts every floor buy no larger than the SOL reserve on a curve of at least 2,000,000 tokens. */
  lemma StepCheckAcceptsBuys(pre: Reserves, net: int)
    requires Consistent(pre)
    requires 0 < net <= pre.virtualSol && pre.virtualToken >= 2_000_000
    ensures var out := TokensOutForNetSol(pre.virtualSol, pre.virtualToken, net);
            IsConstantProductStep(PostTradeState(pre, true, net, out), true, net, out)
  {
    BuyPaysTheMost(pre.virtualSol, pre.virtualToken, net);
    DustWithinTolerance(pre.virtualSol, pre.virtualToken, net, TokensOutForNetSol(pre.virtualSol, pre.virtualToken, net));
  }

  /** The same for floor sells, on a curve of at least 2,000,000 lamports. */
  lemma StepCheckAcceptsSells(pre: Reserves, tokens: int)
    requires Consistent(pre)
    requires 0 < tokens <= pre.virtualToken && pre.virtualSol >= 2_000_000
    ensures var out := SolOutForTokens(pre.virtualSol, pre.virtualToken, tokens);
            IsConstantProductStep(PostTradeState(pre, false, out, tokens), false, out, tokens)
  {
    SellPaysTheMost(pre.virtualSol, pre.virtualToken, tokens);
    var out := SolOutForTokens(pre.virtualSol, pre.virtualToken, tokens);
    DustWithinTolerance(pre.virtualToken, pre.virtualSol, tokens, out);
    assert (pre.virtualToken + tokens) * (pre.virtualSol - out) == (pre.virtualSol - out) * (pre.virtualToken + tokens);
    assert pre.virtualToken * pre.virtualSol == pre.virtualSol * pre.virtualToken;
  }

  /** The product grows by less than the traded reserve, which is at most a millionth of it here. */
  lemma DustWithinTolerance(a: int, b: int, amount: int, out: int)
    requires 0 < amount <= a && b >= 2_000_000
    requires PaysTheMost(a, b, amount, out)
    ensures 0 <= ((a + amount) * (b - out) - a * b) * K_TOLERANCE_DEN <= a * b
  {
    assert !KeepsProduct(a, b, amount, out + 1);
    assert (a + amount) * (b - (out + 1)) == (a + amount) * (b - out) - (a + amount);
    MulMonotone(2_000_000, b, a);
  }

  // ---- impacts ---------------------------------------------------------------------------------------------------

  /**
   * A priced buy: the scaled impact is at least floor(SCALE * net / vSol), and the scaled price ratio lies strictly
   * below SCALE * (1 + net / vSol) * (1 + 1 / out), written without division.
   */
  lemma BuyImpactBounds(r: Reserves, net: int)
    requires 0 < TokensOutForNetSol(r.virtualSol, r.virtualToken, net) <= r.realToken
    ensures var out := TokensOutForNetSol(r.virtualSol, r.virtualToken, net);
            && BuyImpactScaled(r, net).Some?
            && BuyImpactScaled(r, net).value >= TruncDiv(SCALE * net, r.virtualSol) >= 0
            && (BuyImpactScaled(r, net).value + SCALE) * (out * r.virtualSol)
               < SCALE * ((r.virtualSol + net) * (out + 1))
  {
    var vs, vt := r.virtualSol, r.virtualToken;
    var out := TokensOutForNetSol(vs, vt, net);
    ProductPositive(net, vt);
    FloorBounds(net * vt, vs + net);
    ProductPositive(out, vs);
    var low := TruncDiv(SCALE * net, vs);
    FloorBounds(SCALE * net, vs);
    BuyRatioLow(vs, vt, net, out, low);
    FloorAtLeast(net * vt * SCALE, out * vs, SCALE + low);
    FloorBounds(net * vt * SCALE, out * vs);
    assert (out + 1) * (vs + net) == (vs + net) * (out + 1);
    MulMonotone(net * vt + 1, (out + 1) * (vs + net), SCALE);
  }

  lemma BuyRatioLow(vs: int, vt: int, net: int, out: int, low: int)
    requires vs > 0 && out > 0 && out * (vs + net) <= net * vt && low * vs <= SCALE * net
    ensures (SCALE + low) * (out * vs) <= net * vt * SCALE
  {
    MulMonotone(low * vs, SCALE * net, out);
    MulMonotone(out * (vs + net), net * vt, SCALE);
    assert (SCALE + low) * (out * vs) == SCALE * (out * vs) + (low * vs) * out;
    assert (SCALE * net) * out == SCALE * (out * net);
    assert out * (vs + net) == out * vs + out * net;
  }

  /**
   * A priced sell: SCALE * tok / (vTok + tok) <= impact, and
   * impact < SCALE * (tok / (vTok + tok) + vTok / (tok * vSol)) + 1, written without division.
   */
  lemma SellImpactBounds(r: Reserves, tokens: int)
    requires 0 < SolOutForTokens(r.virtualSol, r.virtualToken, tokens) <= r.realSol
    ensures var vs, vt := r.virtualSol, r.virtualToken;
            && SellImpactScaled(r, tokens).Some?
            && SellImpactScaled(r, tokens).value * (vt + tokens) >= SCALE * tokens
            && SellImpactScaled(r, tokens).value * (tokens * vs) * (vt + tokens)
               < SCALE * (tokens * vs) * tokens + (SCALE * vt + tokens * vs) * (vt + tokens)
  {
    var vs, vt := r.virtualSol, r.virtualToken;
    var out := SolOutForTokens(vs, vt, tokens);
    ProductPositive(tokens, vs);
    FloorBounds(tokens * vs, vt + tokens);
    ProductPositive(out, vt);
    ProductPositive(out * vt, SCALE);
    var ratio := TruncDiv(out * vt * SCALE, tokens * vs);
    FloorBounds(out * vt * SCALE, tokens * vs);
    SellRatioHigh(vs, vt, tokens, out, ratio);
    SellRatioLow(vs, vt, tokens, out, ratio);
    assert (SCALE - ratio) * (vt + tokens) == SCALE * vt + SCALE * tokens - ratio * (vt + tokens);
    if ratio > SCALE {
      MulMonotone(SCALE, ratio, vt + tokens);
      ProductPositive(SCALE, tokens);
    }
  }

  lemma SellRatioHigh(vs: int, vt: int, tokens: int, out: int, ratio: int)
    requires vs > 0 && vt > 0 && tokens > 0 && ratio >= 0
    requires out * (vt + tokens) <= tokens * vs
    requires ratio * (tokens * vs) <= out * vt * SCALE
    ensures ratio * (vt + tokens) <= SCALE * vt
  {
    ProductPositive(tokens, vs);
    var b, d := tokens * vs, vt + tokens;
    MulMonotone(ratio * b, out * vt * SCALE, d);
    MulMonotone(out * d, b, vt * SCALE);
    assert ratio * b * d == ratio * d * b;
    assert out * vt * SCALE * d == out * d * (vt * SCALE);
    assert b * (vt * SCALE) == (SCALE * vt) * b;
    assert (SCALE * vt + 1) * b == (SCALE * vt) * b + b;
    if ratio * d > SCALE * vt {
      MulMonotone(SCALE * vt + 1, ratio * d, b);
    }
  }

  /** From x > y * n - b, scaled by d. */
  lemma ScaledLower(x: int, y: int, n: int, b: int, d: int)
    requires d > 0 && x > y * n - b
    ensures x * d > (y * d) * n - b * d
  {
    MulMonotone(y * n - b + 1, x, d);
    assert (y * n - b + 1) * d == (y * n) * d - b * d + d;
    assert (y * n) * d == (y * d) * n;
  }

  lemma SellRatioSums(S: int, b: int, d: int, vt: int, tokens: int)
    requires d == vt + tokens
    ensures S * b * d - ((b - d) * (vt * S) - b * d) == S * b * tokens + (S * vt + b) * d
  {
    assert (b - d) * (vt * S) == b * (vt * S) - d * (vt * S);
    assert S * b * d == S * b * vt + S * b * tokens;
    assert b * (vt * S) == S * b * vt;
    assert (S * vt + b) * d == d * (vt * S) + b * d;
  }

  lemma SellRatioLow(vs: int, vt: int, tokens: int, out: int, ratio: int)
    requires vs > 0 && vt > 0 && tokens > 0
    requires tokens * vs < (out + 1) * (vt + tokens)
    requires out * vt * SCALE < (ratio + 1) * (tokens * vs)
    ensures (SCALE - ratio) * (tokens * vs) * (vt + tokens)
            < SCALE * (tokens * vs) * tokens + (SCALE * vt + tokens * vs) * (vt + tokens)
  {
    RatioBelow(SCALE, tokens * vs, vt + tokens, vt, out, ratio);
    SellRatioSums(SCALE, tokens * vs, vt + tokens, vt, tokens);
  }

  lemma RatioBelow(S: int, b: int, d: int, vt: int, out: int, ratio: int)
    requires S > 0 && d > 0 && vt > 0 && b < (out + 1) * d && out * vt * S < (ratio + 1) * b
    ensures (S - ratio) * b * d < S * b * d - ((b - d) * (vt * S) - b * d)
  {
    assert (ratio + 1) * b == ratio * b + b && out * vt * S == out * (vt * S);
    ScaledLower(ratio * b, out, vt * S, b, d);
    assert (out + 1) * d == out * d + d;
    ProductPositive(vt, S);
    MulMonotone(b - d, out * d, vt * S);
    assert (S - ratio) * b * d == S * b * d - ratio * b * d;
  }
}
