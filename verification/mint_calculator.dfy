/** The DIEM mint-rate formula, the mint cost and the simple mint-and-sell
    spread. The exponential comes in as an abstract function whose only known
    properties are the ones the formula's monotonicity rests on. */
module MintCalculator {
  import opened Basics

  /** What the rest of the model knows about `math.exp`. */
  ghost predicate IsExponential(f: real -> real) {
    && f(0.0) == 1.0
    && (forall x :: f(x) > 0.0)
    && (forall x, y :: x < y ==> f(x) < f(y))
  }

  /** Any positive, strictly increasing function with `f(0) = 1` stands for
      `math.exp`; the witness shows such functions exist. */
  type Exp = f: real -> real | IsExponential(f)
    witness (WitnessIsExponential(); Witness)

  /** 1 + x to the right of 0, 1 / (1 - x) to the left. */
  function Witness(x: real): real {
    if x >= 0.0 then 1.0 + x else 1.0 / (1.0 - x)
  }

  lemma WitnessIsExponential()
    ensures IsExponential(Witness)
  {
    forall x, y | x < y
      ensures Witness(x) < Witness(y)
    {
      if y < 0.0 {
        DivideByLarger(1.0 - y, 1.0 - x);
      }
    }
  }

  lemma DivideByLarger(a: real, b: real)
    requires 0.0 < a < b
    ensures 1.0 / b < 1.0 / a
  {
    assert 1.0 / b * b == 1.0;
    assert 1.0 / a * a == 1.0;
    assert 1.0 / b * a < 1.0 / b * b;
  }

  const BaseMintRate: real := 90.0
  const TargetDiemSupply: real := 38000.0
  const AdjustmentPower: real := 3.0
  /** The supply taken when none is given. */
  const FallbackSupply: real := 32000.0

  function Cube(x: real): real {
    x * x * x
  }

  /** `estimate_mint_rate`: 90 · exp(3 · (supply / 38000)^3), with the supply
      defaulting to 32000. */
  function EstimateMintRate(exp: Exp, currentSupply: Option<real>): (r: real)
    ensures r > 0.0
    ensures currentSupply == Some(0.0) ==> r == BaseMintRate
    ensures currentSupply == Some(TargetDiemSupply) ==> r == BaseMintRate * exp(3.0)
  {
    var supply := currentSupply.GetOr(FallbackSupply);
    var ratio := supply / TargetDiemSupply;
    var exponent := AdjustmentPower * Cube(ratio);
    BaseMintRate * exp(exponent)
  }

  lemma {:induction false} CubeStrictlyIncreasing(x: real, y: real)
    requires x < y
    ensures Cube(x) < Cube(y)
  {
    var d := y - x;
    assert Cube(y) - Cube(x) == d * (x * x + x * y + y * y);
    assert x * x + x * y + y * y > 0.0 by {
      if x * y >= 0.0 {
        assert x * x + y * y > 0.0 by {
          if x == 0.0 { assert y != 0.0; assert y * y > 0.0; }
          else { assert x * x > 0.0; assert y * y >= 0.0; }
        }
      } else {
        SquareNonNegative(x + y);
        assert x * x + x * y + y * y == (x + y) * (x + y) - x * y;
      }
    }
    assert d > 0.0;
  }

  lemma SquareNonNegative(z: real)
    ensures z * z >= 0.0
  {
    if z < 0.0 {
      assert z * z == (-z) * (-z);
    }
  }

  /** Without a supply the estimate is the one at 32000. */
  lemma EstimateDefaultsToFallbackSupply(exp: Exp)
    ensures EstimateMintRate(exp, None) == EstimateMintRate(exp, Some(32000.0))
  {
  }

  /** A larger supply always means a dearer mint. */
  lemma EstimateStrictlyIncreasing(exp: Exp, s1: real, s2: real)
    requires s1 < s2
    ensures EstimateMintRate(exp, Some(s1)) < EstimateMintRate(exp, Some(s2))
  {
    var r1, r2 := s1 / TargetDiemSupply, s2 / TargetDiemSupply;
    assert r1 < r2;
    CubeStrictlyIncreasing(r1, r2);
    var e1, e2 := exp(AdjustmentPower * Cube(r1)), exp(AdjustmentPower * Cube(r2));
    assert e1 < e2;
  }

  /** The answer of the live mint-rate endpoint: the request failed, the body
      could not be parsed, or it parsed with or without a `mint_rate` field. */
  datatype MintRateResponse = RequestFailed | Malformed | Body(mintRate: Option<real>)

  /** `get_current_mint_rate`: the live value, `0.0` when the field is
      missing, and the estimate when the request or the parsing fails. */
  function CurrentMintRate(exp: Exp, response: MintRateResponse): (r: real)
    ensures response.RequestFailed? || response.Malformed? ==> r == EstimateMintRate(exp, None) && r > 0.0
    ensures response.Body? ==> r == response.mintRate.GetOr(0.0)
  {
    match response
    case RequestFailed => EstimateMintRate(exp, None)
    case Malformed => EstimateMintRate(exp, None)
    case Body(field) => field.GetOr(0.0)
  }

  /** `calculate_mint_cost`: the given rate, or a freshly fetched one, times the
      VVV price, without clamping. */
  function MintCost(exp: Exp, vvvPrice: real, mintRate: Option<real>, response: MintRateResponse): (cost: real)
    ensures var rate := if mintRate.Some? then mintRate.value else CurrentMintRate(exp, response);
            && (rate > 0.0 && vvvPrice > 0.0 ==> cost > 0.0)
            && (rate < 0.0 && vvvPrice > 0.0 ==> cost < 0.0)
            && (rate == 0.0 || vvvPrice == 0.0 ==> cost == 0.0)
            && (vvvPrice != 0.0 ==> cost / vvvPrice == rate)
  {
    var rate := if mintRate.Some? then mintRate.value else CurrentMintRate(exp, response);
    rate * vvvPrice
  }

  /** The result of `calculate_arbitrage_spread`. */
  datatype ArbitrageSpread = ArbitrageSpread(
    mintCostUsd: real,
    marketPriceUsd: real,
    spreadUsd: real,
    spreadPercent: real,
    isProfitable: bool,
    recommendation: MintAction,
    mintRate: real)

  /** `calculate_arbitrage_spread`: profitable as soon as the market price
      exceeds a positive mint cost, with no minimum-profit threshold. The
      first response feeds the mint cost when no rate is given, the second
      the reported rate when the given one is missing or zero. */
  function CalculateArbitrageSpread(
    exp: Exp, vvvPrice: real, diemMarketPrice: real, mintRate: Option<real>,
    costResponse: MintRateResponse, rateResponse: MintRateResponse): (a: ArbitrageSpread)
    ensures a.mintCostUsd == MintCost(exp, vvvPrice, mintRate, costResponse)
    ensures a.spreadUsd == diemMarketPrice - a.mintCostUsd
    ensures a.mintCostUsd <= 0.0 ==> a.spreadPercent == 0.0 && !a.isProfitable
    ensures a.mintCostUsd > 0.0 ==> a.spreadPercent * a.mintCostUsd == a.spreadUsd * 100.0
    ensures a.isProfitable <==> a.spreadPercent > 0.0
    ensures a.isProfitable <==> a.mintCostUsd > 0.0 && diemMarketPrice > a.mintCostUsd
    ensures a.recommendation == (if a.isProfitable then MintAndSell else HoldVvv)
    ensures a.mintRate == (if TruthyReal(mintRate) then mintRate.value else CurrentMintRate(exp, rateResponse))
  {
    var mintCost := MintCost(exp, vvvPrice, mintRate, costResponse);
    var spreadUsd := diemMarketPrice - mintCost;
    var spreadPercent := if mintCost > 0.0 then spreadUsd / mintCost * 100.0 else 0.0;
    var isProfitable := spreadPercent > 0.0;
    PercentSign(spreadUsd, mintCost);
    ArbitrageSpread(
      mintCost, diemMarketPrice, spreadUsd, spreadPercent, isProfitable,
      if isProfitable then MintAndSell else HoldVvv,
      if TruthyReal(mintRate) then mintRate.value else CurrentMintRate(exp, rateResponse))
  }

  /** A spread over a positive cost has the sign of the spread and multiplies
      back to it. */
  lemma PercentSign(spread: real, cost: real)
    ensures cost > 0.0 ==> spread / cost * 100.0 * cost == spread * 100.0
    ensures cost > 0.0 ==> (spread / cost * 100.0 > 0.0 <==> spread > 0.0)
  {
    if cost > 0.0 {
      assert spread / cost * cost == spread;
    }
  }
}
