/** The mint-and-sell classifier: a three-way recommendation with a
    confidence, driven by the spread of the DIEM market price over the mint
    cost, and the rule deciding when that analysis is worth an alert. */
module SpreadAnalyzer {
  import opened Basics

  const DefaultMinProfitPercent: real := 5.0
  /** Spreads above this percentage make a profitable call HIGH confidence. */
  const HighConfidenceSpread: real := 10.0
  /** Spreads below this percentage are alerted as a likely data anomaly. */
  const AnomalySpread: real := -75.0

  /** The dictionary `analyze_mint_arbitrage` returns. */
  datatype SpreadAnalysis = SpreadAnalysis(
    mintCostUsd: real,
    marketPriceUsd: real,
    spreadUsd: real,
    spreadPercent: real,
    isProfitable: bool,
    recommendation: MintAction,
    confidence: Confidence,
    mintRate: real,
    estimatedProfitPerDiem: real)

  /** `analyze_mint_arbitrage`: the spread in USD and as a percentage of a
      positive mint cost (zero otherwise), classified against the minimum
      profit percentage. */
  function AnalyzeMintArbitrage(minProfitPercent: real, mintCost: real, marketPrice: real, mintRate: real): (a: SpreadAnalysis)
    ensures a.mintCostUsd == mintCost && a.marketPriceUsd == marketPrice && a.mintRate == mintRate
    ensures a.spreadUsd == marketPrice - mintCost
    ensures mintCost <= 0.0 ==> a.spreadPercent == 0.0
    ensures mintCost > 0.0 ==> a.spreadPercent * mintCost == a.spreadUsd * 100.0
    ensures a.isProfitable <==> a.spreadPercent >= minProfitPercent
    ensures a.recommendation == MintAndSell <==> a.isProfitable
    ensures a.recommendation == HoldVvv <==> !a.isProfitable && a.spreadPercent < 0.0
    ensures a.recommendation == Monitor <==> 0.0 <= a.spreadPercent < minProfitPercent
    ensures a.recommendation == MintAndSell ==> (a.confidence == High <==> a.spreadPercent > HighConfidenceSpread)
    ensures a.recommendation == MintAndSell ==> a.confidence == High || a.confidence == Medium
    ensures a.recommendation == HoldVvv ==> a.confidence == High
    ensures a.recommendation == Monitor ==> a.confidence == Low
    ensures a.estimatedProfitPerDiem >= 0.0 && a.estimatedProfitPerDiem >= a.spreadUsd
    ensures a.estimatedProfitPerDiem == 0.0 || a.estimatedProfitPerDiem == a.spreadUsd
  {
    var spreadUsd := marketPrice - mintCost;
    var spreadPercent := if mintCost > 0.0 then spreadUsd / mintCost * 100.0 else 0.0;
    PercentTimesCost(spreadUsd, mintCost);
    var isProfitable := spreadPercent >= minProfitPercent;
    var isNegative := spreadPercent < 0.0;
    var recommendation :=
      if isProfitable then MintAndSell
      else if isNegative then HoldVvv
      else Monitor;
    var confidence :=
      if isProfitable then (if spreadPercent > HighConfidenceSpread then High else Medium)
      else if isNegative then High
      else Low;
    SpreadAnalysis(
      mintCost, marketPrice, spreadUsd, spreadPercent, isProfitable,
      recommendation, confidence, mintRate, Max(0.0, spreadUsd))
  }

  lemma PercentTimesCost(spread: real, cost: real)
    ensures cost > 0.0 ==> spread / cost * 100.0 * cost == spread * 100.0
  {
    if cost > 0.0 {
      assert spread / cost * cost == spread;
    }
  }

  /** `should_alert`: a profitable opportunity, or a spread so negative that
      the data is probably wrong. */
  function ShouldAlert(a: SpreadAnalysis): (alert: bool)
    ensures a.isProfitable ==> alert
    ensures a.spreadPercent < AnomalySpread ==> alert
    ensures !a.isProfitable && a.spreadPercent >= AnomalySpread ==> !alert
  {
    a.isProfitable || a.spreadPercent < AnomalySpread
  }

  /** Over a positive mint cost, the analysis is profitable exactly when the
      market pays at least the cost plus the minimum profit margin. */
  lemma ProfitableIffMarketCoversMargin(minProfitPercent: real, mintCost: real, marketPrice: real, mintRate: real)
    requires mintCost > 0.0
    ensures AnalyzeMintArbitrage(minProfitPercent, mintCost, marketPrice, mintRate).isProfitable
            <==> marketPrice * 100.0 >= mintCost * (100.0 + minProfitPercent)
  {
    var a := AnalyzeMintArbitrage(minProfitPercent, mintCost, marketPrice, mintRate);
    var p := a.spreadPercent;
    assert p * mintCost == (marketPrice - mintCost) * 100.0;
    if p >= minProfitPercent {
      assert p * mintCost >= minProfitPercent * mintCost;
    } else {
      assert p * mintCost < minProfitPercent * mintCost;
    }
  }

  /** An alert is raised exactly for a spread at or above the minimum profit
      or below -75%. */
  lemma ShouldAlertIff(minProfitPercent: real, mintCost: real, marketPrice: real, mintRate: real)
    ensures var a := AnalyzeMintArbitrage(minProfitPercent, mintCost, marketPrice, mintRate);
            ShouldAlert(a) <==> a.spreadPercent >= minProfitPercent || a.spreadPercent < AnomalySpread
  {
  }

  /** An alerted analysis never recommends MONITOR, so the monitor only ever
      remembers MINT & SELL or HOLD VVV as its last arbitrage alert. */
  lemma AlertedRecommendationIsDecisive(minProfitPercent: real, mintCost: real, marketPrice: real, mintRate: real)
    requires ShouldAlert(AnalyzeMintArbitrage(minProfitPercent, mintCost, marketPrice, mintRate))
    ensures AnalyzeMintArbitrage(minProfitPercent, mintCost, marketPrice, mintRate).recommendation != Monitor
  {
  }

  /** With a non-positive mint cost the spread percentage is pinned to zero:
      under a positive threshold the call is MONITOR and never alerted. */
  lemma NonPositiveCostIsQuiet(minProfitPercent: real, mintCost: real, marketPrice: real, mintRate: real)
    requires mintCost <= 0.0 && minProfitPercent > 0.0
    ensures var a := AnalyzeMintArbitrage(minProfitPercent, mintCost, marketPrice, mintRate);
            a.recommendation == Monitor && a.confidence == Low && !ShouldAlert(a)
  {
  }
}
