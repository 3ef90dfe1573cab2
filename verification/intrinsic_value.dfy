/** DIEM valued as a perpetuity of one dollar of API credit per day, and the
    four-way buy verdict built on that value. */
module IntrinsicValue {
  import opened Basics

  const DailyApiCredit: real := 1.0
  const AnnualApiCredit: real := 365.0
  /** The rate substituted for a non-positive discount rate. */
  const FallbackDiscountRate: real := 0.25
  /** Payback periods below this many days earn a HOLD. */
  const ReasonablePaybackDays: real := 300.0
  /** A price-to-value ratio below this is a STRONG BUY. */
  const StrongBuyRatio: real := 0.85

  /** The calculator's only state: its configured discount rate, which the
      constructor stores without checking. */
  datatype Calculator = Calculator(discountRate: real)

  /** The buy verdicts "STRONG BUY", "BUY", "HOLD" and "AVOID". */
  datatype Verdict = StrongBuy | Buy | Hold | Avoid {
    function Label(): string {
      match this
      case StrongBuy => "STRONG BUY"
      case Buy => "BUY"
      case Hold => "HOLD"
      case Avoid => "AVOID"
    }
  }

  /** The rate `calculate_dcf_value` divides by: the argument, else the
      calculator's own rate, replaced by 0.25 when not positive. */
  function EffectiveRate(c: Calculator, discountRate: Option<real>): (rate: real)
    ensures rate > 0.0
    ensures var given := if discountRate.Some? then discountRate.value else c.discountRate;
            && (given > 0.0 ==> rate == given)
            && (given <= 0.0 ==> rate == FallbackDiscountRate)
  {
    var rate := if discountRate.Some? then discountRate.value else c.discountRate;
    if rate <= 0.0 then FallbackDiscountRate else rate
  }

  /** `calculate_dcf_value`: 365 / rate; never fails, a non-positive rate
      (given or stored) values the token at 1460. */
  function DcfValue(c: Calculator, discountRate: Option<real>): (v: real)
    ensures v > 0.0
    ensures var rate := if discountRate.Some? then discountRate.value else c.discountRate;
            && (rate > 0.0 ==> v * rate == AnnualApiCredit)
            && (rate <= 0.0 ==> v == 1460.0)
  {
    var rate := EffectiveRate(c, discountRate);
    DivisionInverts(AnnualApiCredit, rate);
    AnnualApiCredit / rate
  }

  lemma DivisionInverts(x: real, rate: real)
    requires rate > 0.0
    ensures x / rate * rate == x
  {
  }

  /** A higher discount rate always means a lower intrinsic value. */
  lemma DcfStrictlyDecreasing(c: Calculator, r1: real, r2: real)
    requires 0.0 < r1 < r2
    ensures DcfValue(c, Some(r1)) > DcfValue(c, Some(r2))
  {
    var v1, v2 := DcfValue(c, Some(r1)), DcfValue(c, Some(r2));
    assert v1 * r1 == AnnualApiCredit && v2 * r2 == AnnualApiCredit;
    SameProductSmallerFactor(v1, v2, r1, r2);
  }

  /** Two positive products equal to the same constant: the larger factor
      pairs with the smaller cofactor. */
  lemma SameProductSmallerFactor(v1: real, v2: real, r1: real, r2: real)
    requires 0.0 < r1 < r2 && v2 > 0.0
    requires v1 * r1 == v2 * r2
    ensures v1 > v2
  {
    assert v2 * r1 < v2 * r2;
    CancelPositiveFactor(v2, v1, r1);
  }

  lemma CancelPositiveFactor(a: real, b: real, r: real)
    requires r > 0.0 && a * r < b * r
    ensures a < b
  {
    assert (b - a) * r > 0.0;
  }

  /** `calculate_payback_period`: at one dollar of credit per day, the payback
      in days is the price itself. */
  function PaybackPeriod(marketPrice: real): (days: real)
    ensures days * DailyApiCredit == marketPrice
    ensures days == marketPrice
  {
    marketPrice / DailyApiCredit
  }

  /** The if-chain of `analyze_valuation`, over its three inputs. */
  function BuyVerdict(undervalued: bool, priceToDcf: real, paybackDays: real): (v: Verdict)
    ensures undervalued <==> v == StrongBuy || v == Buy
    ensures v == StrongBuy <==> undervalued && priceToDcf < StrongBuyRatio
    ensures v == Hold ==> paybackDays < ReasonablePaybackDays
    ensures !undervalued && paybackDays < ReasonablePaybackDays ==> v == Hold
  {
    if undervalued && priceToDcf < StrongBuyRatio then StrongBuy
    else if undervalued then Buy
    else if paybackDays < ReasonablePaybackDays then Hold
    else Avoid
  }

  /** The dictionary `analyze_valuation` returns (the rationale text is not
      modelled). */
  datatype Valuation = Valuation(
    marketPrice: real,
    dcfValue25: real,
    dcfValue50: real,
    mintCost: real,
    paybackDays: real,
    priceToDcfRatio: real,
    priceToMintRatio: real,
    isUndervalued: bool,
    buySignal: Verdict)

  /** `analyze_valuation`: the verdict compares the price with the value at a
      fixed 25% rate, whatever rate the calculator holds. */
  function AnalyzeValuation(c: Calculator, marketPrice: real, vvvPrice: real, mintRate: real): (a: Valuation)
    ensures a.marketPrice == marketPrice
    ensures a.dcfValue25 == 1460.0 && a.dcfValue50 == 730.0
    ensures a.mintCost == mintRate * vvvPrice
    ensures a.paybackDays == marketPrice
    ensures a.priceToDcfRatio * 1460.0 == marketPrice
    ensures a.mintCost <= 0.0 ==> a.priceToMintRatio == 0.0
    ensures a.mintCost > 0.0 ==> a.priceToMintRatio * a.mintCost == marketPrice
    ensures a.isUndervalued <==> marketPrice < 1460.0
    ensures a.buySignal == StrongBuy <==> marketPrice < StrongBuyRatio * 1460.0
    ensures a.buySignal == Buy <==> StrongBuyRatio * 1460.0 <= marketPrice < 1460.0
    ensures a.buySignal == Avoid <==> marketPrice >= 1460.0
    ensures a.buySignal != Hold  // a price not below 1460 never pays back within 300 days
  {
    var dcf25 := DcfValue(c, Some(0.25));
    var dcf50 := DcfValue(c, Some(0.50));
    var mintCost := mintRate * vvvPrice;
    var paybackDays := PaybackPeriod(marketPrice);
    var priceToDcf := marketPrice / dcf25;
    var priceToMint := if mintCost > 0.0 then marketPrice / mintCost else 0.0;
    DivisionInverts(marketPrice, dcf25);
    DivisionInverts(marketPrice, if mintCost > 0.0 then mintCost else 1.0);
    var undervalued := marketPrice < dcf25;
    RatioBelowIff(marketPrice, dcf25, StrongBuyRatio);
    Valuation(
      marketPrice, dcf25, dcf50, mintCost, paybackDays, priceToDcf, priceToMint,
      undervalued, BuyVerdict(undervalued, priceToDcf, paybackDays))
  }

  lemma RatioBelowIff(x: real, d: real, k: real)
    requires d > 0.0
    ensures x / d < k <==> x < k * d
  {
    assert x / d * d == x;
    if x / d < k {
      assert x / d * d < k * d;
    } else {
      assert x / d * d >= k * d;
    }
  }
}
