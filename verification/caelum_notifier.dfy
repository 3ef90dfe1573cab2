/** The Caelum notification client without its socket: the JSON-RPC request
    it builds, whether a delivery counts as sent, and the priority each alert
    helper picks. Titles and messages are formatted text and not modelled. */
module CaelumNotifier {
  import Basics
  import PriceTracker
  import SpreadAnalyzer
  import IntrinsicValue
  import VvvSignals

  /** The priority levels "low", "medium", "high" and "urgent". */
  datatype Priority = Low | Medium | High | Urgent

  /** The `data` attached to a notification; `{}` when none is given. */
  datatype Payload =
    | NoData
    | ArbitrageData(spread: SpreadAnalyzer.SpreadAnalysis)
    | ValuationData(valuation: IntrinsicValue.Valuation)
    | MomentumData(signal: VvvSignals.BuySignal)
    | CrossExchangeData(opportunity: PriceTracker.Opportunity)

  /** The `params` object of the request. */
  datatype Params = Params(priority: Priority, device: string, category: string, data: Payload)

  /** The JSON-RPC request written to the socket (`rpcMethod` is its "method"
      member). */
  datatype Request = Request(jsonrpc: string, rpcMethod: string, params: Params, id: int)

  const Category: string := "venice_monitor"
  const AllDevices: string := "all"

  /** The payload `send_notification` builds. */
  function BuildRequest(priority: Priority, device: string, data: Basics.Option<Payload>): (r: Request)
    ensures r.jsonrpc == "2.0" && r.rpcMethod == "send_notification" && r.id == 1
    ensures r.params.category == Category
    ensures r.params.priority == priority && r.params.device == device
    ensures data.None? ==> r.params.data == NoData
    ensures data.Some? ==> r.params.data == data.value
  {
    Request("2.0", "send_notification", Params(priority, device, Category, data.GetOr(NoData)), 1)
  }

  /** How the exchange with the daemon ended: a timeout, a refused
      connection, any other failure (including an unparsable reply), or a
      reply that does or does not carry an "error" member. */
  datatype Transport = TimedOut | Refused | Failed | Replied(hasError: bool)

  /** Whether `send_notification` returns True after this exchange. */
  predicate Delivered(transport: Transport) {
    transport.Replied? && !transport.hasError
  }

  /** `send_notification`: the request it sends and the boolean it returns.
      It never raises: every failure is reported as False. */
  function SendNotification(priority: Priority, device: string, data: Basics.Option<Payload>, transport: Transport): (r: (Request, bool))
    ensures r.0 == BuildRequest(priority, device, data)
    ensures r.1 <==> transport == Replied(false)
  {
    (BuildRequest(priority, device, data), Delivered(transport))
  }

  function Abs(x: real): real {
    if x < 0.0 then -x else x
  }

  /** `send_arbitrage_alert`: high priority for a spread beyond ±10%, to all
      devices, with the analysis as data. */
  function ArbitrageAlert(a: SpreadAnalyzer.SpreadAnalysis): (r: Request)
    ensures r.params.priority == High <==> a.spreadPercent > 10.0 || a.spreadPercent < -10.0
    ensures r.params.priority == Medium <==> -10.0 <= a.spreadPercent <= 10.0
    ensures r.params.device == AllDevices && r.params.data == ArbitrageData(a)
    ensures r == BuildRequest(r.params.priority, AllDevices, Basics.Some(ArbitrageData(a)))
  {
    BuildRequest(if Abs(a.spreadPercent) > 10.0 then High else Medium, AllDevices, Basics.Some(ArbitrageData(a)))
  }

  /** A HIGH-confidence MINT & SELL and a likely data anomaly are both
      alerted at high priority. */
  lemma DecisiveArbitrageAlertsAreHigh(minProfitPercent: real, mintCost: real, marketPrice: real, mintRate: real)
    ensures var a := SpreadAnalyzer.AnalyzeMintArbitrage(minProfitPercent, mintCost, marketPrice, mintRate);
            && (a.recommendation == Basics.MintAndSell && a.confidence == Basics.High ==> ArbitrageAlert(a).params.priority == High)
            && (a.spreadPercent < SpreadAnalyzer.AnomalySpread ==> ArbitrageAlert(a).params.priority == High)
  {
  }

  /** `send_vvv_buy_signal`: high priority from a score of 5. */
  function MomentumAlert(b: VvvSignals.BuySignal): (r: Request)
    ensures r.params.priority == High <==> b.score >= 5
    ensures r.params.priority == Medium <==> b.score < 5
    ensures r.params.device == AllDevices && r.params.data == MomentumData(b)
    ensures r == BuildRequest(r.params.priority, AllDevices, Basics.Some(MomentumData(b)))
  {
    BuildRequest(if b.score >= 5 then High else Medium, AllDevices, Basics.Some(MomentumData(b)))
  }

  /** `send_vvv_buy_signal` as written: its message formats the RSI with the
      specification `.1f if rsi else 'N/A'`, which no value accepts (a float
      rejects it, and so does `None`), so the helper raises before anything
      is sent, whatever the analysis holds. */
  function MomentumAlertAsWritten(b: VvvSignals.BuySignal): (r: Basics.Result<Request, Fault>)
    ensures r.Err? && r.error == InvalidFormatSpec
  {
    Basics.Err(InvalidFormatSpec)
  }

  /** The helper as written never yields the request the alert is meant to
      send: even a STRONG BUY, which should go out at high priority, raises. */
  lemma MomentumAlertNeverSentAsWritten(b: VvvSignals.BuySignal)
    requires b.recommendation == VvvSignals.StrongBuy && b.score >= 5
    ensures MomentumAlertAsWritten(b) != Basics.Ok(MomentumAlert(b))
    ensures MomentumAlert(b).params.priority == High
  {
  }

  /** A momentum alert is high priority exactly for a STRONG BUY. */
  lemma MomentumPriorityMatchesRecommendation(
    t: VvvSignals.Thresholds, current: real, history: seq<real>,
    volumeCurrent: Basics.Option<real>, volumeAvg: Basics.Option<real>)
    requires VvvSignals.GenerateBuySignal(t, current, history, volumeCurrent, volumeAvg).Ok?
    ensures var b := VvvSignals.GenerateBuySignal(t, current, history, volumeCurrent, volumeAvg).value;
            MomentumAlert(b).params.priority == High <==> b.recommendation == VvvSignals.StrongBuy
  {
  }

  /** The exceptions an alert helper lets escape: a division by a zero value,
      or a format specification Python rejects. */
  datatype Fault = ZeroDivision | InvalidFormatSpec

  /** The discount of the market price below the value, in percent of the
      value; dividing by a zero value raises. */
  function Discount(dcfValue: real, marketPrice: real): (r: Basics.Result<real, Fault>)
    ensures dcfValue == 0.0 <==> r.Err?
    ensures r.Ok? ==> r.value * dcfValue == (dcfValue - marketPrice) * 100.0
  {
    if dcfValue == 0.0 then Basics.Err(ZeroDivision)
    else
      assert (dcfValue - marketPrice) / dcfValue * dcfValue == dcfValue - marketPrice;
      Basics.Ok((dcfValue - marketPrice) / dcfValue * 100.0)
  }

  /** For an analysed valuation the discount is the complement of the
      price-to-value ratio, and positive exactly when the price is below the
      value. */
  lemma DiscountOfValuation(c: IntrinsicValue.Calculator, marketPrice: real, vvvPrice: real, mintRate: real)
    ensures var v := IntrinsicValue.AnalyzeValuation(c, marketPrice, vvvPrice, mintRate);
            var d := Discount(v.dcfValue25, v.marketPrice);
            && d.Ok?
            && d.value == (1.0 - v.priceToDcfRatio) * 100.0
            && (d.value > 0.0 <==> v.isUndervalued)
  {
    var v := IntrinsicValue.AnalyzeValuation(c, marketPrice, vvvPrice, mintRate);
    var d := Discount(v.dcfValue25, v.marketPrice);
    assert d.value * 1460.0 == (1460.0 - marketPrice) * 100.0;
    assert (1.0 - v.priceToDcfRatio) * 100.0 * 1460.0 == (1460.0 - marketPrice) * 100.0;
  }

  /** `"STRONG BUY" in buy_signal`. */
  predicate NamesStrongBuy(v: IntrinsicValue.Verdict) {
    Basics.Contains(v.Label(), "STRONG BUY")
  }

  /** The substring test singles out the STRONG BUY verdict. */
  lemma NamesStrongBuyIff(v: IntrinsicValue.Verdict)
    ensures NamesStrongBuy(v) <==> v == IntrinsicValue.StrongBuy
  {
    if v == IntrinsicValue.StrongBuy {
      assert Basics.OccursAt(v.Label(), "STRONG BUY", 0);
    }
  }

  /** `send_valuation_alert`: high priority for a STRONG BUY verdict. The
      discount it prints divides by the value, so a zero value raises. */
  function ValuationAlert(v: IntrinsicValue.Valuation): (r: Basics.Result<Request, Fault>)
    ensures r.Err? <==> v.dcfValue25 == 0.0
    ensures r.Ok? ==>
      && (r.value.params.priority == High <==> v.buySignal == IntrinsicValue.StrongBuy)
      && (r.value.params.priority == Medium <==> v.buySignal != IntrinsicValue.StrongBuy)
      && r.value.params.device == AllDevices && r.value.params.data == ValuationData(v)
      && r.value == BuildRequest(r.value.params.priority, AllDevices, Basics.Some(ValuationData(v)))
  {
    var discount := Discount(v.dcfValue25, v.marketPrice);
    if discount.Err? then Basics.Err(discount.error)
    else
      NamesStrongBuyIff(v.buySignal);
      Basics.Ok(BuildRequest(if NamesStrongBuy(v.buySignal) then High else Medium, AllDevices, Basics.Some(ValuationData(v))))
  }

  /** The cross-exchange notification the monitor sends itself: always high
      priority, default device. */
  function CrossExchangeAlert(o: PriceTracker.Opportunity): (r: Request)
    ensures r.params.priority == High && r.params.device == AllDevices
    ensures r.params.data == CrossExchangeData(o)
    ensures r == BuildRequest(High, AllDevices, Basics.Some(CrossExchangeData(o)))
  {
    BuildRequest(High, AllDevices, Basics.Some(CrossExchangeData(o)))
  }
}
