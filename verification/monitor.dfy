/** One `check_prices` cycle of the monitoring service as a pure transition:
    from the de-duplication state and everything the outside world answers
    during the cycle, to the next state, the records saved and the
    notifications sent, in order, and whether the cycle ended in an exception
    (which the run loop logs and survives). */
module Monitor {
  import opened Basics
  import PriceTracker
  import MintCalculator
  import SpreadAnalyzer
  import IntrinsicValue
  import VvvSignals
  import CaelumNotifier

  /** The two fields `VeniceMonitor` keeps between checks to avoid repeating
      an alert. */
  datatype DedupState = DedupState(
    lastArbitrageAlert: Option<MintAction>,
    lastVvvSignal: Option<VvvSignals.Recommendation>)

  /** The state `__init__` leaves. */
  const Initial: DedupState := DedupState(None, None)

  /** The configured values a check reads, already resolved. */
  datatype Settings = Settings(
    minProfitPercent: real,
    dcfDiscountRate: real,
    thresholds: VvvSignals.Thresholds,
    notifierEnabled: bool)

  /** The fewest stored VVV prices the technical analysis runs on. */
  const MinHistory: nat := 15

  /** The spread the cycle asks of the cross-exchange detector. */
  const CrossExchangeSpreadPercent: real := 5.0

  /** How the daemon answers each of the four notifications a check can send. */
  datatype Deliveries = Deliveries(
    arbitrage: CaelumNotifier.Transport,
    valuation: CaelumNotifier.Transport,
    momentum: CaelumNotifier.Transport,
    crossExchange: CaelumNotifier.Transport)

  /** What the outside world contributes to one check: the VVV and DIEM polls,
      the mint-rate endpoint, the stored VVV history (most recent first), the
      second DIEM poll the cross-exchange detector makes, and the deliveries. */
  datatype World = World(
    vvvReadings: seq<PriceTracker.Reading>,
    diemReadings: seq<PriceTracker.Reading>,
    mintRateResponse: MintCalculator.MintRateResponse,
    vvvHistory: seq<real>,
    crossReadings: seq<PriceTracker.Reading>,
    deliveries: Deliveries)

  /** What a check does outside itself: database writes and notifications
      (with whether `send_notification` reported success). */
  datatype Effect =
    | SaveVvvPrice(price: real)
    | SaveDiemPrice(price: real)
    | SaveMintRate(rate: real, estimated: bool)
    | Notify(request: CaelumNotifier.Request, delivered: bool)

  /** The result of one check. */
  datatype Outcome = Outcome(state: DedupState, effects: seq<Effect>, raised: bool)

  /** The four kinds of notification, told apart by the data they carry. */
  datatype Topic = MintSpread | Valuation | Momentum | CrossExchange

  function TopicOf(e: Effect): Option<Topic> {
    if !e.Notify? then None
    else match e.request.params.data
      case NoData => None
      case ArbitrageData(_) => Some(MintSpread)
      case ValuationData(_) => Some(Valuation)
      case MomentumData(_) => Some(Momentum)
      case CrossExchangeData(_) => Some(CrossExchange)
  }

  /** How many notifications of a topic an effect log holds. */
  function Sent(effects: seq<Effect>, t: Topic): (n: nat)
    ensures n <= |effects|
  {
    if |effects| == 0 then 0
    else (if TopicOf(effects[0]) == Some(t) then 1 else 0) + Sent(effects[1..], t)
  }

  lemma {:induction false} SentConcat(a: seq<Effect>, b: seq<Effect>, t: Topic)
    ensures Sent(a + b, t) == Sent(a, t) + Sent(b, t)
  {
    if |a| == 0 {
      assert a + b == b;
    } else {
      assert (a + b)[1..] == a[1..] + b;
      SentConcat(a[1..], b, t);
    }
  }

  /** A log of database writes holds no notification. */
  lemma {:induction false} WritesSendNothing(effects: seq<Effect>, t: Topic)
    requires forall i :: 0 <= i < |effects| ==> !effects[i].Notify?
    ensures Sent(effects, t) == 0
  {
    if |effects| > 0 {
      assert forall i :: 0 <= i < |effects[1..]| ==> effects[1..][i] == effects[i + 1];
      WritesSendNothing(effects[1..], t);
    }
  }

  /** A notification as `send_notification` performs it. */
  function Send(request: CaelumNotifier.Request, transport: CaelumNotifier.Transport): (e: Effect)
    ensures e.Notify? && e.request == request
    ensures e.delivered <==> transport == CaelumNotifier.Replied(false)
  {
    Notify(request, CaelumNotifier.Delivered(transport))
  }

  /** Both prices are truthy, so the check goes past its first test. */
  function PricesAvailable(w: World): (b: bool)
    ensures b <==> PriceTracker.GetPrice(w.vvvReadings).Some? && PriceTracker.GetPrice(w.diemReadings).Some?
  {
    TruthyReal(PriceTracker.GetPrice(w.vvvReadings)) && TruthyReal(PriceTracker.GetPrice(w.diemReadings))
  }

  /** The rate a check works with, and whether it is recorded as an estimate:
      a falsy fetched rate is replaced by the estimate. */
  function ChooseMintRate(exp: MintCalculator.Exp, response: MintCalculator.MintRateResponse): (r: (real, bool))
    ensures r.0 != 0.0
    ensures r.1 <==> MintCalculator.CurrentMintRate(exp, response) == 0.0
    ensures r.1 ==> r.0 == MintCalculator.EstimateMintRate(exp, None)
    ensures !r.1 ==> r.0 == MintCalculator.CurrentMintRate(exp, response)
  {
    var fetched := MintCalculator.CurrentMintRate(exp, response);
    if fetched != 0.0 then (fetched, false)
    else (MintCalculator.EstimateMintRate(exp, None), true)
  }

  /** What `_analyze_vvv_signals` has to go on: nothing when fewer than 15
      prices are stored, else the outcome of `generate_buy_signal` on the
      current price and the stored history, without volume. */
  function MomentumOf(s: Settings, price: real, history: seq<real>): (r: Option<Result<VvvSignals.BuySignal, VvvSignals.Fault>>)
    ensures r.None? <==> |history| < MinHistory
    ensures r.Some? && r.value.Ok? ==>
              r.value.value.currentPrice == price && r.value.value.rsi == VvvSignals.CalculateRsi(history, VvvSignals.RsiPeriod)
  {
    if |history| < MinHistory then None
    else Some(VvvSignals.GenerateBuySignal(s.thresholds, price, history, None, None))
  }

  /** Everything a check that got both prices works out from the world's
      answers before it acts on them. */
  datatype Analyses = Analyses(
    vvvPrice: real,
    diemPrice: real,
    mintRate: real,
    estimated: bool,
    spread: SpreadAnalyzer.SpreadAnalysis,
    valuation: IntrinsicValue.Valuation,
    momentum: Option<Result<VvvSignals.BuySignal, VvvSignals.Fault>>,
    opportunity: Option<PriceTracker.Opportunity>)

  /** The analyses of a check that got both prices: the mint cost from the
      chosen rate, the spread and the valuation on the DIEM price, the
      momentum of VVV, and the cross-exchange detector on its own poll. The
      prices are positive, and the value the valuation alert divides by is
      not zero. */
  function AnalysesOf(s: Settings, exp: MintCalculator.Exp, w: World): (a: Analyses)
    requires PricesAvailable(w)
    ensures a.vvvPrice > 0.0 && a.diemPrice > 0.0 && a.mintRate != 0.0
    ensures a.valuation.dcfValue25 != 0.0
    ensures a.vvvPrice == PriceTracker.GetPrice(w.vvvReadings).value
    ensures a.diemPrice == PriceTracker.GetPrice(w.diemReadings).value
    ensures a.momentum.None? <==> |w.vvvHistory| < MinHistory
  {
    var vvv := PriceTracker.GetPrice(w.vvvReadings).value;
    var diem := PriceTracker.GetPrice(w.diemReadings).value;
    var rate := ChooseMintRate(exp, w.mintRateResponse);
    var cost := MintCalculator.MintCost(exp, vvv, Some(rate.0), w.mintRateResponse);
    Analyses(
      vvv, diem, rate.0, rate.1,
      SpreadAnalyzer.AnalyzeMintArbitrage(s.minProfitPercent, cost, diem, rate.0),
      IntrinsicValue.AnalyzeValuation(IntrinsicValue.Calculator(s.dcfDiscountRate), diem, vvv, rate.0),
      MomentumOf(s, vvv, w.vvvHistory),
      PriceTracker.DetectCrossExchangeArbitrage(w.crossReadings, CrossExchangeSpreadPercent))
  }

  /** Whether the arbitrage alert goes out: notifier on, `should_alert`, and
      a recommendation different from the last one alerted. */
  predicate ArbitrageDue(s: Settings, st: DedupState, a: SpreadAnalyzer.SpreadAnalysis) {
    s.notifierEnabled && SpreadAnalyzer.ShouldAlert(a) && st.lastArbitrageAlert != Some(a.recommendation)
  }

  /** The arbitrage half of `_analyze_diem_arbitrage`. The recommendation is
      remembered once the alert is attempted, delivered or not. */
  function ArbitrageStep(s: Settings, st: DedupState, a: SpreadAnalyzer.SpreadAnalysis, transport: CaelumNotifier.Transport): (r: (DedupState, seq<Effect>))
    ensures r.0.lastVvvSignal == st.lastVvvSignal
    ensures ArbitrageDue(s, st, a) ==> r.0.lastArbitrageAlert == Some(a.recommendation)
    ensures !ArbitrageDue(s, st, a) ==> r.0 == st && r.1 == []
    ensures Sent(r.1, MintSpread) == (if ArbitrageDue(s, st, a) then 1 else 0)
    ensures Sent(r.1, Valuation) == 0 && Sent(r.1, Momentum) == 0 && Sent(r.1, CrossExchange) == 0
  {
    if ArbitrageDue(s, st, a) then
      (st.(lastArbitrageAlert := Some(a.recommendation)), [Send(CaelumNotifier.ArbitrageAlert(a), transport)])
    else
      (st, [])
  }

  /** Whether the valuation alert goes out: notifier on and a BUY or STRONG
      BUY verdict; there is no de-duplication. */
  predicate ValuationDue(s: Settings, v: IntrinsicValue.Valuation) {
    s.notifierEnabled && (v.buySignal == IntrinsicValue.StrongBuy || v.buySignal == IntrinsicValue.Buy)
  }

  /** The valuation half of `_analyze_diem_arbitrage`: the notifications it
      sends and whether the alert helper raised. */
  function ValuationStep(s: Settings, v: IntrinsicValue.Valuation, transport: CaelumNotifier.Transport): (r: (seq<Effect>, bool))
    ensures r.1 <==> ValuationDue(s, v) && v.dcfValue25 == 0.0
    ensures Sent(r.0, Valuation) == (if ValuationDue(s, v) && !r.1 then 1 else 0)
    ensures Sent(r.0, MintSpread) == 0 && Sent(r.0, Momentum) == 0 && Sent(r.0, CrossExchange) == 0
  {
    if ValuationDue(s, v) then
      match CaelumNotifier.ValuationAlert(v)
      case Ok(request) => ([Send(request, transport)], false)
      case Err(_) => ([], true)
    else
      ([], false)
  }

  /** Whether `_analyze_vvv_signals` raises. */
  predicate MomentumRaises(m: Option<Result<VvvSignals.BuySignal, VvvSignals.Fault>>) {
    m.Some? && m.value.Err?
  }

  /** Whether the momentum alert goes out: a signal, the notifier on, a BUY or
      STRONG BUY, different from the last one sent. */
  predicate MomentumDue(s: Settings, st: DedupState, m: Option<Result<VvvSignals.BuySignal, VvvSignals.Fault>>) {
    && m.Some? && m.value.Ok?
    && s.notifierEnabled
    && (m.value.value.recommendation == VvvSignals.Buy || m.value.value.recommendation == VvvSignals.StrongBuy)
    && st.lastVvvSignal != Some(m.value.value.recommendation)
  }

  /** `_analyze_vvv_signals`: the next state, the notifications, and whether
      it raised. */
  function MomentumStep(
    s: Settings, st: DedupState, m: Option<Result<VvvSignals.BuySignal, VvvSignals.Fault>>,
    transport: CaelumNotifier.Transport): (r: (DedupState, seq<Effect>, bool))
    ensures r.2 <==> MomentumRaises(m)
    ensures r.0.lastArbitrageAlert == st.lastArbitrageAlert
    ensures MomentumDue(s, st, m) ==> r.0.lastVvvSignal == Some(m.value.value.recommendation)
    ensures !MomentumDue(s, st, m) ==> r.0 == st && r.1 == []
    ensures Sent(r.1, Momentum) == (if MomentumDue(s, st, m) then 1 else 0)
    ensures Sent(r.1, MintSpread) == 0 && Sent(r.1, Valuation) == 0 && Sent(r.1, CrossExchange) == 0
  {
    match m
    case None => (st, [], false)
    case Some(Err(_)) => (st, [], true)
    case Some(Ok(b)) =>
      if s.notifierEnabled && (b.recommendation == VvvSignals.Buy || b.recommendation == VvvSignals.StrongBuy)
         && st.lastVvvSignal != Some(b.recommendation)
      then (st.(lastVvvSignal := Some(b.recommendation)), [Send(CaelumNotifier.MomentumAlert(b), transport)], false)
      else (st, [], false)
  }

  /** Whether the cross-exchange notification goes out. */
  predicate CrossExchangeDue(s: Settings, opportunity: Option<PriceTracker.Opportunity>) {
    opportunity.Some? && s.notifierEnabled
  }

  /** `_check_cross_exchange_arbitrage`: one high-priority notification for a
      detected opportunity, every time it is detected. */
  function CrossExchangeStep(s: Settings, opportunity: Option<PriceTracker.Opportunity>, transport: CaelumNotifier.Transport): (r: seq<Effect>)
    ensures Sent(r, CrossExchange) == (if CrossExchangeDue(s, opportunity) then 1 else 0)
    ensures Sent(r, MintSpread) == 0 && Sent(r, Valuation) == 0 && Sent(r, Momentum) == 0
    ensures forall i :: 0 <= i < |r| ==> r[i].Notify? && r[i].request.params.priority == CaelumNotifier.High
  {
    if CrossExchangeDue(s, opportunity) then
      [Send(CaelumNotifier.CrossExchangeAlert(opportunity.value), transport)]
    else
      []
  }

  /** Everything `check_prices` does after saving its three records. An
      exception ends the check where it occurs, keeping what was already
      done. */
  function AfterSaves(s: Settings, st: DedupState, a: Analyses, d: Deliveries): (o: Outcome)
    ensures o.raised <==> (ValuationDue(s, a.valuation) && a.valuation.dcfValue25 == 0.0) || MomentumRaises(a.momentum)
    ensures o.raised ==> o.state.lastVvvSignal == st.lastVvvSignal
  {
    var arbitrage := ArbitrageStep(s, st, a.spread, d.arbitrage);
    var valued := ValuationStep(s, a.valuation, d.valuation);
    if valued.1 then Outcome(arbitrage.0, arbitrage.1, true)
    else
      var momentum := MomentumStep(s, arbitrage.0, a.momentum, d.momentum);
      if momentum.2 then Outcome(momentum.0, arbitrage.1 + valued.0, true)
      else
        var cross := CrossExchangeStep(s, a.opportunity, d.crossExchange);
        Outcome(momentum.0, arbitrage.1 + valued.0 + momentum.1 + cross, false)
  }

  /** Only the momentum analysis raises once the value is known to be
      nonzero, and it runs only on a long enough history. */
  lemma RaisingNeedsHistory(s: Settings, st: DedupState, a: Analyses, w: World)
    requires a.valuation.dcfValue25 != 0.0
    requires a.momentum.None? <==> |w.vvvHistory| < MinHistory
    ensures AfterSaves(s, st, a, w.deliveries).raised ==> |w.vvvHistory| >= MinHistory
  {
  }

  /** The three records a check saves first. */
  function Saved(a: Analyses): seq<Effect> {
    [SaveVvvPrice(a.vvvPrice), SaveDiemPrice(a.diemPrice), SaveMintRate(a.mintRate, a.estimated)]
  }

  /** A log that starts with the saved records starts with the two prices. */
  lemma SavedFirst(a: Analyses, rest: seq<Effect>)
    ensures |Saved(a) + rest| >= 3
    ensures (Saved(a) + rest)[0] == SaveVvvPrice(a.vvvPrice) && (Saved(a) + rest)[1] == SaveDiemPrice(a.diemPrice)
  {
  }

  /** `check_prices`: abort without a price; otherwise save, analyse the
      mint spread and the valuation, then the VVV momentum, then look for a
      cross-exchange opportunity. */
  function CheckPrices(s: Settings, exp: MintCalculator.Exp, st: DedupState, w: World): (o: Outcome)
    ensures !PricesAvailable(w) ==> o == Outcome(st, [], false)
    ensures PricesAvailable(w) ==>
              && |o.effects| >= 3
              && o.effects[0] == SaveVvvPrice(PriceTracker.GetPrice(w.vvvReadings).value)
              && o.effects[1] == SaveDiemPrice(PriceTracker.GetPrice(w.diemReadings).value)
    ensures o.raised ==> |w.vvvHistory| >= MinHistory
  {
    if !PricesAvailable(w) then Outcome(st, [], false)
    else
      var a := AnalysesOf(s, exp, w);
      var rest := AfterSaves(s, st, a, w.deliveries);
      RaisingNeedsHistory(s, st, a, w);
      SavedFirst(a, rest.effects);
      Outcome(rest.state, Saved(a) + rest.effects, rest.raised)
  }

  /** The steps after the saves, topic by topic. */
  lemma {:induction false} AfterSavesSends(s: Settings, st: DedupState, a: Analyses, d: Deliveries)
    requires a.valuation.dcfValue25 != 0.0
    ensures var o := AfterSaves(s, st, a, d);
            && o.raised == MomentumRaises(a.momentum)
            && Sent(o.effects, MintSpread) == (if ArbitrageDue(s, st, a.spread) then 1 else 0)
            && Sent(o.effects, Valuation) == (if ValuationDue(s, a.valuation) then 1 else 0)
            && Sent(o.effects, Momentum) == (if MomentumDue(s, st, a.momentum) then 1 else 0)
            && Sent(o.effects, CrossExchange) ==
                 (if !MomentumRaises(a.momentum) && CrossExchangeDue(s, a.opportunity) then 1 else 0)
            && o.state.lastArbitrageAlert ==
                 (if ArbitrageDue(s, st, a.spread) then Some(a.spread.recommendation) else st.lastArbitrageAlert)
            && o.state.lastVvvSignal ==
                 (if MomentumDue(s, st, a.momentum) then Some(a.momentum.value.value.recommendation) else st.lastVvvSignal)
  {
    var o := AfterSaves(s, st, a, d);
    var arbitrage := ArbitrageStep(s, st, a.spread, d.arbitrage);
    var valued := ValuationStep(s, a.valuation, d.valuation);
    var momentum := MomentumStep(s, arbitrage.0, a.momentum, d.momentum);
    assert MomentumDue(s, arbitrage.0, a.momentum) == MomentumDue(s, st, a.momentum);
    var cross := CrossExchangeStep(s, a.opportunity, d.crossExchange);
    forall t: Topic ensures Sent(arbitrage.1 + valued.0, t) == Sent(arbitrage.1, t) + Sent(valued.0, t) {
      SentConcat(arbitrage.1, valued.0, t);
    }
    if !momentum.2 {
      assert o.effects == arbitrage.1 + valued.0 + momentum.1 + cross;
      forall t: Topic ensures Sent(o.effects, t) == Sent(arbitrage.1 + valued.0, t) + Sent(momentum.1, t) + Sent(cross, t) {
        SentConcat(arbitrage.1 + valued.0, momentum.1, t);
        SentConcat(arbitrage.1 + valued.0 + momentum.1, cross, t);
      }
    }
  }

  /** The saved records add no notification. */
  lemma SavedSendsNothing(a: Analyses, rest: seq<Effect>, t: Topic)
    ensures Sent(Saved(a) + rest, t) == Sent(rest, t)
  {
    WritesSendNothing(Saved(a), t);
    SentConcat(Saved(a), rest, t);
  }

  /** What a check that got both prices does: the three records first, then
      each alert at most once and exactly when due. Only the momentum
      analysis can raise, and when it does the cross-exchange check is
      skipped. Each field of the state moves to the recommendation just
      alerted, and only then. */
  lemma CheckPricesSends(s: Settings, exp: MintCalculator.Exp, st: DedupState, w: World)
    requires PricesAvailable(w)
    ensures var o := CheckPrices(s, exp, st, w);
            var a := AnalysesOf(s, exp, w);
            && |o.effects| >= 3 && o.effects[..3] == Saved(a)
            && o.raised == MomentumRaises(a.momentum)
            && Sent(o.effects, MintSpread) == (if ArbitrageDue(s, st, a.spread) then 1 else 0)
            && Sent(o.effects, Valuation) == (if ValuationDue(s, a.valuation) then 1 else 0)
            && Sent(o.effects, Momentum) == (if MomentumDue(s, st, a.momentum) then 1 else 0)
            && Sent(o.effects, CrossExchange) ==
                 (if !MomentumRaises(a.momentum) && CrossExchangeDue(s, a.opportunity) then 1 else 0)
            && o.state.lastArbitrageAlert ==
                 (if ArbitrageDue(s, st, a.spread) then Some(a.spread.recommendation) else st.lastArbitrageAlert)
            && o.state.lastVvvSignal ==
                 (if MomentumDue(s, st, a.momentum) then Some(a.momentum.value.value.recommendation) else st.lastVvvSignal)
  {
    var o := CheckPrices(s, exp, st, w);
    var a := AnalysesOf(s, exp, w);
    var rest := AfterSaves(s, st, a, w.deliveries);
    assert o.effects == Saved(a) + rest.effects;
    assert o.effects[..3] == Saved(a);
    AfterSavesSends(s, st, a, w.deliveries);
    forall t: Topic ensures Sent(o.effects, t) == Sent(rest.effects, t) {
      SavedSendsNothing(a, rest.effects, t);
    }
  }

  /** A check saves or sends nothing exactly when one of the trackers got no
      usable quote; it then returns normally and keeps its state. */
  lemma AbortsIffNoPrice(s: Settings, exp: MintCalculator.Exp, st: DedupState, w: World)
    ensures var o := CheckPrices(s, exp, st, w);
            && (o.effects == [] <==>
                  (forall i :: 0 <= i < |w.vvvReadings| ==> !PriceTracker.Usable(w.vvvReadings[i].fetch))
                  || (forall i :: 0 <= i < |w.diemReadings| ==> !PriceTracker.Usable(w.diemReadings[i].fetch)))
            && (o.effects == [] ==> o == Outcome(st, [], false))
  {
    if PricesAvailable(w) {
      CheckPricesSends(s, exp, st, w);
    }
  }

  /** What the first three records hold: the two median prices, and the mint
      rate with its provenance. A live non-zero rate is recorded as live; a
      missing or zero rate is replaced by the estimate and recorded as
      estimated; a failed request or an unparsable body, which
      `get_current_mint_rate` already answers with the estimate, is recorded
      as live. */
  lemma SavedRecords(s: Settings, exp: MintCalculator.Exp, st: DedupState, w: World)
    requires PricesAvailable(w)
    ensures var o := CheckPrices(s, exp, st, w);
            var estimate := MintCalculator.EstimateMintRate(exp, None);
            var response := w.mintRateResponse;
            && |o.effects| >= 3
            && o.effects[0] == SaveVvvPrice(PriceTracker.GetPrice(w.vvvReadings).value)
            && o.effects[1] == SaveDiemPrice(PriceTracker.GetPrice(w.diemReadings).value)
            && (response.Body? && response.mintRate.Some? && response.mintRate.value != 0.0
                ==> o.effects[2] == SaveMintRate(response.mintRate.value, false))
            && (response == MintCalculator.Body(None) || response == MintCalculator.Body(Some(0.0))
                ==> o.effects[2] == SaveMintRate(estimate, true))
            && (response.RequestFailed? || response.Malformed?
                ==> o.effects[2] == SaveMintRate(estimate, false))
  {
    CheckPricesSends(s, exp, st, w);
    var o := CheckPrices(s, exp, st, w);
    assert o.effects[0] == o.effects[..3][0] && o.effects[1] == o.effects[..3][1] && o.effects[2] == o.effects[..3][2];
  }

  /** A DIEM valuation alert goes out on every check whose DIEM price is below
      the 1460 dollar value at a 25% rate, however often it went out before. */
  lemma ValuationAlertIff(s: Settings, exp: MintCalculator.Exp, st: DedupState, w: World)
    ensures Sent(CheckPrices(s, exp, st, w).effects, Valuation) == 1 <==>
              PricesAvailable(w) && s.notifierEnabled && PriceTracker.GetPrice(w.diemReadings).value < 1460.0
  {
    if PricesAvailable(w) {
      CheckPricesSends(s, exp, st, w);
    }
  }

  /** Whether a delivery succeeded never changes what the monitor remembers,
      whether it raises or what it sends: a lapsed alert is not retried. */
  lemma StateIgnoresDeliveries(s: Settings, exp: MintCalculator.Exp, st: DedupState, w: World, d: Deliveries)
    ensures var o1, o2 := CheckPrices(s, exp, st, w), CheckPrices(s, exp, st, w.(deliveries := d));
            && o1.state == o2.state && o1.raised == o2.raised
            && forall t: Topic :: Sent(o1.effects, t) == Sent(o2.effects, t)
  {
    var w2 := w.(deliveries := d);
    assert w2.vvvReadings == w.vvvReadings && w2.diemReadings == w.diemReadings;
    if PricesAvailable(w) {
      assert w2.mintRateResponse == w.mintRateResponse && w2.vvvHistory == w.vvvHistory;
      assert w2.crossReadings == w.crossReadings;
      assert AnalysesOf(s, exp, w) == AnalysesOf(s, exp, w2);
      CheckPricesSends(s, exp, st, w);
      CheckPricesSends(s, exp, st, w2);
      var o1, o2 := CheckPrices(s, exp, st, w), CheckPrices(s, exp, st, w2);
      forall t: Topic ensures Sent(o1.effects, t) == Sent(o2.effects, t) {
        match t
        case MintSpread =>
        case Valuation =>
        case Momentum =>
        case CrossExchange =>
      }
    }
  }

  /** What the de-duplication state can hold: the last arbitrage alert is
      never a MONITOR call, and the last VVV signal is a BUY or STRONG BUY. */
  predicate Coherent(st: DedupState) {
    && st.lastArbitrageAlert != Some(Monitor)
    && (st.lastVvvSignal.Some? ==>
          st.lastVvvSignal.value == VvvSignals.Buy || st.lastVvvSignal.value == VvvSignals.StrongBuy)
  }

  lemma InitialCoherent()
    ensures Coherent(Initial)
  {
  }

  /** Every check keeps the state coherent. */
  lemma CheckPricesKeepsCoherent(s: Settings, exp: MintCalculator.Exp, st: DedupState, w: World)
    requires Coherent(st)
    ensures Coherent(CheckPrices(s, exp, st, w).state)
  {
    if PricesAvailable(w) {
      CheckPricesSends(s, exp, st, w);
    }
  }

  /** Repeating a check on the same answers sends neither the arbitrage nor
      the momentum alert again and leaves the state where the first check
      put it; the valuation and cross-exchange notifications, which are not
      de-duplicated, go out again just as before. */
  lemma RepeatedCheckIsQuiet(s: Settings, exp: MintCalculator.Exp, st: DedupState, w: World)
    ensures var o1 := CheckPrices(s, exp, st, w);
            var o2 := CheckPrices(s, exp, o1.state, w);
            && o2.state == o1.state
            && Sent(o2.effects, MintSpread) == 0 && Sent(o2.effects, Momentum) == 0
            && Sent(o2.effects, Valuation) == Sent(o1.effects, Valuation)
            && Sent(o2.effects, CrossExchange) == Sent(o1.effects, CrossExchange)
            && o2.raised == o1.raised
  {
    var o1 := CheckPrices(s, exp, st, w);
    if PricesAvailable(w) {
      CheckPricesSends(s, exp, st, w);
      CheckPricesSends(s, exp, o1.state, w);
    }
  }

  /** A check that sends neither de-duplicated alert leaves the state as it
      was. */
  lemma QuietCheckKeepsState(s: Settings, exp: MintCalculator.Exp, st: DedupState, w: World)
    requires Sent(CheckPrices(s, exp, st, w).effects, MintSpread) == 0
    requires Sent(CheckPrices(s, exp, st, w).effects, Momentum) == 0
    ensures CheckPrices(s, exp, st, w).state == st
  {
    if PricesAvailable(w) {
      CheckPricesSends(s, exp, st, w);
    }
  }

  /** The 15-price gate is enough for both analyses inside
      `generate_buy_signal`: a signal it lets through always carries an RSI
      reading (a number or NaN) and a full price-action analysis. */
  lemma MomentumGateSuffices(s: Settings, price: real, history: seq<real>)
    requires MomentumOf(s, price, history).Some? && MomentumOf(s, price, history).value.Ok?
    ensures var b := MomentumOf(s, price, history).value.value;
            && b.rsi != VvvSignals.Unavailable
            && b.priceAction.PriceAction?
  {
    var action := VvvSignals.AnalyzePriceAction(s.thresholds, price, history, VvvSignals.LookbackDays);
    assert action.Ok? && action.value != VvvSignals.InsufficientData;
  }
}
