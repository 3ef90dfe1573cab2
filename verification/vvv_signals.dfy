/** Momentum scoring of VVV: an RSI computed as a plain rolling mean of the
    last `period` price changes, drop and bounce signals over a short lookback,
    an optional volume spike, and the integer score that turns them into a
    recommendation. */
module VvvSignals {
  import opened Basics
  import Stats

  // ---------------------------------------------------------------- RSI

  /** What `calculate_rsi` returns: `None` for too short a list, pandas' NaN
      for a window without any movement, or a number. */
  datatype Rsi = Unavailable | NaN | Rsi(value: real)

  /** `clip(lower=0)` of one price change. */
  function Gain(d: real): real {
    if d > 0.0 then d else 0.0
  }

  /** `-clip(upper=0)` of one price change. */
  function Loss(d: real): real {
    if d < 0.0 then -d else 0.0
  }

  /** The sum of the gains between consecutive entries, in list order. */
  function GainSum(w: seq<real>): (g: real)
    ensures g >= 0.0
    decreases |w|
  {
    if |w| < 2 then 0.0 else Gain(w[1] - w[0]) + GainSum(w[1..])
  }

  /** The sum of the losses between consecutive entries, in list order. */
  function LossSum(w: seq<real>): (l: real)
    ensures l >= 0.0
    decreases |w|
  {
    if |w| < 2 then 0.0 else Loss(w[1] - w[0]) + LossSum(w[1..])
  }

  /** The last `period + 1` prices: the ones whose `period` changes make up
      the last full rolling window. */
  function Window(prices: seq<real>, period: nat): (w: seq<real>)
    requires |prices| >= period + 1
    ensures |w| == period + 1
    ensures forall i :: 0 <= i < |w| ==> w[i] == prices[|prices| - period - 1 + i]
  {
    prices[|prices| - period - 1..]
  }

  /** The last row of `100 - 100 / (1 + avg_gain / avg_loss)`. A zero average
      loss makes `rs` infinite, hence 100, unless the average gain is zero as
      well, when `0 / 0` is NaN. */
  function RsiOf(gainSum: real, lossSum: real, period: nat): (r: Rsi)
    requires gainSum >= 0.0 && lossSum >= 0.0 && period >= 1
    ensures r != Unavailable
    ensures r == NaN <==> gainSum == 0.0 && lossSum == 0.0
    ensures r.Rsi? ==> 0.0 <= r.value <= 100.0
    ensures r.Rsi? ==> r.value * (gainSum + lossSum) == 100.0 * gainSum
  {
    var avgGain := gainSum / period as real;
    var avgLoss := lossSum / period as real;
    if avgLoss == 0.0 then
      if avgGain == 0.0 then NaN else Rsi(100.0)
    else
      RsiFormula(gainSum, lossSum, period as real);
      Rsi(100.0 - 100.0 / (1.0 + avgGain / avgLoss))
  }

  /** The rolling-mean formula is the gain share of all movement, in percent:
      the division by the period cancels. */
  lemma RsiFormula(g: real, l: real, p: real)
    requires g >= 0.0 && l > 0.0 && p > 0.0
    ensures var v := 100.0 - 100.0 / (1.0 + (g / p) / (l / p));
            0.0 <= v < 100.0 && v * (g + l) == 100.0 * g
  {
    var a, b := g / p, l / p;
    assert a * p == g && b * p == l;
    assert b > 0.0;
    var rs := a / b;
    assert rs * b == a;
    assert rs >= 0.0;
    var q := 100.0 / (1.0 + rs);
    assert q * (1.0 + rs) == 100.0;
    assert 0.0 < q <= 100.0 by {
      assert 1.0 + rs >= 1.0;
    }
    var v := 100.0 - q;
    assert q * (a + b) == 100.0 * b by {
      assert q * (1.0 + rs) * b == 100.0 * b;
      assert q * (1.0 + rs) * b == q * (b + rs * b);
    }
    assert v * (a + b) == 100.0 * a;
    assert v * (g + l) == v * (a + b) * p;
  }

  /** `calculate_rsi` on the list exactly as given: differences are taken in
      list order, so on a most-recent-first history a rising market counts as
      losses. */
  function CalculateRsi(prices: seq<real>, period: nat): (r: Rsi)
    requires period >= 1
    ensures r == Unavailable <==> |prices| < period + 1
    ensures r == NaN <==>
      |prices| >= period + 1 && GainSum(Window(prices, period)) == 0.0 && LossSum(Window(prices, period)) == 0.0
    ensures r.Rsi? ==> 0.0 <= r.value <= 100.0
    ensures r.Rsi? ==>
      var w := Window(prices, period);
      r.value * (GainSum(w) + LossSum(w)) == 100.0 * GainSum(w)
  {
    if |prices| < period + 1 then Unavailable
    else
      var w := Window(prices, period);
      RsiOf(GainSum(w), LossSum(w), period)
  }

  /** Only the last `period + 1` prices matter. */
  lemma RsiReadsLastWindow(older: seq<real>, w: seq<real>, period: nat)
    requires period >= 1 && |w| == period + 1
    ensures CalculateRsi(older + w, period) == CalculateRsi(w, period)
  {
    assert Window(older + w, period) == w;
    assert Window(w, period) == w;
  }

  predicate StrictlyIncreasing(w: seq<real>) {
    forall i :: 0 <= i < |w| - 1 ==> w[i] < w[i + 1]
  }

  predicate StrictlyDecreasing(w: seq<real>) {
    forall i :: 0 <= i < |w| - 1 ==> w[i] > w[i + 1]
  }

  predicate Flat(w: seq<real>) {
    forall i :: 0 <= i < |w| - 1 ==> w[i] == w[i + 1]
  }

  lemma {:induction false} IncreasingSums(w: seq<real>)
    requires |w| >= 2 && StrictlyIncreasing(w)
    ensures GainSum(w) > 0.0 && LossSum(w) == 0.0
    decreases |w|
  {
    assert w[0] < w[1];
    if |w| > 2 {
      assert StrictlyIncreasing(w[1..]) by {
        forall i | 0 <= i < |w[1..]| - 1
          ensures w[1..][i] < w[1..][i + 1]
        {
          assert w[1..][i] == w[i + 1] && w[1..][i + 1] == w[i + 2];
        }
      }
      IncreasingSums(w[1..]);
    }
  }

  lemma {:induction false} DecreasingSums(w: seq<real>)
    requires |w| >= 2 && StrictlyDecreasing(w)
    ensures GainSum(w) == 0.0 && LossSum(w) > 0.0
    decreases |w|
  {
    assert w[0] > w[1];
    if |w| > 2 {
      assert StrictlyDecreasing(w[1..]) by {
        forall i | 0 <= i < |w[1..]| - 1
          ensures w[1..][i] > w[1..][i + 1]
        {
          assert w[1..][i] == w[i + 1] && w[1..][i + 1] == w[i + 2];
        }
      }
      DecreasingSums(w[1..]);
    }
  }

  lemma {:induction false} FlatSums(w: seq<real>)
    requires Flat(w)
    ensures GainSum(w) == 0.0 && LossSum(w) == 0.0
    decreases |w|
  {
    if |w| >= 2 {
      assert w[0] == w[1];
      assert Flat(w[1..]) by {
        forall i | 0 <= i < |w[1..]| - 1
          ensures w[1..][i] == w[1..][i + 1]
        {
          assert w[1..][i] == w[i + 1] && w[1..][i + 1] == w[i + 2];
        }
      }
      FlatSums(w[1..]);
    }
  }

  /** A window that only rises reads 100 (the average loss is zero). */
  lemma RisingWindowReadsHundred(prices: seq<real>, period: nat)
    requires period >= 1 && |prices| >= period + 1
    requires StrictlyIncreasing(Window(prices, period))
    ensures CalculateRsi(prices, period) == Rsi(100.0)
  {
    IncreasingSums(Window(prices, period));
  }

  /** A window that only falls reads 0. */
  lemma FallingWindowReadsZero(prices: seq<real>, period: nat)
    requires period >= 1 && |prices| >= period + 1
    requires StrictlyDecreasing(Window(prices, period))
    ensures CalculateRsi(prices, period) == Rsi(0.0)
  {
    DecreasingSums(Window(prices, period));
  }

  /** A window without movement reads NaN. */
  lemma FlatWindowReadsNaN(prices: seq<real>, period: nat)
    requires period >= 1 && |prices| >= period + 1
    requires Flat(Window(prices, period))
    ensures CalculateRsi(prices, period) == NaN
  {
    FlatSums(Window(prices, period));
  }

  function Reverse(s: seq<real>): (r: seq<real>)
    ensures |r| == |s|
    ensures forall i :: 0 <= i < |s| ==> r[i] == s[|s| - 1 - i]
  {
    if |s| == 0 then [] else Reverse(s[1..]) + [s[0]]
  }

  lemma {:induction false} GainSumSnoc(s: seq<real>, x: real)
    requires |s| >= 1
    ensures GainSum(s + [x]) == GainSum(s) + Gain(x - s[|s| - 1])
    ensures LossSum(s + [x]) == LossSum(s) + Loss(x - s[|s| - 1])
    decreases |s|
  {
    if |s| == 1 {
      assert (s + [x])[1..] == [x];
    } else {
      assert (s + [x])[1..] == s[1..] + [x];
      GainSumSnoc(s[1..], x);
    }
  }

  /** Reading a list backwards turns every gain into a loss. */
  lemma {:induction false} ReverseSwapsSums(w: seq<real>)
    ensures GainSum(Reverse(w)) == LossSum(w)
    ensures LossSum(Reverse(w)) == GainSum(w)
    decreases |w|
  {
    if |w| >= 2 {
      var r := Reverse(w[1..]);
      assert Reverse(w) == r + [w[0]];
      assert r[|r| - 1] == w[1];
      GainSumSnoc(r, w[0]);
      ReverseSwapsSums(w[1..]);
      assert Gain(w[0] - w[1]) == Loss(w[1] - w[0]);
      assert Loss(w[0] - w[1]) == Gain(w[1] - w[0]);
    } else if |w| == 1 {
      assert Reverse(w) == w;
    }
  }

  /** On exactly `period + 1` prices, the RSI of the list read backwards is
      the complement of the RSI read forwards: a most-recent-first history
      yields 100 minus the chronological RSI. */
  lemma ReversedRsiComplements(prices: seq<real>, period: nat)
    requires period >= 1 && |prices| == period + 1
    ensures CalculateRsi(prices, period) == NaN <==> CalculateRsi(Reverse(prices), period) == NaN
    ensures CalculateRsi(prices, period).Rsi? ==>
      CalculateRsi(Reverse(prices), period) == Rsi(100.0 - CalculateRsi(prices, period).value)
  {
    assert Window(prices, period) == prices;
    assert Window(Reverse(prices), period) == Reverse(prices);
    ReverseSwapsSums(prices);
    SwappedSumsComplement(GainSum(prices), LossSum(prices), period);
  }

  lemma SwappedSumsComplement(g: real, l: real, period: nat)
    requires g >= 0.0 && l >= 0.0 && period >= 1
    ensures RsiOf(g, l, period) == NaN <==> RsiOf(l, g, period) == NaN
    ensures RsiOf(g, l, period).Rsi? ==> RsiOf(l, g, period) == Rsi(100.0 - RsiOf(g, l, period).value)
  {
    var r, b := RsiOf(g, l, period), RsiOf(l, g, period);
    if r.Rsi? {
      assert g + l > 0.0;
      ComplementShare(r.value, b.value, g, l);
    }
  }

  lemma ComplementShare(v: real, u: real, g: real, l: real)
    requires g + l > 0.0
    requires v * (g + l) == 100.0 * g && u * (l + g) == 100.0 * l
    ensures u == 100.0 - v
  {
    assert (u + v) * (g + l) == 100.0 * (g + l);
    CancelPositive(u + v, 100.0, g + l);
  }

  lemma CancelPositive(a: real, b: real, c: real)
    requires c > 0.0 && a * c == b * c
    ensures a == b
  {
  }

  // ------------------------------------------------------------ signals

  /** The thresholds of a `VVVSignalAnalyzer`. */
  datatype Thresholds = Thresholds(rsiOversold: real, priceDropThreshold: real, volumeSpikeMultiplier: real)

  /** The constructor's defaults: oversold below 30, a 15% drop, twice the
      average volume. */
  const DefaultThresholds := Thresholds(30.0, 15.0, 2.0)

  /** The periods `generate_buy_signal` uses. */
  const RsiPeriod: nat := 14
  const LookbackDays: nat := 7

  /** The `type` of a signal. */
  datatype SignalKind = RsiOversold | PriceDrop | Bounce | VolumeSpike

  /** One signal dictionary; its severity is HIGH or MEDIUM (the message text
      is not modelled). */
  datatype Signal = Signal(kind: SignalKind, severity: Confidence, value: real)

  /** Exceptions that escape the analyzer. */
  datatype Fault = ZeroDivision | InvalidFormatSpec

  /** Some signal in the list has the given kind. */
  predicate Mentions(signals: seq<Signal>, k: SignalKind) {
    exists i :: 0 <= i < |signals| && signals[i].kind == k
  }

  /** The position of each kind in the order the analyzer emits them. */
  function Rank(k: SignalKind): nat {
    match k
    case RsiOversold => 0
    case PriceDrop => 1
    case Bounce => 2
    case VolumeSpike => 3
  }

  /** Every signal's kind ranks between `lo` and `hi`. */
  predicate RanksWithin(signals: seq<Signal>, lo: nat, hi: nat) {
    forall i :: 0 <= i < |signals| ==> lo <= Rank(signals[i].kind) <= hi
  }

  /** Signals appear in emission order, each kind at most once. */
  predicate InEmissionOrder(signals: seq<Signal>) {
    forall i, j :: 0 <= i < j < |signals| ==> Rank(signals[i].kind) < Rank(signals[j].kind)
  }

  /** The dictionary `analyze_price_action` returns. */
  datatype PriceAction =
    | InsufficientData
    | PriceAction(
        currentPrice: real, recentHigh: real, recentLow: real,
        dropFromHigh: real, riseFromLow: real, signals: seq<Signal>)
  {
    /** `.get("signals", [])`: the insufficient-data answer has none. */
    function Signals(): seq<Signal> {
      if InsufficientData? then [] else signals
    }
  }

  /** The drop and bounce signals for a given drop from the high and rise from
      the low, in the order they are appended. */
  function PriceSignals(t: Thresholds, drop: real, rise: real): (s: seq<Signal>)
    ensures InEmissionOrder(s)
    ensures Mentions(s, PriceDrop) <==> drop >= t.priceDropThreshold
    ensures Mentions(s, Bounce) <==> rise > 5.0 && drop > 10.0
    ensures !Mentions(s, RsiOversold) && !Mentions(s, VolumeSpike) && RanksWithin(s, 1, 2)
    ensures 0 <= TotalPoints(s) <= 4
  {
    var dropSignals := DropSignals(t, drop);
    var bounceSignals := BounceSignals(drop, rise);
    var s := dropSignals + bounceSignals;
    OrderedConcat(dropSignals, bounceSignals, 1, 1, 2, 2);
    MentionsConcat(dropSignals, bounceSignals, PriceDrop);
    MentionsConcat(dropSignals, bounceSignals, Bounce);
    OutsideRanks(s, 1, 2, RsiOversold);
    OutsideRanks(s, 1, 2, VolumeSpike);
    TotalPointsConcat(dropSignals, bounceSignals);
    s
  }

  /** The PRICE_DROP signal, HIGH beyond a 20% drop. */
  function DropSignals(t: Thresholds, drop: real): (s: seq<Signal>)
    ensures |s| <= 1 && InEmissionOrder(s) && RanksWithin(s, 1, 1)
    ensures Mentions(s, PriceDrop) <==> drop >= t.priceDropThreshold
    ensures !Mentions(s, Bounce)
    ensures 0 <= TotalPoints(s) <= 3
  {
    if drop >= t.priceDropThreshold then
      var s := [Signal(PriceDrop, if drop > 20.0 then High else Medium, drop)];
      SingletonPoints(s);
      assert s[0].kind == PriceDrop;
      s
    else []
  }

  /** The BOUNCE signal: a rise of more than 5% off the low after a drop of
      more than 10% from the high. */
  function BounceSignals(drop: real, rise: real): (s: seq<Signal>)
    ensures |s| <= 1 && InEmissionOrder(s) && RanksWithin(s, 2, 2)
    ensures Mentions(s, Bounce) <==> rise > 5.0 && drop > 10.0
    ensures !Mentions(s, PriceDrop)
    ensures 0 <= TotalPoints(s) <= 1
  {
    if rise > 5.0 && drop > 10.0 then
      var s := [Signal(Bounce, Medium, rise)];
      SingletonPoints(s);
      assert s[0].kind == Bounce;
      s
    else []
  }

  /** What the drop and bounce signals carry: the drop, HIGH beyond 20%, and
      the rise, always MEDIUM. */
  lemma PriceSignalDetails(t: Thresholds, drop: real, rise: real)
    ensures var s := PriceSignals(t, drop, rise);
            && (forall i :: 0 <= i < |s| && s[i].kind == PriceDrop ==>
                  s[i].value == drop && (s[i].severity == High <==> drop > 20.0)
                  && (s[i].severity == High || s[i].severity == Medium))
            && (forall i :: 0 <= i < |s| && s[i].kind == Bounce ==> s[i].value == rise && s[i].severity == Medium)
  {
  }

  /** `analyze_price_action` over the first `lookback` entries of a
      most-recent-first history. A zero high or low raises ZeroDivisionError. */
  function AnalyzePriceAction(t: Thresholds, current: real, history: seq<real>, lookback: nat): (r: Result<PriceAction, Fault>)
    requires lookback >= 1
    ensures r == Ok(InsufficientData) <==> |history| == 0 || |history| < lookback
    ensures |history| >= lookback ==> r == RecentAction(t, current, history[..lookback])
  {
    if |history| == 0 || |history| < lookback then Ok(InsufficientData)
    else RecentAction(t, current, history[..lookback])
  }

  /** The analysis of a non-empty window of recent closes. */
  function RecentAction(t: Thresholds, current: real, recent: seq<real>): (r: Result<PriceAction, Fault>)
    requires |recent| > 0
    ensures r.Err? <==> Stats.MaxOf(recent) == 0.0 || Stats.MinOf(recent) == 0.0
    ensures r.Err? ==> r.error == ZeroDivision
    ensures r.Ok? ==>
      var a := r.value;
      && a.PriceAction?
      && a.currentPrice == current
      && a.recentHigh == Stats.MaxOf(recent) && a.recentLow == Stats.MinOf(recent)
      && a.recentHigh != 0.0 && a.recentLow != 0.0
      && a == ActionBetween(t, current, a.recentHigh, a.recentLow)
  {
    var high := Stats.MaxOf(recent);
    var low := Stats.MinOf(recent);
    if high == 0.0 || low == 0.0 then Err(ZeroDivision)
    else Ok(ActionBetween(t, current, high, low))
  }

  /** The analysis once the window's high and low are known to be nonzero:
      the drop from the high and the rise off the low as percentages, and
      the signals they raise. */
  function ActionBetween(t: Thresholds, current: real, high: real, low: real): (a: PriceAction)
    requires high != 0.0 && low != 0.0
    ensures a.PriceAction? && a.currentPrice == current && a.recentHigh == high && a.recentLow == low
    ensures a.dropFromHigh == PercentOf(high - current, high)
    ensures a.riseFromLow == PercentOf(current - low, low)
    ensures a.signals == PriceSignals(t, a.dropFromHigh, a.riseFromLow)
  {
    var drop := PercentOf(high - current, high);
    var rise := PercentOf(current - low, low);
    PriceAction(current, high, low, drop, rise, PriceSignals(t, drop, rise))
  }

  /** `x / base * 100`, what `x` is as a percentage of `base`. */
  function PercentOf(x: real, base: real): (p: real)
    requires base != 0.0
    ensures p * base == x * 100.0
    ensures base > 0.0 ==> (p > 0.0 <==> x > 0.0)
  {
    assert x / base * base == x;
    x / base * 100.0
  }

  /** The analysis reads nothing beyond the first `lookback` entries. */
  lemma PriceActionReadsLookbackOnly(t: Thresholds, current: real, h1: seq<real>, h2: seq<real>, lookback: nat)
    requires lookback >= 1 && |h1| >= lookback && |h2| >= lookback
    requires h1[..lookback] == h2[..lookback]
    ensures AnalyzePriceAction(t, current, h1, lookback) == AnalyzePriceAction(t, current, h2, lookback)
  {
  }

  // -------------------------------------------------------------- score

  /** What each signal adds to the score: 3 for a HIGH and 2 for a MEDIUM
      oversold RSI or price drop, 1 for a bounce, 2 for a volume spike. */
  function Points(s: Signal): int {
    match s.kind
    case Bounce => 1
    case VolumeSpike => 2
    case _ => if s.severity == High then 3 else 2
  }

  function TotalPoints(signals: seq<Signal>): int
    decreases |signals|
  {
    if |signals| == 0 then 0 else Points(signals[0]) + TotalPoints(signals[1..])
  }

  /** The recommendations "STRONG BUY", "BUY", "CONSIDER" and "HOLD". */
  datatype Recommendation = StrongBuy | Buy | Consider | Hold

  /** The dictionary `generate_buy_signal` returns. */
  datatype BuySignal = BuySignal(
    currentPrice: real,
    rsi: Rsi,
    signals: seq<Signal>,
    signalCount: nat,
    score: int,
    recommendation: Recommendation,
    confidence: Confidence,
    priceAction: PriceAction)

  /** The RSI_OVERSOLD signal, when the RSI is a number below the threshold;
      NaN compares false. */
  function RsiSignals(t: Thresholds, rsi: Rsi): (s: seq<Signal>)
    ensures Mentions(s, RsiOversold) <==> rsi.Rsi? && rsi.value < t.rsiOversold
    ensures RanksWithin(s, 0, 0) && |s| <= 1
    ensures forall i :: 0 <= i < |s| ==>
              s[i].value == rsi.value && (s[i].severity == High <==> rsi.value < 20.0)
              && (s[i].severity == High || s[i].severity == Medium)
  {
    if rsi.Rsi? && rsi.value < t.rsiOversold then
      var s := [Signal(RsiOversold, if rsi.value < 20.0 then High else Medium, rsi.value)];
      assert s[0].kind == RsiOversold;
      s
    else []
  }

  /** Whether the volumes show a spike: both present and nonzero, a positive
      average, and a ratio of at least the multiplier. */
  predicate VolumeSpikes(t: Thresholds, volumeCurrent: Option<real>, volumeAvg: Option<real>) {
    && TruthyReal(volumeCurrent) && TruthyReal(volumeAvg) && volumeAvg.value > 0.0
    && volumeCurrent.value / volumeAvg.value >= t.volumeSpikeMultiplier
  }

  function VolumeSignals(t: Thresholds, volumeCurrent: Option<real>, volumeAvg: Option<real>): (s: seq<Signal>)
    ensures Mentions(s, VolumeSpike) <==> VolumeSpikes(t, volumeCurrent, volumeAvg)
    ensures RanksWithin(s, 3, 3) && |s| <= 1
    ensures forall i :: 0 <= i < |s| ==>
              s[i].value * volumeAvg.value == volumeCurrent.value && s[i].severity == Medium
  {
    if VolumeSpikes(t, volumeCurrent, volumeAvg) then
      var ratio := volumeCurrent.value / volumeAvg.value;
      assert ratio * volumeAvg.value == volumeCurrent.value;
      var s := [Signal(VolumeSpike, Medium, ratio)];
      assert s[0].kind == VolumeSpike;
      s
    else []
  }

  /** The score increments of `generate_buy_signal`, as its branches add them. */
  function RsiScore(t: Thresholds, rsi: Rsi): int {
    if rsi.Rsi? && rsi.value < t.rsiOversold then (if rsi.value < 20.0 then 3 else 2) else 0
  }

  function PriceActionScore(signals: seq<Signal>): int
    decreases |signals|
  {
    if |signals| == 0 then 0
    else
      var s := signals[0];
      var here :=
        if s.kind == PriceDrop then (if s.severity == High then 3 else 2)
        else if s.kind == Bounce then 1
        else 0;
      here + PriceActionScore(signals[1..])
  }

  function VolumeScore(t: Thresholds, volumeCurrent: Option<real>, volumeAvg: Option<real>): int {
    if VolumeSpikes(t, volumeCurrent, volumeAvg) then 2 else 0
  }

  /** The volume branch adds 2 exactly when it emits its signal. */
  lemma VolumeScoreIsPoints(t: Thresholds, volumeCurrent: Option<real>, volumeAvg: Option<real>)
    ensures VolumeScore(t, volumeCurrent, volumeAvg) == 2 * |VolumeSignals(t, volumeCurrent, volumeAvg)|
  {
  }

  /** The score thresholds: 5 for STRONG BUY, 3 for BUY, 1 for CONSIDER. */
  function Recommend(score: int): (r: (Recommendation, Confidence))
    ensures r.0 == StrongBuy <==> score >= 5
    ensures r.0 == Buy <==> 3 <= score < 5
    ensures r.0 == Consider <==> 1 <= score < 3
    ensures r.0 == Hold <==> score < 1
    ensures r.1 == match r.0
                   case StrongBuy => High
                   case Buy => Medium
                   case Consider => Low
                   case Hold => Neutral
  {
    if score >= 5 then (StrongBuy, High)
    else if score >= 3 then (Buy, Medium)
    else if score >= 1 then (Consider, Low)
    else (Hold, Neutral)
  }

  /** The scoring half of `generate_buy_signal`, given the RSI and the price
      action it computed: signals in emission order, the score as the sum of
      their points, and the recommendation for that score. */
  function ScoreSignals(
    t: Thresholds, current: real, rsi: Rsi, action: PriceAction,
    volumeCurrent: Option<real>, volumeAvg: Option<real>): (b: BuySignal)
    requires action.PriceAction? ==> RanksWithin(action.signals, 1, 2) && InEmissionOrder(action.signals)
    requires action.PriceAction? ==> 0 <= TotalPoints(action.signals) <= 4
    ensures b.currentPrice == current && b.rsi == rsi && b.priceAction == action
    ensures b.signalCount == |b.signals|
    ensures b.score == TotalPoints(b.signals)
    ensures 0 <= b.score <= 9
    ensures InEmissionOrder(b.signals)
    ensures b.signals == RsiSignals(t, rsi) + action.Signals() + VolumeSignals(t, volumeCurrent, volumeAvg)
    ensures (b.recommendation, b.confidence) == Recommend(b.score)
  {
    var rs := RsiSignals(t, rsi);
    var ps := action.Signals();
    var vs := VolumeSignals(t, volumeCurrent, volumeAvg);
    var score := RsiScore(t, rsi) + PriceActionScore(ps) + VolumeScore(t, volumeCurrent, volumeAvg);
    var signals := rs + ps + vs;
    SignalsCombine(t, rsi, ps, vs);
    VolumeScoreIsPoints(t, volumeCurrent, volumeAvg);
    var (recommendation, confidence) := Recommend(score);
    BuySignal(current, rsi, signals, |signals|, score, recommendation, confidence, action)
  }

  /** Each kind of signal appears in the scored list exactly when its own
      condition holds. */
  lemma ScoreSignalsMentions(
    t: Thresholds, current: real, rsi: Rsi, action: PriceAction,
    volumeCurrent: Option<real>, volumeAvg: Option<real>)
    requires action.PriceAction? ==> RanksWithin(action.signals, 1, 2) && InEmissionOrder(action.signals)
    requires action.PriceAction? ==> 0 <= TotalPoints(action.signals) <= 4
    ensures var b := ScoreSignals(t, current, rsi, action, volumeCurrent, volumeAvg);
            && (Mentions(b.signals, RsiOversold) <==> rsi.Rsi? && rsi.value < t.rsiOversold)
            && (Mentions(b.signals, PriceDrop) <==> Mentions(action.Signals(), PriceDrop))
            && (Mentions(b.signals, Bounce) <==> Mentions(action.Signals(), Bounce))
            && (Mentions(b.signals, VolumeSpike) <==> VolumeSpikes(t, volumeCurrent, volumeAvg))
  {
    MentionsByGroup(t, rsi, action.Signals(), volumeCurrent, volumeAvg);
  }

  /** An RSI below both the threshold and 20 alone scores 3, enough for a
      BUY. */
  lemma DeepOversoldScoresThree(
    t: Thresholds, current: real, rsi: Rsi, action: PriceAction,
    volumeCurrent: Option<real>, volumeAvg: Option<real>)
    requires action.PriceAction? ==> RanksWithin(action.signals, 1, 2) && InEmissionOrder(action.signals)
    requires action.PriceAction? ==> 0 <= TotalPoints(action.signals) <= 4
    requires rsi.Rsi? && rsi.value < t.rsiOversold && rsi.value < 20.0
    ensures ScoreSignals(t, current, rsi, action, volumeCurrent, volumeAvg).score >= 3
  {
    SignalsCombine(t, rsi, action.Signals(), VolumeSignals(t, volumeCurrent, volumeAvg));
  }

  /** `generate_buy_signal`: RSI over 14 changes, price action over 7 days and
      the optional volume spike, scored and mapped to a recommendation. The
      only exception that escapes is the price action's division by zero. */
  function GenerateBuySignal(
    t: Thresholds, current: real, history: seq<real>,
    volumeCurrent: Option<real>, volumeAvg: Option<real>): (r: Result<BuySignal, Fault>)
    ensures r.Err? <==> AnalyzePriceAction(t, current, history, LookbackDays).Err?
    ensures r.Ok? ==>
      r.value == ScoreSignals(
        t, current, CalculateRsi(history, RsiPeriod), AnalyzePriceAction(t, current, history, LookbackDays).value,
        volumeCurrent, volumeAvg)
  {
    var rsi := CalculateRsi(history, RsiPeriod);
    var action := AnalyzePriceAction(t, current, history, LookbackDays);
    if action.Err? then Err(action.error)
    else Ok(ScoreSignals(t, current, rsi, action.value, volumeCurrent, volumeAvg))
  }

  /** The three groups of signals concatenate into an ordered list whose
      points are the score the branches add up. */
  lemma SignalsCombine(t: Thresholds, rsi: Rsi, ps: seq<Signal>, vs: seq<Signal>)
    requires RanksWithin(ps, 1, 2) && InEmissionOrder(ps) && 0 <= TotalPoints(ps) <= 4
    requires RanksWithin(vs, 3, 3) && |vs| <= 1
    ensures var s := RsiSignals(t, rsi) + ps + vs;
            && InEmissionOrder(s)
            && TotalPoints(s) == RsiScore(t, rsi) + PriceActionScore(ps) + 2 * |vs|
            && PriceActionScore(ps) == TotalPoints(ps)
            && 0 <= TotalPoints(s) <= 9
  {
    var rs := RsiSignals(t, rsi);
    OrderedConcat(rs, ps, 0, 0, 1, 2);
    OrderedConcat(rs + ps, vs, 0, 2, 3, 3);
    PointsCombine(t, rsi, ps, vs);
  }

  /** The points half of `SignalsCombine`. */
  lemma PointsCombine(t: Thresholds, rsi: Rsi, ps: seq<Signal>, vs: seq<Signal>)
    requires RanksWithin(ps, 1, 2) && InEmissionOrder(ps) && 0 <= TotalPoints(ps) <= 4
    requires RanksWithin(vs, 3, 3) && |vs| <= 1
    ensures var s := RsiSignals(t, rsi) + ps + vs;
            && TotalPoints(s) == RsiScore(t, rsi) + PriceActionScore(ps) + 2 * |vs|
            && PriceActionScore(ps) == TotalPoints(ps)
            && 0 <= TotalPoints(s) <= 9
  {
    var rs := RsiSignals(t, rsi);
    TotalPointsConcat(rs, ps);
    TotalPointsConcat(rs + ps, vs);
    PriceActionScoreIsPoints(ps);
    RsiPoints(t, rsi);
    VolumePoints(vs);
  }

  /** The oversold signal is worth what `RsiScore` adds. */
  lemma RsiPoints(t: Thresholds, rsi: Rsi)
    ensures TotalPoints(RsiSignals(t, rsi)) == RsiScore(t, rsi)
  {
    SingletonPoints(RsiSignals(t, rsi));
  }

  /** A volume spike is worth 2. */
  lemma VolumePoints(vs: seq<Signal>)
    requires RanksWithin(vs, 3, 3) && |vs| <= 1
    ensures TotalPoints(vs) == 2 * |vs|
  {
    SingletonPoints(vs);
    if |vs| == 1 {
      assert Rank(vs[0].kind) == 3;
    }
  }

  /** Which kinds the combined list mentions: each group contributes only
      its own kinds. */
  lemma MentionsByGroup(t: Thresholds, rsi: Rsi, ps: seq<Signal>, volumeCurrent: Option<real>, volumeAvg: Option<real>)
    requires RanksWithin(ps, 1, 2)
    ensures var s := RsiSignals(t, rsi) + ps + VolumeSignals(t, volumeCurrent, volumeAvg);
            && (Mentions(s, RsiOversold) <==> rsi.Rsi? && rsi.value < t.rsiOversold)
            && (Mentions(s, PriceDrop) <==> Mentions(ps, PriceDrop))
            && (Mentions(s, Bounce) <==> Mentions(ps, Bounce))
            && (Mentions(s, VolumeSpike) <==> VolumeSpikes(t, volumeCurrent, volumeAvg))
  {
    var rs, vs := RsiSignals(t, rsi), VolumeSignals(t, volumeCurrent, volumeAvg);
    MentionsOfThree(rs, ps, vs, RsiOversold);
    MentionsOfThree(rs, ps, vs, PriceDrop);
    MentionsOfThree(rs, ps, vs, Bounce);
    MentionsOfThree(rs, ps, vs, VolumeSpike);
    OutsideRanks(ps, 1, 2, RsiOversold);
    OutsideRanks(ps, 1, 2, VolumeSpike);
    OutsideRanks(rs, 0, 0, PriceDrop);
    OutsideRanks(rs, 0, 0, Bounce);
    OutsideRanks(vs, 3, 3, PriceDrop);
    OutsideRanks(vs, 3, 3, Bounce);
  }

  lemma OutsideRanks(s: seq<Signal>, lo: nat, hi: nat, k: SignalKind)
    requires RanksWithin(s, lo, hi) && (Rank(k) < lo || Rank(k) > hi)
    ensures !Mentions(s, k)
  {
  }

  /** A kind occurs in the three groups together iff it occurs in one. */
  lemma MentionsOfThree(a: seq<Signal>, b: seq<Signal>, c: seq<Signal>, k: SignalKind)
    ensures Mentions(a + b + c, k) <==> Mentions(a, k) || Mentions(b, k) || Mentions(c, k)
  {
    MentionsConcat(a, b, k);
    MentionsConcat(a + b, c, k);
  }

  lemma OrderedConcat(a: seq<Signal>, b: seq<Signal>, lo1: nat, hi1: nat, lo2: nat, hi2: nat)
    requires InEmissionOrder(a) && InEmissionOrder(b)
    requires RanksWithin(a, lo1, hi1) && RanksWithin(b, lo2, hi2)
    requires lo1 <= hi1 < lo2 <= hi2
    ensures InEmissionOrder(a + b) && RanksWithin(a + b, lo1, hi2)
  {
    forall i | 0 <= i < |a + b|
      ensures lo1 <= Rank((a + b)[i].kind) <= hi2
    {
      if i >= |a| {
        assert (a + b)[i] == b[i - |a|];
      } else {
        assert (a + b)[i] == a[i];
      }
    }
    forall i, j | 0 <= i < j < |a + b|
      ensures Rank((a + b)[i].kind) < Rank((a + b)[j].kind)
    {
      if j < |a| {
      } else if i >= |a| {
        assert (a + b)[i] == b[i - |a|] && (a + b)[j] == b[j - |a|];
      } else {
        assert (a + b)[j] == b[j - |a|];
      }
    }
  }

  lemma MentionsConcat(a: seq<Signal>, b: seq<Signal>, k: SignalKind)
    ensures Mentions(a + b, k) <==> Mentions(a, k) || Mentions(b, k)
  {
    if Mentions(a + b, k) {
      var i :| 0 <= i < |a + b| && (a + b)[i].kind == k;
      if i >= |a| {
        assert b[i - |a|].kind == k;
      }
    }
    if Mentions(a, k) {
      var i :| 0 <= i < |a| && a[i].kind == k;
      assert (a + b)[i].kind == k;
    }
    if Mentions(b, k) {
      var i :| 0 <= i < |b| && b[i].kind == k;
      assert (a + b)[|a| + i].kind == k;
    }
  }

  lemma {:induction false} TotalPointsConcat(a: seq<Signal>, b: seq<Signal>)
    ensures TotalPoints(a + b) == TotalPoints(a) + TotalPoints(b)
    decreases |a|
  {
    if |a| > 0 {
      assert (a + b)[1..] == a[1..] + b;
      TotalPointsConcat(a[1..], b);
    } else {
      assert a + b == b;
    }
  }

  lemma SingletonPoints(s: seq<Signal>)
    requires |s| <= 1
    ensures TotalPoints(s) == if |s| == 0 then 0 else Points(s[0])
  {
    if |s| == 1 {
      assert s[1..] == [];
    }
  }

  /** Over drop and bounce signals, the branch-by-branch score is the sum of
      the signals' points. */
  lemma {:induction false} PriceActionScoreIsPoints(ps: seq<Signal>)
    requires RanksWithin(ps, 1, 2)
    ensures PriceActionScore(ps) == TotalPoints(ps)
    decreases |ps|
  {
    if |ps| > 0 {
      assert RanksWithin(ps[1..], 1, 2) by {
        forall i | 0 <= i < |ps[1..]|
          ensures 1 <= Rank(ps[1..][i].kind) <= 2
        {
          assert ps[1..][i] == ps[i + 1];
        }
      }
      PriceActionScoreIsPoints(ps[1..]);
    }
  }

  /** A market that rose at every step, stored most recent first, is strictly
      decreasing in list order, so the RSI reads 0 and the oversold signal
      alone lifts the call to BUY or better. */
  lemma RisingMarketReadsOversold(
    t: Thresholds, current: real, history: seq<real>,
    volumeCurrent: Option<real>, volumeAvg: Option<real>)
    requires |history| >= RsiPeriod + 1 && StrictlyDecreasing(history)
    requires forall i :: 0 <= i < |history| ==> history[i] > 0.0
    requires t.rsiOversold > 0.0
    ensures CalculateRsi(history, RsiPeriod) == Rsi(0.0)
    ensures GenerateBuySignal(t, current, history, volumeCurrent, volumeAvg).Ok?
    ensures var b := GenerateBuySignal(t, current, history, volumeCurrent, volumeAvg).value;
            b.score >= 3 && (b.recommendation == Buy || b.recommendation == StrongBuy)
  {
    var w := Window(history, RsiPeriod);
    assert StrictlyDecreasing(w) by {
      forall i | 0 <= i < |w| - 1
        ensures w[i] > w[i + 1]
      {
        var k := |history| - RsiPeriod - 1 + i;
        assert w[i] == history[k] && w[i + 1] == history[k + 1];
      }
    }
    FallingWindowReadsZero(history, RsiPeriod);
    var recent := history[..LookbackDays];
    assert Stats.MaxOf(recent) > 0.0 && Stats.MinOf(recent) > 0.0;
    var action := AnalyzePriceAction(t, current, history, LookbackDays);
    DeepOversoldScoresThree(t, current, Rsi(0.0), action.value, volumeCurrent, volumeAvg);
  }

  /** `generate_buy_signal` as written: once the score reaches 3 it logs a
      warning that formats the RSI with the specifier `.1f if rsi else 'N/A'`,
      which Python rejects, so the call raises instead of returning. */
  function GenerateBuySignalAsWritten(
    t: Thresholds, current: real, history: seq<real>,
    volumeCurrent: Option<real>, volumeAvg: Option<real>): (r: Result<BuySignal, Fault>)
    ensures r.Ok? ==> r == GenerateBuySignal(t, current, history, volumeCurrent, volumeAvg)
    ensures r.Ok? ==> r.value.recommendation == Consider || r.value.recommendation == Hold
  {
    match GenerateBuySignal(t, current, history, volumeCurrent, volumeAvg)
    case Err(e) => Err(e)
    case Ok(b) => if b.score >= 3 then Err(InvalidFormatSpec) else Ok(b)
  }

  /** The steadily rising market that should yield a BUY makes the function as
      written raise instead. */
  lemma RisingMarketRaisesAsWritten(
    t: Thresholds, current: real, history: seq<real>,
    volumeCurrent: Option<real>, volumeAvg: Option<real>)
    requires |history| >= RsiPeriod + 1 && StrictlyDecreasing(history)
    requires forall i :: 0 <= i < |history| ==> history[i] > 0.0
    requires t.rsiOversold > 0.0
    ensures GenerateBuySignalAsWritten(t, current, history, volumeCurrent, volumeAvg) == Err(InvalidFormatSpec)
  {
    RisingMarketReadsOversold(t, current, history, volumeCurrent, volumeAvg);
  }
}
